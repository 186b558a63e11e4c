/** Audio-segments mode of `create_turn_by_turn_segments`: every entry of
    `results.audio_segments` becomes a turn with an empty speaker, which is folded into
    the previous turn unless it starts at least the delay after that turn ends. */
module AudioMode {
  import opened Wrappers
  import opened Strings
  import opened Transcript
  import opened Turns

  /** Python's `xs[i]` on a list of length `n`: a negative `i` counts from the end. */
  function PyIndex(n: nat, i: int): (r: Option<nat>)
    ensures r.Some? <==> -(n as int) <= i < n
    ensures r.Some? ==> r.value < n && (if i < 0 then r.value == i + n else r.value == i)
  {
    if 0 <= i < n then Some(i)
    else if -(n as int) <= i < 0 then Some(i + n)
    else None
  }

  /** One item id of a segment. A pronunciation adds a word from its first alternative,
      which must carry a confidence, with a leading space unless it is the segment's
      first word; a punctuation mark is appended to the last word, or dropped when
      there is none yet. */
  function AudioItemStep(items: Slot<seq<Item>>, ws: seq<Word>, id: int): Result<seq<Word>>
  {
    var pool :- Get(items, "items");
    match PyIndex(|pool|, id)
    case None => Err(IndexError)
    case Some(k) =>
      var item := pool[k];
      if |item.alternatives| == 0 then Err(IndexError)
      else
        var alt := item.alternatives[0];
        match item
        case Pronunciation(startTime, endTime, _) =>
          (match alt.confidence
           case None => Err(KeyError("confidence"))
           case Some(c) =>
             var text := if ws != [] then " " + alt.content else alt.content;
             Ok(ws + [Word(text, c, startTime, endTime)]))
        case Punctuation(_) =>
          if ws == [] then Ok(ws)
          else Ok(ws[..|ws| - 1] + [Last(ws).(text := Last(ws).text + alt.content)])
  }

  /** The words of a segment's item ids, in order. */
  function AudioWords(items: Slot<seq<Item>>, ids: seq<int>): Result<seq<Word>>
  {
    if ids == [] then Ok([])
    else
      var ws :- AudioWords(items, ids[..|ids| - 1]);
      AudioItemStep(items, ws, Last(ids))
  }

  /** The turn of one audio segment: its times and transcript, no speaker, its words. */
  function SegmentTurn(items: Slot<seq<Item>>, seg: AudioSegment): Result<Turn>
  {
    var ws :- AudioWords(items, seg.items);
    Ok(Turn(seg.startTime, seg.endTime, "", seg.transcript, ws))
  }

  /** `t` is appended when it starts at least the delay after the last turn ends, and
      when there is no turn yet; otherwise the last turn takes its end, its transcript
      after a space and its words as they are. */
  function AudioStep(out: seq<Turn>, t: Turn): seq<Turn>
  {
    if out != [] && t.startTime - Last(out).endTime >= StartNewSegmentDelay then out + [t]
    else if out != [] then
      ReplaceLast(out, FoldIn(Last(out), t))
    else [t]
  }

  function AudioFold(items: Slot<seq<Item>>, segs: seq<AudioSegment>): Result<seq<Turn>>
  {
    if segs == [] then Ok([])
    else
      var out :- AudioFold(items, segs[..|segs| - 1]);
      var t :- SegmentTurn(items, Last(segs));
      Ok(AudioStep(out, t))
  }

  /** Audio-segments mode: `results.audio_segments` folded into turns. */
  function AudioTurns(data: TranscriptJson): Result<seq<Turn>>
  {
    var results :- Get(data.results, "results");
    var segs :- Get(results.audioSegments, "audio_segments");
    AudioFold(results.items, segs)
  }

  /** The times of the pronunciation an item id points at, if it points at one. */
  function OwnAudioRefs(pool: seq<Item>, id: int): seq<SegmentItem>
  {
    var k := PyIndex(|pool|, id);
    if k.Some? && pool[k.value].Pronunciation? then [SegmentItem(pool[k.value].startTime, pool[k.value].endTime)] else []
  }

  /** The times of the pronunciations that a segment's ids point at, in order. */
  function AudioRefs(pool: seq<Item>, ids: seq<int>): seq<SegmentItem>
  {
    if ids == [] then [] else AudioRefs(pool, ids[..|ids| - 1]) + OwnAudioRefs(pool, Last(ids))
  }

  /** The text an item id adds to a segment's words, given whether a word is already
      there: a pronunciation's first alternative, after a space when a word is; a
      punctuation mark's when a word is, and nothing otherwise. */
  function AudioPiece(pool: seq<Item>, id: int, started: bool): string
  {
    var k := PyIndex(|pool|, id);
    if k.None? || |pool[k.value].alternatives| == 0 then ""
    else
      var content := pool[k.value].alternatives[0].content;
      if pool[k.value].Pronunciation? then (if started then " " + content else content)
      else if started then content else ""
  }

  /** The text of a segment's words, item id by item id. */
  function AudioText(pool: seq<Item>, ids: seq<int>): string
  {
    if ids == [] then ""
    else AudioText(pool, ids[..|ids| - 1]) + AudioPiece(pool, Last(ids), AudioRefs(pool, ids[..|ids| - 1]) != [])
  }

  /** The confidence of the pronunciation an item id points at, if it points at one. */
  function OwnAudioConfidences(pool: seq<Item>, id: int): seq<real>
  {
    var k := PyIndex(|pool|, id);
    if k.Some? && pool[k.value].Pronunciation? && |pool[k.value].alternatives| > 0
       && pool[k.value].alternatives[0].confidence.Some?
    then [pool[k.value].alternatives[0].confidence.value]
    else []
  }

  function AudioConfidences(pool: seq<Item>, ids: seq<int>): seq<real>
  {
    if ids == [] then [] else AudioConfidences(pool, ids[..|ids| - 1]) + OwnAudioConfidences(pool, Last(ids))
  }

  /** An item id fails when `results.items` is not there, when the id is out of range,
      when the item has no alternative, and when a pronunciation's first alternative
      has no confidence; otherwise it succeeds. */
  lemma AudioItemStepFaults(items: Slot<seq<Item>>, ws: seq<Word>, id: int)
    ensures !items.Present? ==> AudioItemStep(items, ws, id) == Err(SlotFault(items, "items"))
    ensures items.Present? ==>
      var pool := items.value;
      var k := PyIndex(|pool|, id);
      var r := AudioItemStep(items, ws, id);
      && (k.None? ==> r == Err(IndexError))
      && (k.Some? && pool[k.value].alternatives == [] ==> r == Err(IndexError))
      && ((k.Some? && pool[k.value].Pronunciation? && pool[k.value].alternatives != [] &&
           pool[k.value].alternatives[0].confidence.None?) ==> r == Err(KeyError("confidence")))
      && (r.Ok? <==>
            k.Some? && pool[k.value].alternatives != [] &&
            (pool[k.value].Pronunciation? ==> pool[k.value].alternatives[0].confidence.Some?))
  {
  }

  /** Texts and confidences of a word list whose last word gained `suffix`. */
  lemma TextsFuse(ws: seq<Word>, suffix: string)
    requires ws != []
    ensures var r := ws[..|ws| - 1] + [Last(ws).(text := Last(ws).text + suffix)];
      Texts(r) == Texts(ws) + suffix && Confidences(r) == Confidences(ws)
  {
    var front := ws[..|ws| - 1];
    var r := front + [Last(ws).(text := Last(ws).text + suffix)];
    assert r[..|r| - 1] == front;
  }

  lemma TextsSnoc(ws: seq<Word>, w: Word)
    ensures Texts(ws + [w]) == Texts(ws) + w.text && Confidences(ws + [w]) == Confidences(ws) + [w.confidence]
  {
    assert (ws + [w])[..|ws|] == ws;
  }

  /** Every word but the first of a segment starts with a space. */
  predicate SpacedAfterFirst(ws: seq<Word>)
  {
    forall k :: 0 < k < |ws| ==> StartsWithSpace(ws[k].text)
  }

  /** A word appended after others, with a leading space unless it is the first, keeps
      the words spaced and adds its own times. */
  lemma AppendSpacedWord(ws: seq<Word>, w: Word)
    requires SpacedAfterFirst(ws) && (ws != [] ==> StartsWithSpace(w.text))
    ensures SpacedAfterFirst(ws + [w])
    ensures Refs(ws + [w]) == Refs(ws) + [SegmentItem(w.startTime, w.endTime)]
  {
    var r := ws + [w];
    assert r[..|ws|] == ws;
    assert forall k :: 0 < k < |ws| ==> r[k] == ws[k];
  }

  /** Punctuation appended to the last word keeps the words spaced and their times. */
  lemma FuseLastWord(ws: seq<Word>, suffix: string)
    requires SpacedAfterFirst(ws) && ws != []
    ensures var r := ws[..|ws| - 1] + [Last(ws).(text := Last(ws).text + suffix)];
      && SpacedAfterFirst(r)
      && Refs(r) == Refs(ws)
  {
    var front := ws[..|ws| - 1];
    var r := front + [Last(ws).(text := Last(ws).text + suffix)];
    assert r[..|front|] == front;
    assert ws == front + [Last(ws)];
    assert forall k :: 0 < k < |front| ==> r[k] == ws[k];
    if |ws| > 1 {
      assert StartsWithSpace(Last(ws).text);
    }
  }

  /** One item id. A pronunciation appends the word of its first alternative: its
      content, after a space unless it is the first word, its confidence and the item's
      times. A punctuation mark adds its content to the last word's text and changes
      nothing else. Either way the words stay spaced, and times, texts and confidences
      grow by the id's share. */
  lemma AudioItemStepSpec(pool: seq<Item>, ws: seq<Word>, id: int)
    requires SpacedAfterFirst(ws)
    requires AudioItemStep(Present(pool), ws, id).Ok?
    ensures PyIndex(|pool|, id).Some? && pool[PyIndex(|pool|, id).value].alternatives != []
    ensures var r := AudioItemStep(Present(pool), ws, id).value;
      var item := pool[PyIndex(|pool|, id).value];
      var alt := item.alternatives[0];
      && (item.Pronunciation? ==>
            && alt.confidence.Some?
            && r == ws + [Word(if ws != [] then " " + alt.content else alt.content, alt.confidence.value, item.startTime, item.endTime)])
      && (item.Punctuation? && ws == [] ==> r == [])
      && (item.Punctuation? && ws != [] ==> r == ws[..|ws| - 1] + [Last(ws).(text := Last(ws).text + alt.content)])
      && SpacedAfterFirst(r)
      && Refs(r) == Refs(ws) + OwnAudioRefs(pool, id)
      && Texts(r) == Texts(ws) + AudioPiece(pool, id, ws != [])
      && Confidences(r) == Confidences(ws) + OwnAudioConfidences(pool, id)
  {
    var k := PyIndex(|pool|, id).value;
    var item := pool[k];
    var alt := item.alternatives[0];
    if item.Pronunciation? {
      var w := Word(if ws != [] then " " + alt.content else alt.content, alt.confidence.value, item.startTime, item.endTime);
      AppendSpacedWord(ws, w);
      TextsSnoc(ws, w);
    } else if ws != [] {
      FuseLastWord(ws, alt.content);
      TextsFuse(ws, alt.content);
    }
  }

  /** The words of a segment: one per pronunciation id, with that pronunciation's
      times and first alternative's confidence, in order, and a leading space on every
      word but the first; their texts run together are the ids' contents, each
      pronunciation after a space unless it comes first, punctuation before the first
      word dropped. */
  lemma {:induction false} AudioWordsSpec(pool: seq<Item>, ids: seq<int>)
    ensures AudioWords(Present(pool), ids).Ok? ==>
      && SpacedAfterFirst(AudioWords(Present(pool), ids).value)
      && Refs(AudioWords(Present(pool), ids).value) == AudioRefs(pool, ids)
      && Texts(AudioWords(Present(pool), ids).value) == AudioText(pool, ids)
      && Confidences(AudioWords(Present(pool), ids).value) == AudioConfidences(pool, ids)
    decreases |ids|
  {
    if ids != [] && AudioWords(Present(pool), ids).Ok? {
      var front := ids[..|ids| - 1];
      AudioWordsSpec(pool, front);
      var ws := AudioWords(Present(pool), front).value;
      AudioItemStepSpec(pool, ws, Last(ids));
    }
  }

  /** A segment starts a new turn exactly when there is no turn yet or it starts at least
      the delay after the last turn ends; otherwise the last turn keeps its start and
      takes the segment's end. */
  lemma AudioStepIff(out: seq<Turn>, t: Turn)
    ensures |AudioStep(out, t)| == |out| + 1 <==> (out == [] || t.startTime - Last(out).endTime >= StartNewSegmentDelay)
    ensures Last(AudioStep(out, t)).endTime == t.endTime
    ensures out != [] && t.startTime - Last(out).endTime < StartNewSegmentDelay ==>
      Last(AudioStep(out, t)).startTime == Last(out).startTime
  {
  }

  /** The words of all segments, segment after segment. */
  function SegmentsWords(items: Slot<seq<Item>>, segs: seq<AudioSegment>): Result<seq<Word>>
  {
    if segs == [] then Ok([])
    else
      var ws :- SegmentsWords(items, segs[..|segs| - 1]);
      var own :- AudioWords(items, Last(segs).items);
      Ok(ws + own)
  }

  function Transcripts(segs: seq<AudioSegment>): seq<string>
  {
    if segs == [] then [] else Transcripts(segs[..|segs| - 1]) + [Last(segs).transcript]
  }

  function TurnTexts(ts: seq<Turn>): seq<string>
  {
    if ts == [] then [] else TurnTexts(ts[..|ts| - 1]) + [Last(ts).text]
  }

  /** Consecutive turns are at least the delay apart. */
  predicate Spaced(ts: seq<Turn>)
  {
    forall i :: 0 < i < |ts| ==> ts[i].startTime - ts[i - 1].endTime >= StartNewSegmentDelay
  }

  predicate Unlabelled(ts: seq<Turn>)
  {
    forall i :: 0 <= i < |ts| ==> ts[i].speaker == ""
  }

  /** A segment that starts a new turn. */
  lemma AudioAppendSpec(out: seq<Turn>, t: Turn)
    requires Unlabelled(out) && Spaced(out) && t.speaker == ""
    requires out != [] ==> t.startTime - Last(out).endTime >= StartNewSegmentDelay
    ensures Unlabelled(out + [t]) && Spaced(out + [t])
    ensures AllWords(out + [t]) == AllWords(out) + t.words
    ensures Join(TurnTexts(out + [t]), ' ') == (if out == [] then t.text else Join(TurnTexts(out), ' ') + " " + t.text)
  {
    var r := out + [t];
    assert r[..|r| - 1] == out;
    JoinSnoc(TurnTexts(out), t.text, ' ');
  }

  /** The last turn absorbing the turn of a folded-in segment. */
  function FoldIn(last: Turn, t: Turn): (r: Turn)
    ensures r.startTime == last.startTime && r.endTime == t.endTime && r.speaker == last.speaker
    ensures r.words == last.words + t.words
  {
    last.(endTime := t.endTime, text := last.text + " " + t.text, words := last.words + t.words)
  }

  /** A segment folded into the last turn keeps the turns unlabelled and spaced, and adds
      its words. */
  lemma AudioFoldInWords(out: seq<Turn>, t: Turn)
    requires Unlabelled(out) && Spaced(out) && out != []
    ensures var r := ReplaceLast(out, FoldIn(Last(out), t));
      && Unlabelled(r) && Spaced(r)
      && AllWords(r) == AllWords(out) + t.words
  {
    ReplaceLastKeepsShape(out, FoldIn(Last(out), t));
    AllWordsFoldIn(out, t);
  }

  /** A last turn replaced by one with its start and speaker keeps the turns
      unlabelled and spaced. */
  lemma ReplaceLastKeepsShape(out: seq<Turn>, u: Turn)
    requires Unlabelled(out) && Spaced(out) && out != []
    requires u.startTime == Last(out).startTime && u.speaker == Last(out).speaker
    ensures Unlabelled(ReplaceLast(out, u)) && Spaced(ReplaceLast(out, u))
  {
    var r := ReplaceLast(out, u);
    assert forall i :: 0 <= i < |out| - 1 ==> r[i] == out[i];
  }

  /** Folding a segment into the last turn appends its words. */
  lemma AllWordsFoldIn(out: seq<Turn>, t: Turn)
    requires out != []
    ensures AllWords(ReplaceLast(out, FoldIn(Last(out), t))) == AllWords(out) + t.words
  {
    var front := AllWords(out[..|out| - 1]);
    AllWordsReplaceLast(out, FoldIn(Last(out), t));
    assert AllWords(out) == front + Last(out).words;
    assert front + (Last(out).words + t.words) == (front + Last(out).words) + t.words;
  }

  /** Extending the last piece of a join by a space and more text extends the join. */
  lemma JoinExtendLast(ps: seq<string>, a: string, b: string)
    ensures Join(ps + [a + " " + b], ' ') == Join(ps + [a], ' ') + " " + b
  {
    JoinSnoc(ps, a, ' ');
    JoinSnoc(ps, a + " " + b, ' ');
    if ps != [] {
      var j := Join(ps, ' ');
      assert j + [' '] + (a + " " + b) == (j + [' '] + a) + " " + b;
    }
  }

  /** The texts of some turns, one turn more. */
  lemma TurnTextsSnoc(front: seq<Turn>, t: Turn)
    ensures TurnTexts(front + [t]) == TurnTexts(front) + [t.text]
  {
    assert (front + [t])[..|front|] == front;
  }

  /** A segment folded into the last turn adds its transcript after a space. */
  lemma AudioFoldInText(out: seq<Turn>, t: Turn)
    requires out != []
    ensures Join(TurnTexts(ReplaceLast(out, FoldIn(Last(out), t))), ' ') == Join(TurnTexts(out), ' ') + " " + t.text
  {
    var last := Last(out);
    var merged := FoldIn(last, t);
    var front := out[..|out| - 1];
    assert out == front + [last];
    assert ReplaceLast(out, merged) == front + [merged];
    TurnTextsSnoc(front, last);
    TurnTextsSnoc(front, merged);
    JoinExtendLast(TurnTexts(front), last.text, t.text);
  }

  /** One step keeps the turns unlabelled and spaced, extends the words by the segment's
      words, and the texts joined by spaces by the segment's transcript. */
  lemma AudioStepSpec(out: seq<Turn>, t: Turn)
    requires Unlabelled(out) && Spaced(out) && t.speaker == ""
    ensures var r := AudioStep(out, t);
      && Unlabelled(r) && Spaced(r)
      && AllWords(r) == AllWords(out) + t.words
      && Join(TurnTexts(r), ' ') == (if out == [] then t.text else Join(TurnTexts(out), ' ') + " " + t.text)
  {
    if out == [] || t.startTime - Last(out).endTime >= StartNewSegmentDelay {
      AudioAppendSpec(out, t);
    } else {
      AudioFoldInWords(out, t);
      AudioFoldInText(out, t);
    }
  }

  /** Audio-segments mode keeps every segment's words and transcript: the turns' words are
      all segments' words in order, and their texts joined by spaces are all transcripts
      joined by spaces. */
  lemma {:induction false} AudioFoldContents(items: Slot<seq<Item>>, segs: seq<AudioSegment>)
    ensures AudioFold(items, segs).Ok? ==>
      && Unlabelled(AudioFold(items, segs).value) && Spaced(AudioFold(items, segs).value)
      && SegmentsWords(items, segs) == Ok(AllWords(AudioFold(items, segs).value))
      && Join(TurnTexts(AudioFold(items, segs).value), ' ') == Join(Transcripts(segs), ' ')
    decreases |segs|
  {
    if segs != [] && AudioFold(items, segs).Ok? {
      var front := segs[..|segs| - 1];
      AudioFoldContents(items, front);
      var out := AudioFold(items, front).value;
      var t := SegmentTurn(items, Last(segs)).value;
      assert AudioFold(items, segs) == Ok(AudioStep(out, t));
      assert SegmentsWords(items, segs) == Ok(SegmentsWords(items, front).value + t.words);
      AudioStepSpec(out, t);
      JoinSnoc(Transcripts(front), Last(segs).transcript, ' ');
      AudioFoldShape(items, front);
    }
  }

  /** There are no more turns than segments and none exactly when there are no segments;
      the first turn starts where the first segment starts and the last ends where the
      last segment ends. */
  lemma {:induction false} AudioFoldShape(items: Slot<seq<Item>>, segs: seq<AudioSegment>)
    ensures AudioFold(items, segs).Ok? ==>
      var out := AudioFold(items, segs).value;
      && |out| <= |segs| && (out == [] <==> segs == [])
      && (segs != [] ==> Last(out).endTime == Last(segs).endTime && out[0].startTime == segs[0].startTime)
    decreases |segs|
  {
    if segs != [] && AudioFold(items, segs).Ok? {
      var front := segs[..|segs| - 1];
      AudioFoldShape(items, front);
      var out := AudioFold(items, front).value;
      var t := SegmentTurn(items, Last(segs)).value;
      assert AudioFold(items, segs) == Ok(AudioStep(out, t));
      AudioStepIff(out, t);
      var r := AudioStep(out, t);
      if out != [] {
        if |out| > 1 || |r| > |out| {
          assert r[..|out| - 1] == out[..|out| - 1] || r[..|out|] == out;
          assert r[0] == out[0];
        } else {
          assert r[0] == Last(r);
        }
        assert front[0] == segs[0];
      }
    }
  }
}
