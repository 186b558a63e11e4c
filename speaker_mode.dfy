/** Speaker mode of `create_turn_by_turn_segments`: the speaker groupings of
    `speaker_labels.segments`, each word resolved against `results.items`. */
module SpeakerMode {
  import opened Wrappers
  import opened Transcript
  import opened Turns

  /** The words of one grouping appended to the current segment. Each needs
      `results.items`; a word opening the segment gets no leading space. */
  function SpeakerWords(items: Slot<seq<Item>>, turns: seq<Turn>, refs: seq<SegmentItem>): (r: Result<seq<Turn>>)
    requires turns != []
    ensures r.Ok? ==> |r.value| == |turns| && r.value[..|turns| - 1] == turns[..|turns| - 1]
    decreases |refs|
  {
    if refs == [] then Ok(turns)
    else
      var ts :- SpeakerWords(items, turns, refs[..|refs| - 1]);
      var pool :- Get(items, "items");
      var w :- ResolveWord(pool, Last(refs).startTime, Last(refs).endTime, Last(ts).words != []);
      Ok(AppendWord(ts, w))
  }

  /** One more reference: `results.items` must be there and the word must resolve;
      the word then goes at the end of the last segment. */
  lemma SpeakerWordsAt(items: Slot<seq<Item>>, turns: seq<Turn>, refs: seq<SegmentItem>, i: nat, ts: seq<Turn>)
    requires i < |refs| && turns != []
    requires SpeakerWords(items, turns, refs[..i]) == Ok(ts) && ts != []
    ensures SpeakerWords(items, turns, refs[..i + 1])
         == if !items.Present? then Err(SlotFault(items, "items"))
            else match ResolveWord(items.value, refs[i].startTime, refs[i].endTime, Last(ts).words != [])
              case Err(f) => Err(f)
              case Ok(w) => Ok(AppendWord(ts, w))
  {
    assert refs[..i + 1][..i] == refs[..i];
    assert Last(refs[..i + 1]) == refs[i];
  }

  /** A grouping opens a new segment on a speaker change or after a pause of at least
      the delay. */
  predicate OpensTurn(st: Build, g: SpeakerGrouping)
  {
    g.speakerLabel != st.lastSpeaker || g.startTime - st.lastEnd >= StartNewSegmentDelay
  }

  /** One grouping: skipped when it has no items; otherwise it opens a segment or
      extends the current one (`AttributeError` when there is none), sets its end and
      adds its words. */
  function SpeakerStep(items: Slot<seq<Item>>, st: Build, g: SpeakerGrouping): Result<Build>
  {
    if |g.items| == 0 then Ok(st)
    else if !OpensTurn(st, g) && st.turns == [] then Err(AttributeError)
    else
      var extended := if OpensTurn(st, g) then st.turns + [Turn(g.startTime, 0.0, g.speakerLabel, "", [])] else st.turns;
      var ts :- SpeakerWords(items, SetEnd(extended, g.endTime), g.items);
      Ok(Build(ts, g.speakerLabel, g.endTime))
  }

  function SpeakerFold(items: Slot<seq<Item>>, gs: seq<SpeakerGrouping>): Result<Build>
  {
    if gs == [] then Ok(Initial)
    else
      var st :- SpeakerFold(items, gs[..|gs| - 1]);
      SpeakerStep(items, st, Last(gs))
  }

  /** Speaker mode: `results.speaker_labels.segments` folded into segments. */
  function SpeakerTurns(data: TranscriptJson): Result<seq<Turn>>
  {
    var results :- Get(data.results, "results");
    var labels :- Get(results.speakerLabels, "speaker_labels");
    var groupings :- Get(labels.segments, "segments");
    var b :- SpeakerFold(results.items, groupings);
    Ok(b.turns)
  }

  /** The word references of all groupings, in order. */
  function AllRefs(gs: seq<SpeakerGrouping>): seq<SegmentItem>
  {
    if gs == [] then [] else AllRefs(gs[..|gs| - 1]) + Last(gs).items
  }

  /** The groupings that have items. */
  function NonEmpty(gs: seq<SpeakerGrouping>): seq<SpeakerGrouping>
  {
    if gs == [] then []
    else NonEmpty(gs[..|gs| - 1]) + (if |Last(gs).items| > 0 then [Last(gs)] else [])
  }

  /** Groupings without items make no difference. */
  lemma {:induction false} SpeakerSkipsEmpty(items: Slot<seq<Item>>, gs: seq<SpeakerGrouping>)
    ensures SpeakerFold(items, gs) == SpeakerFold(items, NonEmpty(gs))
    decreases |gs|
  {
    if gs != [] {
      var prefix := gs[..|gs| - 1];
      SpeakerSkipsEmpty(items, prefix);
      if |Last(gs).items| > 0 {
        var ne := NonEmpty(gs);
        assert ne == NonEmpty(prefix) + [Last(gs)];
        assert ne[..|ne| - 1] == NonEmpty(prefix);
      } else {
        assert NonEmpty(gs) == NonEmpty(prefix);
      }
    }
  }

  /** The words added for one grouping: the current segment keeps its start, end and
      speaker, stays well formed, and gains one word per reference with its times. */
  lemma {:induction false} SpeakerWordsSpec(items: Slot<seq<Item>>, turns: seq<Turn>, refs: seq<SegmentItem>)
    requires turns != [] && WellFormedTurn(Last(turns))
    ensures SpeakerWords(items, turns, refs).Ok? ==>
      var t := Last(SpeakerWords(items, turns, refs).value);
      && WellFormedTurn(t)
      && t.startTime == Last(turns).startTime && t.endTime == Last(turns).endTime
      && t.speaker == Last(turns).speaker
      && Refs(t.words) == Refs(Last(turns).words) + refs
    decreases |refs|
  {
    if refs != [] && SpeakerWords(items, turns, refs).Ok? {
      var front := refs[..|refs| - 1];
      SpeakerWordsSpec(items, turns, front);
      var ts, w := SpeakerWordsLast(items, turns, refs);
      AddRefSpec(Last(turns), ts, w, front, Last(refs));
      FrontLast(refs);
    }
  }

  /** The words of one grouping need `results.items`, and each is what its reference
      resolves to there, spaced unless it opens the segment. */
  lemma {:induction false} SpeakerWordsFrom(items: Slot<seq<Item>>, turns: seq<Turn>, refs: seq<SegmentItem>)
    requires turns != []
    ensures SpeakerWords(items, turns, refs).Ok? ==>
      && (refs != [] ==> items.Present?)
      && (items.Present? && WordsFrom(items.value, Last(turns).words) ==>
            WordsFrom(items.value, Last(SpeakerWords(items, turns, refs).value).words))
    decreases |refs|
  {
    if refs != [] && SpeakerWords(items, turns, refs).Ok? {
      SpeakerWordsFrom(items, turns, refs[..|refs| - 1]);
      var ts, w := SpeakerWordsLast(items, turns, refs);
      if WordsFrom(items.value, Last(turns).words) {
        WordsFromAppend(items.value, Last(ts).words, w);
      }
    }
  }

  /** The last reference of a grouping adds one word with its times, spaced unless
      it opens the segment. */
  lemma SpeakerWordsLast(items: Slot<seq<Item>>, turns: seq<Turn>, refs: seq<SegmentItem>) returns (ts: seq<Turn>, w: Word)
    requires turns != [] && refs != [] && SpeakerWords(items, turns, refs).Ok?
    ensures ts != [] && SpeakerWords(items, turns, refs[..|refs| - 1]) == Ok(ts)
    ensures SpeakerWords(items, turns, refs) == Ok(AppendWord(ts, w))
    ensures w.startTime == Last(refs).startTime && w.endTime == Last(refs).endTime
    ensures Last(ts).words != [] ==> StartsWithSpace(w.text)
    ensures items.Present? && ResolveWord(items.value, w.startTime, w.endTime, Last(ts).words != []) == Ok(w)
  {
    ts := SpeakerWords(items, turns, refs[..|refs| - 1]).value;
    var ref := Last(refs);
    var leading := Last(ts).words != [];
    w := ResolveWord(items.value, ref.startTime, ref.endTime, leading).value;
    ResolveWordText(items.value, ref.startTime, ref.endTime, leading);
  }

  /** One more word for the current segment, which so far holds the words of `t0`
      and those of `front`. */
  lemma AddRefSpec(t0: Turn, ts: seq<Turn>, w: Word, front: seq<SegmentItem>, ref: SegmentItem)
    requires ts != [] && WellFormedTurn(Last(ts))
    requires Last(ts).startTime == t0.startTime && Last(ts).endTime == t0.endTime && Last(ts).speaker == t0.speaker
    requires Refs(Last(ts).words) == Refs(t0.words) + front
    requires Last(ts).words != [] ==> StartsWithSpace(w.text)
    requires w.startTime == ref.startTime && w.endTime == ref.endTime
    ensures var t := Last(AppendWord(ts, w));
      && WellFormedTurn(t)
      && t.startTime == t0.startTime && t.endTime == t0.endTime && t.speaker == t0.speaker
      && Refs(t.words) == Refs(t0.words) + (front + [ref])
  {
    AppendWordSpec(ts, w, ref);
    SnocAssoc(Refs(t0.words), front, ref);
  }

  /** Every segment is well formed and has a word; the last one carries the last
      speaker and end time; segments follow each other only across a speaker change or
      a pause of at least the delay. */
  predicate Valid(b: Build)
  {
    && (forall i :: 0 <= i < |b.turns| ==> WellFormedTurn(b.turns[i]) && b.turns[i].words != [])
    && (b.turns != [] ==> Last(b.turns).endTime == b.lastEnd && Last(b.turns).speaker == b.lastSpeaker)
    && (b.turns == [] ==> b == Initial)
    && Separated(b.turns)
  }

  /** A grouping that opens a segment `t`. */
  lemma OpenSpec(st: Build, g: SpeakerGrouping, t: Turn)
    requires Valid(st) && OpensTurn(st, g)
    requires WellFormedTurn(t) && t.words != [] && Refs(t.words) == g.items
    requires t.startTime == g.startTime && t.endTime == g.endTime && t.speaker == g.speakerLabel
    ensures Valid(Build(st.turns + [t], g.speakerLabel, g.endTime))
    ensures Refs(AllWords(st.turns + [t])) == Refs(AllWords(st.turns)) + g.items
  {
    var ts := st.turns + [t];
    assert ts[..|ts| - 1] == st.turns;
    assert AllWords(ts) == AllWords(st.turns) + t.words;
    RefsAppend(AllWords(st.turns), t.words);
    assert forall i :: 0 <= i < |st.turns| ==> ts[i] == st.turns[i];
    SeparatedAppend(st.turns, t);
  }

  /** A grouping that extends the current segment into `t`. */
  lemma ExtendSpec(st: Build, g: SpeakerGrouping, t: Turn, added: seq<SegmentItem>)
    requires Valid(st) && st.turns != [] && g.speakerLabel == st.lastSpeaker
    requires WellFormedTurn(t) && Refs(t.words) == Refs(Last(st.turns).words) + added
    requires t.startTime == Last(st.turns).startTime && t.endTime == g.endTime && t.speaker == Last(st.turns).speaker
    ensures Valid(Build(ReplaceLast(st.turns, t), g.speakerLabel, g.endTime))
    ensures Refs(AllWords(ReplaceLast(st.turns, t))) == Refs(AllWords(st.turns)) + added
  {
    var ts := ReplaceLast(st.turns, t);
    ExtendRefs(st.turns, t, added);
    assert |t.words| == |Last(st.turns).words| + |added|;
    forall i | 0 <= i < |ts|
      ensures WellFormedTurn(ts[i]) && ts[i].words != []
    {
      if i < |st.turns| - 1 {
        assert ts[i] == st.turns[i];
      }
    }
    SeparatedReplaceLast(st.turns, t);
  }

  /** A grouping with items opens a new segment exactly on a speaker change or a pause
      of at least the delay, and the segment takes the grouping's start and speaker;
      otherwise it extends the current segment. Either way the segment ends where the
      grouping just read ends, the state stays valid and the grouping's words are added. */
  lemma SpeakerNewTurnIff(items: Slot<seq<Item>>, st: Build, g: SpeakerGrouping)
    requires Valid(st) && |g.items| > 0
    requires SpeakerStep(items, st, g).Ok?
    ensures var r := SpeakerStep(items, st, g).value;
      && Valid(r)
      && Refs(AllWords(r.turns)) == Refs(AllWords(st.turns)) + g.items
      && (|r.turns| == |st.turns| + 1 <==> OpensTurn(st, g))
      && (OpensTurn(st, g) ==> Last(r.turns).startTime == g.startTime && Last(r.turns).speaker == g.speakerLabel)
      && (!OpensTurn(st, g) ==> |r.turns| == |st.turns| && Last(r.turns).startTime == Last(st.turns).startTime)
      && Last(r.turns).endTime == g.endTime
  {
    var opens := OpensTurn(st, g);
    var extended := if opens then st.turns + [Turn(g.startTime, 0.0, g.speakerLabel, "", [])] else st.turns;
    var current := SetEnd(extended, g.endTime);
    assert WellFormedTurn(Last(current));
    SpeakerWordsSpec(items, current, g.items);
    var ts := SpeakerWords(items, current, g.items).value;
    assert SpeakerStep(items, st, g) == Ok(Build(ts, g.speakerLabel, g.endTime));
    var t := Last(ts);
    if opens {
      assert current == st.turns + [Last(current)];
      assert ts == st.turns + [t];
      assert Refs(t.words) == [] + g.items;
      OpenSpec(st, g, t);
    } else {
      assert ts == ReplaceLast(st.turns, t);
      ExtendSpec(st, g, t, g.items);
    }
  }

  /** One grouping keeps the state valid and adds exactly its references' words. */
  lemma SpeakerStepSpec(items: Slot<seq<Item>>, st: Build, g: SpeakerGrouping)
    requires Valid(st)
    requires SpeakerStep(items, st, g).Ok?
    ensures Valid(SpeakerStep(items, st, g).value)
    ensures Refs(AllWords(SpeakerStep(items, st, g).value.turns)) == Refs(AllWords(st.turns)) + g.items
  {
    if |g.items| == 0 {
      assert g.items == [];
    } else {
      SpeakerNewTurnIff(items, st, g);
    }
  }

  /** Every segment of speaker mode is well formed (its text is its words' texts, each
      word after the first with a leading space) and has words; the words carry, in
      order, the times of all grouping references; adjacent segments are kept apart. */
  lemma {:induction false} SpeakerFoldSpec(items: Slot<seq<Item>>, gs: seq<SpeakerGrouping>)
    ensures SpeakerFold(items, gs).Ok? ==>
      && Valid(SpeakerFold(items, gs).value)
      && Refs(AllWords(SpeakerFold(items, gs).value.turns)) == AllRefs(gs)
    decreases |gs|
  {
    if gs != [] && SpeakerFold(items, gs).Ok? {
      SpeakerFoldSpec(items, gs[..|gs| - 1]);
      SpeakerStepSpec(items, SpeakerFold(items, gs[..|gs| - 1]).value, Last(gs));
    }
  }

  /** One grouping keeps every segment's words resolved against `results.items`. */
  lemma SpeakerStepWords(items: Slot<seq<Item>>, st: Build, g: SpeakerGrouping)
    requires SpeakerStep(items, st, g).Ok?
    requires st.turns != [] ==> items.Present? && TurnsFrom(items.value, st.turns)
    ensures var r := SpeakerStep(items, st, g).value;
      r.turns != [] ==> items.Present? && TurnsFrom(items.value, r.turns)
  {
    if |g.items| > 0 {
      var newTurn := SpeakerStepCurrent(items, st, g);
      var current := SetEnd(if newTurn.Some? then st.turns + [newTurn.value] else st.turns, g.endTime);
      SpeakerWordsFrom(items, current, g.items);
      TurnsFromSetEnd(items.value, st.turns, newTurn, g.endTime);
      SpeakerWordsTurns(items.value, current, g.items);
    }
  }

  /** A grouping with items either opens a new, empty segment or needs a current one;
      the step then adds its words to the segments with their end set. */
  lemma SpeakerStepCurrent(items: Slot<seq<Item>>, st: Build, g: SpeakerGrouping) returns (newTurn: Option<Turn>)
    requires |g.items| > 0 && SpeakerStep(items, st, g).Ok?
    ensures newTurn.Some? ==> newTurn.value.words == []
    ensures newTurn.None? ==> st.turns != []
    ensures var current := SetEnd(if newTurn.Some? then st.turns + [newTurn.value] else st.turns, g.endTime);
      && SpeakerWords(items, current, g.items).Ok?
      && SpeakerStep(items, st, g) == Ok(Build(SpeakerWords(items, current, g.items).value, g.speakerLabel, g.endTime))
  {
    newTurn := if OpensTurn(st, g) then Some(Turn(g.startTime, 0.0, g.speakerLabel, "", [])) else None;
  }

  /** Adding a grouping's words keeps every segment's words resolved from `pool`. */
  lemma SpeakerWordsTurns(pool: seq<Item>, current: seq<Turn>, refs: seq<SegmentItem>)
    requires current != [] && TurnsFrom(pool, current)
    requires SpeakerWords(Present(pool), current, refs).Ok?
    ensures TurnsFrom(pool, SpeakerWords(Present(pool), current, refs).value)
  {
    SpeakerWordsFrom(Present(pool), current, refs);
    var ts := SpeakerWords(Present(pool), current, refs).value;
    assert WordsFrom(pool, current[|current| - 1].words);
    TurnsFromLast(pool, ts, current, |current| - 1);
  }

  /** Every word of every speaker-mode segment is what its reference resolves to in
      `results.items`, spaced unless it opens its segment. */
  lemma {:induction false} SpeakerFoldWords(items: Slot<seq<Item>>, gs: seq<SpeakerGrouping>)
    ensures SpeakerFold(items, gs).Ok? && SpeakerFold(items, gs).value.turns != [] ==>
      items.Present? && TurnsFrom(items.value, SpeakerFold(items, gs).value.turns)
    decreases |gs|
  {
    if gs != [] && SpeakerFold(items, gs).Ok? {
      SpeakerFoldWords(items, gs[..|gs| - 1]);
      SpeakerStepWords(items, SpeakerFold(items, gs[..|gs| - 1]).value, Last(gs));
    }
  }

  /** Speaker-mode output opening with a named speaker is left alone by the merge. */
  lemma SpeakerTurnsMergeFixed(data: TranscriptJson)
    requires SpeakerTurns(data).Ok?
    requires SpeakerTurns(data).value != [] ==> SpeakerTurns(data).value[0].speaker != ""
    ensures MergeTurns(SpeakerTurns(data).value) == SpeakerTurns(data)
  {
    var results := data.results.value;
    SpeakerFoldSpec(results.items, results.speakerLabels.value.segments.value);
    MergeSeparatedIsIdentity(SpeakerTurns(data).value);
  }

  /** Empty groupings, or none, give no segments. */
  lemma SpeakerNoGroupings(items: Slot<seq<Item>>, gs: seq<SpeakerGrouping>)
    requires forall i :: 0 <= i < |gs| ==> gs[i].items == []
    ensures SpeakerFold(items, gs) == Ok(Initial)
  {
    SpeakerSkipsEmpty(items, gs);
    NonEmptyOfEmpty(gs);
  }

  lemma {:induction false} NonEmptyOfEmpty(gs: seq<SpeakerGrouping>)
    requires forall i :: 0 <= i < |gs| ==> gs[i].items == []
    ensures NonEmpty(gs) == []
    decreases |gs|
  {
    if gs != [] {
      NonEmptyOfEmpty(gs[..|gs| - 1]);
    }
  }
}
