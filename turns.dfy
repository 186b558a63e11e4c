/** Value-level specification of turn building: what the list of speech segments is,
    as a function of the recognition result, for each of the three modes, and the
    sort and merge passes of channel mode. */
module Turns {
  import opened Wrappers
  import opened Transcript

  /** A pause of at least this many seconds by one speaker starts a new turn. */
  const StartNewSegmentDelay: real := 2.0

  /** Within a channel, a pause longer than this many seconds starts a new raw turn. */
  const ChannelPause: real := 0.1

  function Last<T>(s: seq<T>): T
    requires s != []
  {
    s[|s| - 1]
  }

  /** A non-empty sequence is its front, then its last element. */
  lemma FrontLast<T>(s: seq<T>)
    requires s != []
    ensures s == s[..|s| - 1] + [Last(s)]
  {
  }

  lemma SnocAssoc<T>(a: seq<T>, b: seq<T>, x: T)
    ensures (a + b) + [x] == a + (b + [x])
  {
  }

  /** The concatenated texts of a list of words. */
  function Texts(ws: seq<Word>): string
  {
    if ws == [] then "" else Texts(ws[..|ws| - 1]) + Last(ws).text
  }

  /** The confidences of a list of words, in order. */
  function Confidences(ws: seq<Word>): seq<real>
  {
    if ws == [] then [] else Confidences(ws[..|ws| - 1]) + [Last(ws).confidence]
  }

  /** Every word of a list of turns, turn by turn. */
  function AllWords(ts: seq<Turn>): seq<Word>
  {
    if ts == [] then [] else AllWords(ts[..|ts| - 1]) + Last(ts).words
  }

  lemma AllWordsAppend(ts: seq<Turn>, us: seq<Turn>)
    ensures AllWords(ts + us) == AllWords(ts) + AllWords(us)
    decreases |us|
  {
    if us == [] {
      assert ts + us == ts;
    } else {
      assert (ts + us)[..|ts + us| - 1] == ts + us[..|us| - 1];
      AllWordsAppend(ts, us[..|us| - 1]);
    }
  }

  /** The start and end times of every word, in order. */
  function Refs(ws: seq<Word>): (r: seq<SegmentItem>)
    ensures |r| == |ws|
  {
    if ws == [] then [] else Refs(ws[..|ws| - 1]) + [SegmentItem(Last(ws).startTime, Last(ws).endTime)]
  }

  lemma {:induction false} RefsAppend(a: seq<Word>, b: seq<Word>)
    ensures Refs(a + b) == Refs(a) + Refs(b)
    decreases |b|
  {
    if b == [] {
      assert a + b == a;
    } else {
      assert (a + b)[..|a + b| - 1] == a + b[..|b| - 1];
      RefsAppend(a, b[..|b| - 1]);
    }
  }

  /** A turn whose text is its words' texts run together, each word after the first
      carrying its own leading space. */
  predicate WellFormedTurn(t: Turn)
  {
    && t.text == Texts(t.words)
    && forall k :: 0 < k < |t.words| ==> StartsWithSpace(t.words[k].text)
  }

  /** Appending a word to a turn: its text joins the turn's text. */
  function AddWord(t: Turn, w: Word): (r: Turn)
    ensures r.words == t.words + [w] && r.text == t.text + w.text
    ensures r.startTime == t.startTime && r.endTime == t.endTime && r.speaker == t.speaker
  {
    t.(text := t.text + w.text, words := t.words + [w])
  }

  lemma AddWordWellFormed(t: Turn, w: Word)
    requires WellFormedTurn(t)
    requires t.words != [] ==> StartsWithSpace(w.text)
    ensures WellFormedTurn(AddWord(t, w))
  {
    var r := AddWord(t, w);
    assert r.words[..|r.words| - 1] == t.words;
    assert forall k :: 0 < k < |t.words| ==> r.words[k] == t.words[k];
  }

  /** The list with its last turn replaced. */
  function ReplaceLast(ts: seq<Turn>, t: Turn): (r: seq<Turn>)
    requires ts != []
    ensures |r| == |ts| && r[..|r| - 1] == ts[..|ts| - 1] && Last(r) == t
  {
    ts[..|ts| - 1] + [t]
  }

  lemma AllWordsReplaceLast(ts: seq<Turn>, t: Turn)
    requires ts != []
    ensures AllWords(ReplaceLast(ts, t)) == AllWords(ts[..|ts| - 1]) + t.words
  {
    var r := ReplaceLast(ts, t);
    assert r[..|r| - 1] == ts[..|ts| - 1];
  }

  /** Replacing the last segment by one with more words adds those words' references. */
  lemma ExtendRefs(ts: seq<Turn>, t: Turn, added: seq<SegmentItem>)
    requires ts != [] && Refs(t.words) == Refs(Last(ts).words) + added
    ensures Refs(AllWords(ReplaceLast(ts, t))) == Refs(AllWords(ts)) + added
  {
    var a := AllWords(ts[..|ts| - 1]);
    AllWordsReplaceLast(ts, t);
    RefsAppend(a, t.words);
    RefsAppend(a, Last(ts).words);
    calc {
      Refs(AllWords(ReplaceLast(ts, t)));
      Refs(a) + Refs(t.words);
      Refs(a) + (Refs(Last(ts).words) + added);
      (Refs(a) + Refs(Last(ts).words)) + added;
      Refs(a + Last(ts).words) + added;
      { assert AllWords(ts) == a + Last(ts).words; }
      Refs(AllWords(ts)) + added;
    }
  }

  // ---------------------------------------------------------------------------------
  // The state of the turn-building loops

  /** The loop state: the segments so far (the last is `nextSpeechSegment`), the last
      speaker and the last end time. */
  datatype Build = Build(turns: seq<Turn>, lastSpeaker: string, lastEnd: real)

  /** No segment yet, last speaker `""`, last end time 0.0. */
  const Initial: Build := Build([], "", 0.0)

  function AppendWord(turns: seq<Turn>, w: Word): (r: seq<Turn>)
    requires turns != []
    ensures |r| == |turns| && r[..|r| - 1] == turns[..|turns| - 1] && Last(r) == AddWord(Last(turns), w)
  {
    ReplaceLast(turns, AddWord(Last(turns), w))
  }

  function SetEnd(turns: seq<Turn>, endTime: real): (r: seq<Turn>)
    requires turns != []
    ensures |r| == |turns| && r[..|r| - 1] == turns[..|turns| - 1]
    ensures Last(r) == Last(turns).(endTime := endTime)
  {
    ReplaceLast(turns, Last(turns).(endTime := endTime))
  }

  /** Appending one resolved word keeps the current segment well formed. */
  lemma AppendWordSpec(ts: seq<Turn>, w: Word, ref: SegmentItem)
    requires ts != [] && WellFormedTurn(Last(ts))
    requires Last(ts).words != [] ==> StartsWithSpace(w.text)
    requires w.startTime == ref.startTime && w.endTime == ref.endTime
    ensures var t := Last(AppendWord(ts, w));
      && WellFormedTurn(t)
      && t.startTime == Last(ts).startTime && t.endTime == Last(ts).endTime && t.speaker == Last(ts).speaker
      && Refs(t.words) == Refs(Last(ts).words) + [ref]
  {
    AddWordWellFormed(Last(ts), w);
    RefsAppend(Last(ts).words, [w]);
  }

  // ---------------------------------------------------------------------------------
  // Where the words come from

  /** Every word of `ws` is what its own times resolve to in `pool`, with a leading
      space unless it opens the list. */
  predicate WordsFrom(pool: seq<Item>, ws: seq<Word>)
  {
    forall k :: 0 <= k < |ws| ==> ResolveWord(pool, ws[k].startTime, ws[k].endTime, k > 0) == Ok(ws[k])
  }

  lemma WordsFromAppend(pool: seq<Item>, ws: seq<Word>, w: Word)
    requires WordsFrom(pool, ws)
    requires ResolveWord(pool, w.startTime, w.endTime, ws != []) == Ok(w)
    ensures WordsFrom(pool, ws + [w])
  {
    var r := ws + [w];
    forall k | 0 <= k < |r|
      ensures ResolveWord(pool, r[k].startTime, r[k].endTime, k > 0) == Ok(r[k])
    {
      if k < |ws| {
        assert r[k] == ws[k];
      }
    }
  }

  /** Every turn's words come from `pool`. */
  predicate TurnsFrom(pool: seq<Item>, ts: seq<Turn>)
  {
    forall i :: 0 <= i < |ts| ==> WordsFrom(pool, ts[i].words)
  }

  /** Opening a turn without words, or setting the end of the last turn, keeps every
      turn's words from `pool`. */
  lemma TurnsFromSetEnd(pool: seq<Item>, ts: seq<Turn>, newTurn: Option<Turn>, endTime: real)
    requires TurnsFrom(pool, ts)
    requires newTurn.Some? ==> newTurn.value.words == []
    requires newTurn.None? ==> ts != []
    ensures var ext := if newTurn.Some? then ts + [newTurn.value] else ts;
      TurnsFrom(pool, SetEnd(ext, endTime))
  {
    var ext := if newTurn.Some? then ts + [newTurn.value] else ts;
    var r := SetEnd(ext, endTime);
    assert forall i :: 0 <= i < |r| - 1 ==> r[i] == ext[i];
    assert forall i :: 0 <= i < |ts| ==> ext[i] == ts[i];
  }

  /** A list whose turns before `n` are those of `us`, whose words come from `pool`,
      and whose last turn, at `n`, has words from `pool` too. */
  lemma TurnsFromLast(pool: seq<Item>, ts: seq<Turn>, us: seq<Turn>, n: nat)
    requires |ts| == n + 1 && n <= |us| && ts[..n] == us[..n]
    requires TurnsFrom(pool, us) && WordsFrom(pool, Last(ts).words)
    ensures TurnsFrom(pool, ts)
  {
    assert forall i :: 0 <= i < n ==> ts[i] == ts[..n][i] == us[i];
  }

  /** Word `w`, spaced or not, is what its times resolve to in one of `pools`. */
  predicate ResolvedIn(pools: seq<seq<Item>>, w: Word, spaced: bool)
  {
    exists j :: 0 <= j < |pools| && ResolveWord(pools[j], w.startTime, w.endTime, spaced) == Ok(w)
  }

  /** Every word of every turn, spaced unless it opens its turn, resolves in one of
      `pools`. */
  predicate TurnsResolvedIn(pools: seq<seq<Item>>, ts: seq<Turn>)
  {
    forall i, k :: 0 <= i < |ts| && 0 <= k < |ts[i].words| ==> ResolvedIn(pools, ts[i].words[k], k > 0)
  }

  /** Opening a turn without words, then setting its end, keeps the words' origin. */
  lemma ResolvedInOpen(pools: seq<seq<Item>>, ts: seq<Turn>, t: Turn, endTime: real)
    requires TurnsResolvedIn(pools, ts) && t.words == []
    ensures TurnsResolvedIn(pools, SetEnd(ts + [t], endTime))
  {
    var r := SetEnd(ts + [t], endTime);
    assert forall i :: 0 <= i < |ts| ==> r[i] == ts[i];
  }

  lemma ResolvedInSetEnd(pools: seq<seq<Item>>, ts: seq<Turn>, endTime: real)
    requires ts != [] && TurnsResolvedIn(pools, ts)
    ensures TurnsResolvedIn(pools, SetEnd(ts, endTime))
  {
    var r := SetEnd(ts, endTime);
    assert forall i :: 0 <= i < |ts| - 1 ==> r[i] == ts[i];
  }

  /** A word appended to the last turn that resolves in `pools[j]` keeps the words'
      origin. */
  lemma ResolvedInAppend(pools: seq<seq<Item>>, ts: seq<Turn>, w: Word, j: nat)
    requires ts != [] && TurnsResolvedIn(pools, ts)
    requires j < |pools| && ResolveWord(pools[j], w.startTime, w.endTime, Last(ts).words != []) == Ok(w)
    ensures TurnsResolvedIn(pools, AppendWord(ts, w))
  {
    var r := AppendWord(ts, w);
    var n := |ts| - 1;
    assert forall i :: 0 <= i < n ==> r[i] == ts[i];
    forall k | 0 <= k < |r[n].words|
      ensures ResolvedIn(pools, r[n].words[k], k > 0)
    {
      if k < |ts[n].words| {
        assert r[n].words[k] == ts[n].words[k];
      } else {
        assert r[n].words[k] == w;
      }
    }
  }

  // ---------------------------------------------------------------------------------
  // merge_speaker_segments

  /** Two adjacent output turns are kept apart: another speaker, or a pause of at least
      the delay after the earlier one ends. */
  predicate Apart(a: Turn, b: Turn)
  {
    b.speaker != a.speaker || b.startTime - a.endTime >= StartNewSegmentDelay
  }

  predicate Separated(ts: seq<Turn>)
  {
    forall i :: 0 < i < |ts| ==> Apart(ts[i - 1], ts[i])
  }

  /** A word that may have gained a leading space and is otherwise the same. */
  predicate SameWordUpToSpace(a: Word, b: Word)
  {
    a.(text := b.text) == b && (a.text == b.text || a.text == " " + b.text)
  }

  predicate SameWordsUpToSpace(xs: seq<Word>, ys: seq<Word>)
  {
    |xs| == |ys| && forall k :: 0 <= k < |xs| ==> SameWordUpToSpace(xs[k], ys[k])
  }

  function SpaceBefore(w: Word): Word
  {
    w.(text := " " + w.text)
  }

  /** The emitted turn `last` absorbing the turn `t`: `t`'s end, the two texts joined by
      a space, and `t`'s words with a space put before its first word. */
  function Absorb(last: Turn, t: Turn): (r: Turn)
    requires t.words != []
    ensures r.startTime == last.startTime && r.speaker == last.speaker && r.endTime == t.endTime
    ensures r.words == last.words + [SpaceBefore(t.words[0])] + t.words[1..]
  {
    Turn(last.startTime, t.endTime, last.speaker, last.text + " " + t.text, last.words + [SpaceBefore(t.words[0])] + t.words[1..])
  }

  /** One step of the merge: `t` is emitted when its speaker differs from the last
      emitted one, or when it starts at least the delay after the last emitted turn ends;
      otherwise it is absorbed. With nothing emitted yet the last speaker is `""` and
      the last segment `None` (`AttributeError`); absorbing a turn without words raises
      `IndexError`. */
  function MergeStep(out: seq<Turn>, t: Turn): Result<seq<Turn>>
  {
    var lastSpeaker := if out == [] then "" else Last(out).speaker;
    if t.speaker != lastSpeaker then Ok(out + [t])
    else if out == [] then Err(AttributeError)
    else if t.startTime - Last(out).endTime >= StartNewSegmentDelay then Ok(out + [t])
    else if t.words == [] then Err(IndexError)
    else Ok(ReplaceLast(out, Absorb(Last(out), t)))
  }

  /** `merge_speaker_segments` on turn values. */
  function MergeTurns(ts: seq<Turn>): Result<seq<Turn>>
  {
    if ts == [] then Ok([])
    else
      var out :- MergeTurns(ts[..|ts| - 1]);
      MergeStep(out, Last(ts))
  }

  lemma SeparatedAppend(out: seq<Turn>, t: Turn)
    requires Separated(out) && (out != [] ==> Apart(Last(out), t))
    ensures Separated(out + [t])
  {
    var r := out + [t];
    forall i | 0 < i < |r| ensures Apart(r[i - 1], r[i]) {
      if i < |out| {
        assert r[i - 1] == out[i - 1] && r[i] == out[i];
      }
    }
  }

  lemma SeparatedReplaceLast(out: seq<Turn>, a: Turn)
    requires out != [] && Separated(out)
    requires a.speaker == Last(out).speaker && a.startTime == Last(out).startTime
    ensures Separated(ReplaceLast(out, a))
  {
    var r := ReplaceLast(out, a);
    forall i | 0 < i < |r| ensures Apart(r[i - 1], r[i]) {
      assert r[i - 1] == out[i - 1];
      if i < |out| - 1 {
        assert r[i] == out[i];
      } else {
        assert Apart(out[i - 1], out[i]);
      }
    }
  }

  /** Emitting `t` as a new turn. */
  lemma MergeEmitSpec(out: seq<Turn>, seen: seq<Word>, t: Turn)
    requires Separated(out) && SameWordsUpToSpace(AllWords(out), seen)
    requires out != [] ==> Apart(Last(out), t)
    ensures Separated(out + [t])
    ensures SameWordsUpToSpace(AllWords(out + [t]), seen + t.words)
  {
    SeparatedAppend(out, t);
    var r := out + [t];
    assert r[..|r| - 1] == out;
    SameWordsAppend(AllWords(out), seen, t.words, t.words);
  }

  /** Absorbing `t` into the last emitted turn. */
  lemma MergeAbsorbSpec(out: seq<Turn>, seen: seq<Word>, t: Turn)
    requires out != [] && t.words != []
    requires Separated(out) && SameWordsUpToSpace(AllWords(out), seen)
    ensures Separated(ReplaceLast(out, Absorb(Last(out), t)))
    ensures SameWordsUpToSpace(AllWords(ReplaceLast(out, Absorb(Last(out), t))), seen + t.words)
  {
    SeparatedReplaceLast(out, Absorb(Last(out), t));
    AbsorbedWords(t);
    AbsorbAllWords(out, t);
    SameWordsAppend(AllWords(out), seen, [SpaceBefore(t.words[0])] + t.words[1..], t.words);
  }

  /** The words an absorbed turn contributes are its own, the first with a space. */
  lemma AbsorbedWords(t: Turn)
    requires t.words != []
    ensures SameWordsUpToSpace([SpaceBefore(t.words[0])] + t.words[1..], t.words)
  {
    assert t.words == [t.words[0]] + t.words[1..];
  }

  /** Absorbing `t` into the last turn appends its absorbed words to all words. */
  lemma AbsorbAllWords(out: seq<Turn>, t: Turn)
    requires out != [] && t.words != []
    ensures AllWords(ReplaceLast(out, Absorb(Last(out), t))) == AllWords(out) + ([SpaceBefore(t.words[0])] + t.words[1..])
  {
    AllWordsReplaceLast(out, Absorb(Last(out), t));
    AllWordsReplaceLast(out, Last(out));
    assert ReplaceLast(out, Last(out)) == out;
  }

  /** One merge step keeps the emitted turns apart and their words those of the input. */
  lemma MergeStepSpec(out: seq<Turn>, seen: seq<Word>, t: Turn)
    requires Separated(out) && SameWordsUpToSpace(AllWords(out), seen)
    requires MergeStep(out, t).Ok?
    ensures var r := MergeStep(out, t).value;
      && Separated(r)
      && SameWordsUpToSpace(AllWords(r), seen + t.words)
      && |out| <= |r| <= |out| + 1
      && (out == [] ==> r == [t] && t.speaker != "")
      && (out != [] ==> r[0].startTime == out[0].startTime && r[0].speaker == out[0].speaker)
  {
    if out == [] || Apart(Last(out), t) {
      MergeEmitSpec(out, seen, t);
    } else {
      MergeAbsorbSpec(out, seen, t);
    }
  }

  /** The invariant of the merge: never longer than its input, non-empty when the input
      is, its first turn the input's first, its turns kept apart, and the same words in
      the same order, each at most gaining a space. */
  lemma {:induction false} MergeTurnsSpec(ts: seq<Turn>)
    ensures MergeTurns(ts).Ok? ==>
      var out := MergeTurns(ts).value;
      && |out| <= |ts|
      && (ts != [] ==> out != [] && out[0].startTime == ts[0].startTime
                       && out[0].speaker == ts[0].speaker && ts[0].speaker != "")
      && Separated(out)
      && SameWordsUpToSpace(AllWords(out), AllWords(ts))
    decreases |ts|
  {
    if ts != [] && MergeTurns(ts).Ok? {
      var prefix := ts[..|ts| - 1];
      MergeTurnsSpec(prefix);
      var out := MergeTurns(prefix).value;
      assert AllWords(ts) == AllWords(prefix) + Last(ts).words;
      if prefix != [] {
        assert prefix[0] == ts[0];
      } else {
        assert AllWords(prefix) == [];
      }
      MergeStepSpec(out, AllWords(prefix), Last(ts));
    }
  }

  lemma SameWordsAppend(a: seq<Word>, b: seq<Word>, c: seq<Word>, d: seq<Word>)
    requires SameWordsUpToSpace(a, b) && SameWordsUpToSpace(c, d)
    ensures SameWordsUpToSpace(a + c, b + d)
  {
    forall k | 0 <= k < |a + c| ensures SameWordUpToSpace((a + c)[k], (b + d)[k]) {
      if k < |a| {
        assert (a + c)[k] == a[k] && (b + d)[k] == b[k];
      } else {
        assert (a + c)[k] == c[k - |a|] && (b + d)[k] == d[k - |a|];
      }
    }
  }

  /** A list already kept apart, opening with a named speaker, is merged into itself:
      merging twice is merging once. */
  lemma {:induction false} MergeSeparatedIsIdentity(ts: seq<Turn>)
    requires Separated(ts) && (ts != [] ==> ts[0].speaker != "")
    ensures MergeTurns(ts) == Ok(ts)
    decreases |ts|
  {
    if ts != [] {
      var prefix := ts[..|ts| - 1];
      assert Separated(prefix) by {
        forall i | 0 < i < |prefix| ensures Apart(prefix[i - 1], prefix[i]) {
          assert prefix[i - 1] == ts[i - 1] && prefix[i] == ts[i];
        }
      }
      if prefix != [] {
        assert prefix[0] == ts[0];
      }
      MergeSeparatedIsIdentity(prefix);
      if prefix != [] {
        assert Apart(ts[|ts| - 2], ts[|ts| - 1]);
      }
      assert prefix + [Last(ts)] == ts;
    }
  }

  lemma MergeIdempotent(ts: seq<Turn>)
    requires MergeTurns(ts).Ok?
    ensures MergeTurns(MergeTurns(ts).value) == MergeTurns(ts)
  {
    MergeTurnsSpec(ts);
    MergeSeparatedIsIdentity(MergeTurns(ts).value);
  }

  /** Every turn of the list is well formed. */
  predicate AllWellFormed(ts: seq<Turn>)
  {
    forall i :: 0 <= i < |ts| ==> WellFormedTurn(ts[i])
  }

  lemma {:induction false} TextsAppend(a: seq<Word>, b: seq<Word>)
    ensures Texts(a + b) == Texts(a) + Texts(b)
    decreases |b|
  {
    if b == [] {
      assert a + b == a;
    } else {
      assert (a + b)[..|a + b| - 1] == a + b[..|b| - 1];
      TextsAppend(a, b[..|b| - 1]);
    }
  }

  /** A word list's text is its first word's text, then the rest's. */
  lemma TextsFirst(ws: seq<Word>)
    requires ws != []
    ensures Texts(ws) == ws[0].text + Texts(ws[1..])
  {
    assert ws == [ws[0]] + ws[1..];
    TextsAppend([ws[0]], ws[1..]);
    assert Texts([ws[0]]) == Texts([]) + ws[0].text;
  }

  /** Absorbing keeps the text that of the words: the texts joined by a space are the
      absorbed words' texts, the first of them with its new space. */
  lemma AbsorbWellFormed(last: Turn, t: Turn)
    requires WellFormedTurn(last) && WellFormedTurn(t) && t.words != []
    ensures WellFormedTurn(Absorb(last, t))
  {
    var w := SpaceBefore(t.words[0]);
    var ws := last.words + [w] + t.words[1..];
    TextsFirst(t.words);
    TextsAppend(last.words + [w], t.words[1..]);
    TextsAppend(last.words, [w]);
    assert Texts([w]) == Texts([]) + w.text;
    assert Texts(ws) == last.text + " " + t.text;
    forall k | 0 < k < |ws| ensures StartsWithSpace(ws[k].text) {
      if k < |last.words| {
        assert ws[k] == last.words[k];
      } else if k > |last.words| {
        assert ws[k] == t.words[k - |last.words|];
      }
    }
  }

  /** One merge step keeps every emitted turn well formed. */
  lemma MergeStepWellFormed(out: seq<Turn>, t: Turn)
    requires AllWellFormed(out) && WellFormedTurn(t) && MergeStep(out, t).Ok?
    ensures AllWellFormed(MergeStep(out, t).value)
  {
    if out == [] || Apart(Last(out), t) {
      assert MergeStep(out, t).value == out + [t];
    } else {
      AbsorbWellFormed(Last(out), t);
    }
  }

  /** The merge keeps every turn's text that of its words: the texts joined at line
      522 are the absorbed words' texts. */
  lemma {:induction false} MergeKeepsWellFormed(ts: seq<Turn>)
    requires AllWellFormed(ts)
    ensures MergeTurns(ts).Ok? ==> AllWellFormed(MergeTurns(ts).value)
    decreases |ts|
  {
    if ts != [] && MergeTurns(ts).Ok? {
      var prefix := ts[..|ts| - 1];
      assert AllWellFormed(prefix) by {
        forall i | 0 <= i < |prefix| ensures WellFormedTurn(prefix[i]) {
          assert prefix[i] == ts[i];
        }
      }
      MergeKeepsWellFormed(prefix);
      MergeStepWellFormed(MergeTurns(prefix).value, Last(ts));
    }
  }

  /** Sorting keeps every turn well formed: it only reorders them. */
  lemma SortKeepsWellFormed(ts: seq<Turn>)
    requires AllWellFormed(ts)
    ensures AllWellFormed(SortTurns(ts))
  {
    var r := SortTurns(ts);
    forall i | 0 <= i < |r| ensures WellFormedTurn(r[i]) {
      assert r[i] in multiset(r);
      assert r[i] in multiset(ts);
      var j :| 0 <= j < |ts| && ts[j] == r[i];
    }
  }

  predicate SortedByStart(ts: seq<Turn>)
  {
    forall i, j :: 0 <= i < j < |ts| ==> ts[i].startTime <= ts[j].startTime
  }

  /** A sorted list without its last turn is sorted, and no turn starts after the last. */
  lemma SortedFront(ts: seq<Turn>)
    requires ts != [] && SortedByStart(ts)
    ensures SortedByStart(ts[..|ts| - 1])
    ensures forall i :: 0 <= i < |ts| ==> ts[i].startTime <= Last(ts).startTime
  {
    var front := ts[..|ts| - 1];
    forall i, j | 0 <= i < j < |front| ensures front[i].startTime <= front[j].startTime {
      assert front[i] == ts[i] && front[j] == ts[j];
    }
  }

  /** A sorted list followed by a turn starting no earlier than any of it is sorted. */
  lemma SortedSnoc(ts: seq<Turn>, t: Turn)
    requires SortedByStart(ts)
    requires forall i :: 0 <= i < |ts| ==> ts[i].startTime <= t.startTime
    ensures SortedByStart(ts + [t])
  {
    var r := ts + [t];
    forall i, j | 0 <= i < j < |r| ensures r[i].startTime <= r[j].startTime {
      assert r[i] == ts[i];
      if j < |ts| {
        assert r[j] == ts[j];
      }
    }
  }

  /** Merging a list sorted by start time gives a list sorted by start time. */
  lemma {:induction false} MergeKeepsSorted(ts: seq<Turn>)
    requires SortedByStart(ts)
    ensures MergeTurns(ts).Ok? ==> SortedByStart(MergeTurns(ts).value)
    ensures MergeTurns(ts).Ok? && ts != [] ==>
      MergeTurns(ts).value != [] && Last(MergeTurns(ts).value).startTime <= Last(ts).startTime
    decreases |ts|
  {
    if ts != [] && MergeTurns(ts).Ok? {
      var prefix := ts[..|ts| - 1];
      assert SortedByStart(prefix);
      MergeKeepsSorted(prefix);
      MergeTurnsSpec(prefix);
      var out := MergeTurns(prefix).value;
      var r := MergeTurns(ts).value;
      if prefix != [] {
        assert Last(prefix).startTime <= Last(ts).startTime;
      }
      if |r| == |out| + 1 && r == out + [Last(ts)] {
        assert forall i :: 0 <= i < |out| ==> r[i] == out[i];
      } else {
        assert r == ReplaceLast(out, Absorb(Last(out), Last(ts)));
        assert forall i :: 0 <= i < |out| - 1 ==> r[i] == out[i];
      }
    }
  }

  // ---------------------------------------------------------------------------------
  // sorted(speechSegmentList, key=segmentStartTime)

  /** Placing `t` after every turn that does not start later than it, as a stable sort
      does. */
  function Insert(ts: seq<Turn>, t: Turn): (r: seq<Turn>)
    ensures |r| == |ts| + 1
    ensures multiset(r) == multiset(ts) + multiset{t}
  {
    if ts == [] then [t]
    else if Last(ts).startTime <= t.startTime then ts + [t]
    else
      var front := ts[..|ts| - 1];
      assert ts == front + [Last(ts)];
      Insert(front, t) + [Last(ts)]
  }

  /** Python's stable `sorted` on the start time, as an insertion sort. */
  function SortTurns(ts: seq<Turn>): (r: seq<Turn>)
    ensures |r| == |ts|
    ensures multiset(r) == multiset(ts)
  {
    if ts == [] then []
    else
      var front := ts[..|ts| - 1];
      assert ts == front + [Last(ts)];
      Insert(SortTurns(front), Last(ts))
  }

  lemma {:induction false} InsertSorted(ts: seq<Turn>, t: Turn)
    requires SortedByStart(ts)
    ensures SortedByStart(Insert(ts, t))
    decreases |ts|
  {
    if ts == [] {
      assert Insert(ts, t) == [t];
    } else if Last(ts).startTime <= t.startTime {
      SortedFront(ts);
      SortedSnoc(ts, t);
    } else {
      var front := ts[..|ts| - 1];
      SortedFront(ts);
      InsertSorted(front, t);
      var ins := Insert(front, t);
      InsertBelow(front, t, Last(ts));
      SortedSnoc(ins, Last(ts));
    }
  }

  /** A turn starting no earlier than every turn of the list goes at its end. */
  lemma InsertAtEnd(ts: seq<Turn>, t: Turn)
    requires forall i :: 0 <= i < |ts| ==> ts[i].startTime <= t.startTime
    ensures Insert(ts, t) == ts + [t]
  {
    if ts != [] {
      assert Last(ts).startTime <= t.startTime;
    }
  }

  /** Inserting into a list of turns that start no later than `u`, a turn that starts
      before `u`, keeps every turn starting no later than `u`. */
  lemma InsertBelow(front: seq<Turn>, t: Turn, u: Turn)
    requires forall i :: 0 <= i < |front| ==> front[i].startTime <= u.startTime
    requires t.startTime < u.startTime
    ensures forall i :: 0 <= i < |Insert(front, t)| ==> Insert(front, t)[i].startTime <= u.startTime
  {
    var ins := Insert(front, t);
    forall i | 0 <= i < |ins| ensures ins[i].startTime <= u.startTime {
      assert ins[i] in multiset(ins);
      if ins[i] != t {
        assert ins[i] in multiset(front);
        assert ins[i] in front;
      }
    }
  }

  /** The turns of a list that start at `x`, in their order. */
  function StartingAt(x: real, ts: seq<Turn>): seq<Turn>
  {
    if ts == [] then [] else StartingAt(x, ts[..|ts| - 1]) + OwnStart(x, Last(ts))
  }

  function OwnStart(x: real, t: Turn): seq<Turn>
  {
    if t.startTime == x then [t] else []
  }

  lemma StartingAtSnoc(x: real, ts: seq<Turn>, u: Turn)
    ensures StartingAt(x, ts + [u]) == StartingAt(x, ts) + OwnStart(x, u)
  {
    assert (ts + [u])[..|ts|] == ts;
  }

  /** Inserting `t` puts it after every turn with its start time and keeps the order of
      the others. */
  lemma {:induction false} InsertStable(ts: seq<Turn>, t: Turn, x: real)
    ensures StartingAt(x, Insert(ts, t)) == StartingAt(x, ts) + OwnStart(x, t)
    decreases |ts|
  {
    if ts == [] {
      StartingAtSnoc(x, ts, t);
    } else if Last(ts).startTime <= t.startTime {
      StartingAtSnoc(x, ts, t);
    } else {
      var front := ts[..|ts| - 1];
      var ins := Insert(front, t);
      assert Insert(ts, t) == ins + [Last(ts)];
      InsertStable(front, t, x);
      StartingAtSnoc(x, ins, Last(ts));
      assert StartingAt(x, ts) == StartingAt(x, front) + OwnStart(x, Last(ts));
      assert OwnStart(x, t) == [] || OwnStart(x, Last(ts)) == [];
      SwapEmpty(StartingAt(x, front), OwnStart(x, t), OwnStart(x, Last(ts)));
    }
  }

  lemma SwapEmpty(a: seq<Turn>, b: seq<Turn>, c: seq<Turn>)
    requires b == [] || c == []
    ensures (a + b) + c == (a + c) + b
  {
    if b == [] {
      assert a + b == a;
    } else {
      assert a + c == a;
    }
  }

  /** The sort is stable: the turns sharing a start time keep their input order. */
  lemma {:induction false} SortTurnsStable(ts: seq<Turn>, x: real)
    ensures StartingAt(x, SortTurns(ts)) == StartingAt(x, ts)
    decreases |ts|
  {
    if ts != [] {
      SortTurnsStable(ts[..|ts| - 1], x);
      InsertStable(SortTurns(ts[..|ts| - 1]), Last(ts), x);
    }
  }

  /** The sort yields a list sorted by start time with the same turns. */
  lemma {:induction false} SortTurnsSorted(ts: seq<Turn>)
    ensures SortedByStart(SortTurns(ts))
    ensures multiset(SortTurns(ts)) == multiset(ts)
    decreases |ts|
  {
    if ts != [] {
      SortTurnsSorted(ts[..|ts| - 1]);
      InsertSorted(SortTurns(ts[..|ts| - 1]), Last(ts));
    }
  }

  /** A list already sorted by start time is left as it is. */
  lemma {:induction false} SortSortedIsIdentity(ts: seq<Turn>)
    requires SortedByStart(ts)
    ensures SortTurns(ts) == ts
    decreases |ts|
  {
    if ts != [] {
      var front := ts[..|ts| - 1];
      SortedFront(ts);
      SortSortedIsIdentity(front);
      InsertAtEnd(front, Last(ts));
      assert front + [Last(ts)] == ts;
    }
  }

  /** The number of words across a list of turns. */
  function WordCount(ts: seq<Turn>): nat
  {
    |AllWords(ts)|
  }

  lemma {:induction false} InsertWordCount(ts: seq<Turn>, t: Turn)
    ensures WordCount(Insert(ts, t)) == WordCount(ts) + |t.words|
    decreases |ts|
  {
    if ts == [] {
      assert AllWords([t]) == AllWords([]) + t.words;
    } else if Last(ts).startTime <= t.startTime {
      AllWordsAppend(ts, [t]);
      assert AllWords([t]) == AllWords([]) + t.words;
    } else {
      var front := ts[..|ts| - 1];
      InsertWordCount(front, t);
      AllWordsAppend(Insert(front, t), [Last(ts)]);
      assert AllWords([Last(ts)]) == AllWords([]) + Last(ts).words;
    }
  }

  /** Sorting keeps every word: the word count is unchanged. */
  lemma {:induction false} SortTurnsWordCount(ts: seq<Turn>)
    ensures WordCount(SortTurns(ts)) == WordCount(ts)
    decreases |ts|
  {
    if ts != [] {
      SortTurnsWordCount(ts[..|ts| - 1]);
      InsertWordCount(SortTurns(ts[..|ts| - 1]), Last(ts));
    }
  }
}
