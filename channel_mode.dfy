/** Channel mode of `create_turn_by_turn_segments`: the pronunciations of each channel
    of `channel_labels.channels` cut into raw turns, then sorted by start time and
    merged. */
module ChannelMode {
  import opened Wrappers
  import opened Transcript
  import opened Turns

  /** A pronunciation opens a new raw turn on a change of channel label, or after a
      pause longer than the in-channel pause. */
  predicate OpensChannelTurn(st: Build, chLabel: string, it: Item)
    requires it.Pronunciation?
  {
    chLabel != st.lastSpeaker || it.startTime - st.lastEnd > ChannelPause
  }

  /** One item of a channel: punctuation is skipped; a pronunciation opens a turn or
      extends the current one (`AttributeError` when there is none), sets its end and
      adds its word, resolved against the channel's own items. */
  function ChannelItemStep(pool: seq<Item>, chLabel: string, st: Build, it: Item): Result<Build>
  {
    if !it.Pronunciation? then Ok(st)
    else if !OpensChannelTurn(st, chLabel, it) && st.turns == [] then Err(AttributeError)
    else
      var extended := if OpensChannelTurn(st, chLabel, it) then st.turns + [Turn(it.startTime, 0.0, chLabel, "", [])] else st.turns;
      var current := SetEnd(extended, it.endTime);
      var w :- ResolveWord(pool, it.startTime, it.endTime, Last(current).words != []);
      Ok(Build(AppendWord(current, w), chLabel, it.endTime))
  }

  /** The items `its` of a channel whose items are `pool`, in order. */
  function ChannelItems(pool: seq<Item>, chLabel: string, st: Build, its: seq<Item>): Result<Build>
  {
    if its == [] then Ok(st)
    else
      var b :- ChannelItems(pool, chLabel, st, its[..|its| - 1]);
      ChannelItemStep(pool, chLabel, b, Last(its))
  }

  /** All channels in order; the last speaker and end time carry over from one channel
      to the next. */
  function ChannelFold(chs: seq<Channel>): Result<Build>
  {
    if chs == [] then Ok(Initial)
    else
      var st :- ChannelFold(chs[..|chs| - 1]);
      ChannelItems(Last(chs).items, Last(chs).channelLabel, st, Last(chs).items)
  }

  /** The raw turns of `results.channel_labels.channels`, before sorting and merging. */
  function RawChannelTurns(data: TranscriptJson): Result<seq<Turn>>
  {
    var results :- Get(data.results, "results");
    var labels :- Get(results.channelLabels, "channel_labels");
    var chs :- Get(labels.channels, "channels");
    var b :- ChannelFold(chs);
    Ok(b.turns)
  }

  /** Channel mode: the raw turns sorted by start time, then merged. */
  function ChannelTurns(data: TranscriptJson): Result<seq<Turn>>
  {
    var raw :- RawChannelTurns(data);
    MergeTurns(SortTurns(raw))
  }

  /** The times of the pronunciation items of a list of items. */
  function PronunciationRefs(its: seq<Item>): seq<SegmentItem>
  {
    if its == [] then []
    else
      PronunciationRefs(its[..|its| - 1]) + OwnRefs(Last(its))
  }

  /** The times of the pronunciation items of all channels, channel by channel. */
  function ChannelRefs(chs: seq<Channel>): seq<SegmentItem>
  {
    if chs == [] then [] else ChannelRefs(chs[..|chs| - 1]) + PronunciationRefs(Last(chs).items)
  }

  /** Every raw turn is well formed and has a word; the last carries the last speaker
      and end time. */
  predicate ValidRaw(b: Build)
  {
    && (forall i :: 0 <= i < |b.turns| ==> WellFormedTurn(b.turns[i]) && b.turns[i].words != [])
    && (b.turns != [] ==> Last(b.turns).endTime == b.lastEnd && Last(b.turns).speaker == b.lastSpeaker)
    && (b.turns == [] ==> b == Initial)
  }

  /** A pronunciation that opens the raw turn `t`. */
  lemma ChannelOpenSpec(st: Build, chLabel: string, it: Item, t: Turn)
    requires ValidRaw(st) && it.Pronunciation?
    requires WellFormedTurn(t) && t.words != [] && Refs(t.words) == [SegmentItem(it.startTime, it.endTime)]
    requires t.endTime == it.endTime && t.speaker == chLabel
    ensures ValidRaw(Build(st.turns + [t], chLabel, it.endTime))
    ensures Refs(AllWords(st.turns + [t])) == Refs(AllWords(st.turns)) + [SegmentItem(it.startTime, it.endTime)]
  {
    var ts := st.turns + [t];
    assert ts[..|ts| - 1] == st.turns;
    assert AllWords(ts) == AllWords(st.turns) + t.words;
    RefsAppend(AllWords(st.turns), t.words);
    assert forall i :: 0 <= i < |st.turns| ==> ts[i] == st.turns[i];
  }

  /** A pronunciation that extends the current raw turn into `t`. */
  lemma ChannelExtendSpec(st: Build, chLabel: string, it: Item, t: Turn)
    requires ValidRaw(st) && st.turns != [] && it.Pronunciation? && chLabel == st.lastSpeaker
    requires WellFormedTurn(t) && Refs(t.words) == Refs(Last(st.turns).words) + [SegmentItem(it.startTime, it.endTime)]
    requires t.endTime == it.endTime && t.speaker == chLabel
    ensures ValidRaw(Build(ReplaceLast(st.turns, t), chLabel, it.endTime))
    ensures Refs(AllWords(ReplaceLast(st.turns, t))) == Refs(AllWords(st.turns)) + [SegmentItem(it.startTime, it.endTime)]
  {
    var ts := ReplaceLast(st.turns, t);
    ExtendRefs(st.turns, t, [SegmentItem(it.startTime, it.endTime)]);
    assert |t.words| == |Last(st.turns).words| + 1;
    assert forall i :: 0 <= i < |st.turns| - 1 ==> ts[i] == st.turns[i];
  }

  /** A pronunciation opens a new raw turn exactly on a chLabel change or a pause longer
      than the in-channel pause; either way it adds one word with its times. */
  lemma ChannelNewTurnIff(pool: seq<Item>, chLabel: string, st: Build, it: Item)
    requires ValidRaw(st) && it.Pronunciation?
    requires ChannelItemStep(pool, chLabel, st, it).Ok?
    ensures var r := ChannelItemStep(pool, chLabel, st, it).value;
      && ValidRaw(r)
      && Refs(AllWords(r.turns)) == Refs(AllWords(st.turns)) + [SegmentItem(it.startTime, it.endTime)]
      && (|r.turns| == |st.turns| + 1 <==> OpensChannelTurn(st, chLabel, it))
      && (OpensChannelTurn(st, chLabel, it) ==> Last(r.turns).startTime == it.startTime && Last(r.turns).speaker == chLabel)
      && Last(r.turns).endTime == it.endTime
  {
    var opens := OpensChannelTurn(st, chLabel, it);
    var extended := if opens then st.turns + [Turn(it.startTime, 0.0, chLabel, "", [])] else st.turns;
    var current := SetEnd(extended, it.endTime);
    var leading := Last(current).words != [];
    var w := ResolveWord(pool, it.startTime, it.endTime, leading).value;
    ResolveWordText(pool, it.startTime, it.endTime, leading);
    var ref := SegmentItem(it.startTime, it.endTime);
    AppendWordSpec(current, w, ref);
    var ts := AppendWord(current, w);
    assert ChannelItemStep(pool, chLabel, st, it) == Ok(Build(ts, chLabel, it.endTime));
    var t := Last(ts);
    if opens {
      assert current == st.turns + [Last(current)];
      assert ts == st.turns + [t];
      assert Refs(t.words) == [] + [ref];
      ChannelOpenSpec(st, chLabel, it, t);
    } else {
      assert ts == ReplaceLast(st.turns, t);
      ChannelExtendSpec(st, chLabel, it, t);
    }
  }

  /** The times a single item contributes: its own when it is a pronunciation. */
  function OwnRefs(it: Item): seq<SegmentItem>
  {
    if it.Pronunciation? then [SegmentItem(it.startTime, it.endTime)] else []
  }

  /** One item keeps the state valid; only a pronunciation adds a word. */
  lemma ChannelItemStepSpec(pool: seq<Item>, chLabel: string, st: Build, it: Item)
    requires ValidRaw(st)
    requires ChannelItemStep(pool, chLabel, st, it).Ok?
    ensures ValidRaw(ChannelItemStep(pool, chLabel, st, it).value)
    ensures Refs(AllWords(ChannelItemStep(pool, chLabel, st, it).value.turns))
         == Refs(AllWords(st.turns)) + OwnRefs(it)
  {
    if it.Pronunciation? {
      ChannelNewTurnIff(pool, chLabel, st, it);
    }
  }

  /** A channel's items keep the state valid and add, in order, one word per
      pronunciation among them. */
  lemma {:induction false} ChannelItemsSpec(pool: seq<Item>, chLabel: string, st: Build, its: seq<Item>)
    requires ValidRaw(st)
    ensures ChannelItems(pool, chLabel, st, its).Ok? ==>
      && ValidRaw(ChannelItems(pool, chLabel, st, its).value)
      && Refs(AllWords(ChannelItems(pool, chLabel, st, its).value.turns)) == Refs(AllWords(st.turns)) + PronunciationRefs(its)
    decreases |its|
  {
    if its != [] && ChannelItems(pool, chLabel, st, its).Ok? {
      var front := its[..|its| - 1];
      var it := Last(its);
      ChannelItemsSpec(pool, chLabel, st, front);
      var b := ChannelItems(pool, chLabel, st, front).value;
      assert ChannelItems(pool, chLabel, st, its) == ChannelItemStep(pool, chLabel, b, it);
      ChannelItemStepSpec(pool, chLabel, b, it);
      assert PronunciationRefs(its) == PronunciationRefs(front) + OwnRefs(it);
    }
  }

  /** The raw turns are well formed, each has words, and their words carry, in order,
      the times of every pronunciation of every channel and of nothing else. */
  lemma {:induction false} ChannelFoldSpec(chs: seq<Channel>)
    ensures ChannelFold(chs).Ok? ==>
      && ValidRaw(ChannelFold(chs).value)
      && Refs(AllWords(ChannelFold(chs).value.turns)) == ChannelRefs(chs)
    decreases |chs|
  {
    if chs != [] && ChannelFold(chs).Ok? {
      ChannelFoldSpec(chs[..|chs| - 1]);
      var st := ChannelFold(chs[..|chs| - 1]).value;
      ChannelItemsSpec(Last(chs).items, Last(chs).channelLabel, st, Last(chs).items);
    }
  }

  /** One item of the channel whose items are `pools[j]`: every word, spaced unless it
      opens its turn, still resolves in one of `pools`; the new word resolves in
      `pools[j]`. */
  lemma ChannelItemStepWords(pools: seq<seq<Item>>, j: nat, chLabel: string, st: Build, it: Item)
    requires j < |pools| && TurnsResolvedIn(pools, st.turns)
    requires ChannelItemStep(pools[j], chLabel, st, it).Ok?
    ensures TurnsResolvedIn(pools, ChannelItemStep(pools[j], chLabel, st, it).value.turns)
  {
    if it.Pronunciation? {
      var opens := OpensChannelTurn(st, chLabel, it);
      var current;
      if opens {
        ResolvedInOpen(pools, st.turns, Turn(it.startTime, 0.0, chLabel, "", []), it.endTime);
        current := SetEnd(st.turns + [Turn(it.startTime, 0.0, chLabel, "", [])], it.endTime);
      } else {
        ResolvedInSetEnd(pools, st.turns, it.endTime);
        current := SetEnd(st.turns, it.endTime);
      }
      var w := ResolveWord(pools[j], it.startTime, it.endTime, Last(current).words != []).value;
      ResolveWordText(pools[j], it.startTime, it.endTime, Last(current).words != []);
      ResolvedInAppend(pools, current, w, j);
    }
  }

  lemma {:induction false} ChannelItemsWords(pools: seq<seq<Item>>, j: nat, chLabel: string, st: Build, its: seq<Item>)
    requires j < |pools| && TurnsResolvedIn(pools, st.turns)
    ensures ChannelItems(pools[j], chLabel, st, its).Ok? ==>
      TurnsResolvedIn(pools, ChannelItems(pools[j], chLabel, st, its).value.turns)
    decreases |its|
  {
    if its != [] && ChannelItems(pools[j], chLabel, st, its).Ok? {
      ChannelItemsWords(pools, j, chLabel, st, its[..|its| - 1]);
      var b := ChannelItems(pools[j], chLabel, st, its[..|its| - 1]).value;
      ChannelItemStepWords(pools, j, chLabel, b, Last(its));
    }
  }

  /** Folding the first channels, whose items are the first entries of `pools`. */
  lemma {:induction false} ChannelFoldWords(chs: seq<Channel>, pools: seq<seq<Item>>)
    requires |chs| <= |pools| && forall j :: 0 <= j < |chs| ==> pools[j] == chs[j].items
    ensures ChannelFold(chs).Ok? ==> TurnsResolvedIn(pools, ChannelFold(chs).value.turns)
    decreases |chs|
  {
    if chs != [] && ChannelFold(chs).Ok? {
      ChannelFoldWords(chs[..|chs| - 1], pools);
      var st := ChannelFold(chs[..|chs| - 1]).value;
      ChannelItemsWords(pools, |chs| - 1, Last(chs).channelLabel, st, Last(chs).items);
    }
  }

  /** The item lists of the channels, in order. */
  function ChannelPools(chs: seq<Channel>): seq<seq<Item>>
  {
    seq(|chs|, j requires 0 <= j < |chs| => chs[j].items)
  }

  /** Every word of every raw turn, spaced unless it opens its turn, is what its times
      resolve to among the items of one of the channels. A raw turn can hold words of
      several channels when they share a label. */
  lemma RawChannelWords(data: TranscriptJson)
    requires RawChannelTurns(data).Ok?
    ensures TurnsResolvedIn(ChannelPools(data.results.value.channelLabels.value.channels.value), RawChannelTurns(data).value)
  {
    var chs := data.results.value.channelLabels.value.channels.value;
    ChannelFoldWords(chs, ChannelPools(chs));
  }

  /** Channel mode returns turns sorted by start time, kept apart (another speaker or a
      pause of at least the delay), each with its text that of its words, and holding
      the words of the sorted raw turns in order, each at most gaining a leading space:
      one word per pronunciation of the input. */
  lemma ChannelTurnsSpec(data: TranscriptJson)
    requires ChannelTurns(data).Ok?
    ensures SortedByStart(ChannelTurns(data).value)
    ensures Separated(ChannelTurns(data).value)
    ensures AllWellFormed(ChannelTurns(data).value)
    ensures SameWordsUpToSpace(AllWords(ChannelTurns(data).value), AllWords(SortTurns(RawChannelTurns(data).value)))
    ensures WordCount(ChannelTurns(data).value)
         == |ChannelRefs(data.results.value.channelLabels.value.channels.value)|
  {
    var raw := RawChannelTurns(data).value;
    ChannelFoldSpec(data.results.value.channelLabels.value.channels.value);
    var sorted := SortTurns(raw);
    SortTurnsSorted(raw);
    SortTurnsWordCount(raw);
    MergeKeepsSorted(sorted);
    MergeTurnsSpec(sorted);
    SortKeepsWellFormed(raw);
    MergeKeepsWellFormed(sorted);
  }
}
