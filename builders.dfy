/** `create_turn_by_turn_segments` on `SpeechSegment` objects: the three loops that
    create segments, update the last one in place and append to its word list, each
    proved to build the segments whose values the fold of its mode computes. */
module Builders {
  import opened Wrappers
  import opened Transcript
  import opened Turns
  import opened Segments
  import SpeakerMode
  import ChannelMode
  import AudioMode
  import Dispatch

  /** The values of a list of segments, one segment more. */
  lemma ViewsSnoc(ss: seq<SpeechSegment>, s: SpeechSegment)
    ensures Views(ss + [s]) == Views(ss) + [s.View()]
  {
    assert (ss + [s])[..|ss|] == ss;
  }

  /** The values of a list of segments: those of all but the last, then the last. */
  lemma ViewsFront(ss: seq<SpeechSegment>)
    requires ss != []
    ensures Views(ss) == Views(ss[..|ss| - 1]) + [Last(ss).View()]
  {
  }

  /** Appending `w` to the last of some turns, whatever comes before it. */
  lemma AppendWordFront(front: seq<Turn>, t: Turn, w: Word)
    ensures AppendWord(front + [t], w) == front + [AddWord(t, w)]
  {
    var ts := front + [t];
    assert ts[..|ts| - 1] == front;
  }

  /** `segmentText += wordToAdd` and the word appended to the segment's confidence
      list: the segment takes the value `AddWord` gives, after any turns `front`. */
  method AddWordTo(seg: SpeechSegment, ghost front: seq<Turn>, w: Word)
    modifies seg
    ensures seg.View() == AddWord(old(seg.View()), w)
    ensures front + [seg.View()] == AppendWord(front + [old(seg.View())], w)
  {
    AppendWordFront(front, seg.View(), w);
    seg.text := seg.text + w.text;
    seg.words := seg.words + [w];
  }

  // ---------------------------------------------------------------------------------
  // Speaker mode

  /** Once the words of a prefix of the references fail, all of them fail the same way. */
  lemma {:induction false} SpeakerWordsErrorStays(items: Slot<seq<Item>>, turns: seq<Turn>, refs: seq<SegmentItem>, n: nat)
    requires turns != [] && n <= |refs| && SpeakerMode.SpeakerWords(items, turns, refs[..n]).Err?
    ensures SpeakerMode.SpeakerWords(items, turns, refs) == SpeakerMode.SpeakerWords(items, turns, refs[..n])
    decreases |refs| - n
  {
    if n < |refs| {
      var front := refs[..|refs| - 1];
      assert front[..n] == refs[..n];
      if n < |front| {
        SpeakerWordsErrorStays(items, turns, front, n);
      } else {
        assert front == refs[..n];
      }
    } else {
      assert refs[..n] == refs;
    }
  }

  /** The word loop of one grouping: each reference is resolved against
      `results.items` and appended to the segment `seg`, whose text grows by the word;
      only the segment's first word goes without a leading space. `front` stands for
      the segments before `seg`. */
  method AddGroupingWords(items: Slot<seq<Item>>, seg: SpeechSegment, ghost front: seq<Turn>, refs: seq<SegmentItem>, skipLeadingSpace: bool)
    returns (fault: Option<Fault>, skip: bool)
    requires skipLeadingSpace <==> seg.words == []
    modifies seg
    ensures var want := SpeakerMode.SpeakerWords(items, front + [old(seg.View())], refs);
      && (fault.None? <==> want.Ok?)
      && (fault.Some? ==> want == Err(fault.value))
      && (fault.None? ==> want.value == front + [seg.View()] && (skip <==> seg.words == []))
  {
    ghost var start := front + [seg.View()];
    skip := skipLeadingSpace;
    var i := 0;
    assert refs[..0] == [];
    while i < |refs|
      invariant i <= |refs|
      invariant SpeakerMode.SpeakerWords(items, start, refs[..i]) == Ok(front + [seg.View()])
      invariant skip <==> seg.words == []
    {
      var f := AddGroupingWord(items, seg, front, start, refs, i, skip);
      if f.Some? {
        return f, skip;
      }
      skip := false;
      i := i + 1;
    }
    assert refs[..i] == refs;
    return None, skip;
  }

  /** The word of the reference at `i` appended to `seg`, as the fold over the
      references does it. */
  method AddGroupingWord(items: Slot<seq<Item>>, seg: SpeechSegment, ghost front: seq<Turn>, ghost start: seq<Turn>,
                         refs: seq<SegmentItem>, i: nat, skip: bool)
    returns (fault: Option<Fault>)
    requires i < |refs| && start != []
    requires SpeakerMode.SpeakerWords(items, start, refs[..i]) == Ok(front + [seg.View()])
    requires skip <==> seg.words == []
    modifies seg
    ensures fault.Some? ==> SpeakerMode.SpeakerWords(items, start, refs) == Err(fault.value)
    ensures fault.None? ==> SpeakerMode.SpeakerWords(items, start, refs[..i + 1]) == Ok(front + [seg.View()]) && seg.words != []
  {
    assert Last(front + [seg.View()]) == seg.View();
    SpeakerMode.SpeakerWordsAt(items, start, refs, i, front + [seg.View()]);
    if !items.Present? {
      SpeakerWordsErrorStays(items, start, refs, i + 1);
      return Some(SlotFault(items, "items"));
    }
    var w := ResolveWord(items.value, refs[i].startTime, refs[i].endTime, !skip);
    if w.Err? {
      SpeakerWordsErrorStays(items, start, refs, i + 1);
      return Some(w.fault);
    }
    AppendWordFront(front, seg.View(), w.value);
    seg.text := seg.text + w.value.text;
    seg.words := seg.words + [w.value];
    return None;
  }

  /** A new segment appended to the list: it starts at `startTime` with speaker
      `speaker`, ends at 0.0 and has no text and an empty word list. */
  method OpenSegment(list: seq<SpeechSegment>, startTime: real, speaker: string) returns (list': seq<SpeechSegment>)
    requires Distinct(list)
    ensures Views(list') == Views(list) + [Turn(startTime, 0.0, speaker, "", [])]
    ensures Last(list').View() == Turn(startTime, 0.0, speaker, "", [])
    ensures Distinct(list') && list' == list + [Last(list')] && fresh(Last(list'))
  {
    var seg := new SpeechSegment();
    list' := list + [seg];
    seg.startTime := startTime;
    seg.speaker := speaker;
    seg.words := [];
    ViewsSnoc(list, seg);
  }

  /** The last segment takes the grouping's end, then the grouping's words. */
  method ExtendSpeakerSegment(items: Slot<seq<Item>>, list: seq<SpeechSegment>, skipLeadingSpace: bool, g: SpeakerGrouping)
    returns (fault: Option<Fault>, skip: bool)
    requires Distinct(list) && list != [] && (skipLeadingSpace <==> Last(list).words == [])
    modifies Last(list)
    ensures var want := SpeakerMode.SpeakerWords(items, SetEnd(old(Views(list)), g.endTime), g.items);
      && (fault.None? <==> want.Ok?)
      && (fault.Some? ==> want == Err(fault.value))
      && (fault.None? ==> want.value == Views(list) && (skip <==> Last(list).words == []))
  {
    var seg := Last(list);
    ghost var front := Views(list[..|list| - 1]);
    ViewsFront(list);
    seg.endTime := g.endTime;
    ghost var current := front + [seg.View()];
    assert current == SetEnd(old(Views(list)), g.endTime);
    assert seg !in list[..|list| - 1];
    fault, skip := AddGroupingWords(items, seg, front, g.items, skipLeadingSpace);
    assert Views(list[..|list| - 1]) == front;
    ViewsFront(list);
  }

  /** A grouping that opens a new segment, or extends the current one: the segment
      takes the grouping's end and its words. */
  method OpenOrExtendSpeaker(items: Slot<seq<Item>>, list: seq<SpeechSegment>, skipLeadingSpace: bool, g: SpeakerGrouping, opens: bool)
    returns (fault: Option<Fault>, list': seq<SpeechSegment>, skip': bool)
    requires Distinct(list) && (list != [] ==> (skipLeadingSpace <==> Last(list).words == []))
    requires opens || list != []
    modifies if list == [] then {} else {Last(list)}
    ensures var extended := if opens then old(Views(list)) + [Turn(g.startTime, 0.0, g.speakerLabel, "", [])] else old(Views(list));
      var w := SpeakerMode.SpeakerWords(items, SetEnd(extended, g.endTime), g.items);
      && (fault.None? <==> w.Ok?)
      && (fault.Some? ==> w == Err(fault.value))
      && (fault.None? ==> w.value == Views(list'))
    ensures fault.None? ==> Distinct(list') && list' != [] && (skip' <==> Last(list').words == [])
    ensures fault.None? ==> list' == list || (list' != [] && list' == list + [Last(list')] && fresh(Last(list')))
  {
    list', skip' := list, skipLeadingSpace;
    if opens {
      list' := OpenSegment(list, g.startTime, g.speakerLabel);
      skip' := true;
    }
    fault, skip' := ExtendSpeakerSegment(items, list', skip', g);
  }

  /** A grouping with items that opens a segment, or extends an existing one, sets
      the end and adds its words. */
  lemma SpeakerStepExtends(items: Slot<seq<Item>>, st: Build, g: SpeakerGrouping)
    requires |g.items| > 0 && (SpeakerMode.OpensTurn(st, g) || st.turns != [])
    ensures var extended := if SpeakerMode.OpensTurn(st, g) then st.turns + [Turn(g.startTime, 0.0, g.speakerLabel, "", [])] else st.turns;
      var w := SpeakerMode.SpeakerWords(items, SetEnd(extended, g.endTime), g.items);
      SpeakerMode.SpeakerStep(items, st, g) == (if w.Ok? then Ok(Build(w.value, g.speakerLabel, g.endTime)) else Err(w.fault))
  {
  }

  /** One more grouping is one more step of the fold. */
  lemma SpeakerFoldNext(items: Slot<seq<Item>>, gs: seq<SpeakerGrouping>, j: nat)
    requires j < |gs|
    ensures SpeakerMode.SpeakerFold(items, gs[..j + 1])
         == (if SpeakerMode.SpeakerFold(items, gs[..j]).Err? then SpeakerMode.SpeakerFold(items, gs[..j])
             else SpeakerMode.SpeakerStep(items, SpeakerMode.SpeakerFold(items, gs[..j]).value, gs[j]))
  {
    assert gs[..j + 1][..j] == gs[..j];
  }

  /** Once the fold of a prefix of the groupings fails, the whole fold fails the same
      way. */
  lemma {:induction false} SpeakerFoldErrorStays(items: Slot<seq<Item>>, gs: seq<SpeakerGrouping>, n: nat)
    requires n <= |gs| && SpeakerMode.SpeakerFold(items, gs[..n]).Err?
    ensures SpeakerMode.SpeakerFold(items, gs) == SpeakerMode.SpeakerFold(items, gs[..n])
    decreases |gs| - n
  {
    if n < |gs| {
      var front := gs[..|gs| - 1];
      assert front[..n] == gs[..n];
      if n < |front| {
        SpeakerFoldErrorStays(items, front, n);
      } else {
        assert front == gs[..n];
      }
    } else {
      assert gs[..n] == gs;
    }
  }

  /** One grouping of the speaker loop, tied to one step of the fold: a grouping
      without items changes nothing; otherwise a new segment is opened on a speaker
      change or a pause of at least the delay (`AttributeError` when there is none to
      extend), the current segment takes the grouping's end, and the grouping's words
      are added. */
  method SpeakerGroupingStep(items: Slot<seq<Item>>, g: SpeakerGrouping, ghost st: Build, list: seq<SpeechSegment>,
                             lastSpeaker: string, lastEnd: real, skip: bool)
    returns (fault: Option<Fault>, list': seq<SpeechSegment>, lastSpeaker': string, lastEnd': real, skip': bool)
    requires st == Build(Views(list), lastSpeaker, lastEnd)
    requires Distinct(list) && (list != [] ==> (skip <==> Last(list).words == []))
    modifies if list == [] then {} else {Last(list)}
    ensures fault.Some? ==> SpeakerMode.SpeakerStep(items, st, g) == Err(fault.value)
    ensures fault.None? ==> SpeakerMode.SpeakerStep(items, st, g) == Ok(Build(Views(list'), lastSpeaker', lastEnd'))
    ensures fault.None? ==> Distinct(list') && (list' != [] ==> (skip' <==> Last(list').words == []))
    ensures fault.None? ==> list' == list || (list' != [] && list' == list + [Last(list')] && fresh(Last(list')))
  {
    if |g.items| == 0 {
      return None, list, lastSpeaker, lastEnd, skip;
    }
    var opens := g.speakerLabel != lastSpeaker || g.startTime - lastEnd >= StartNewSegmentDelay;
    assert opens == SpeakerMode.OpensTurn(st, g);
    if !opens && list == [] {
      return Some(AttributeError), list, lastSpeaker, lastEnd, skip;
    }
    SpeakerStepExtends(items, st, g);
    fault, list', skip' := OpenOrExtendSpeaker(items, list, skip, g, opens);
    lastSpeaker', lastEnd' := g.speakerLabel, g.endTime;
  }

  /** The grouping at `j` on top of the fold of the groupings before it. */
  method SpeakerFoldStep(items: Slot<seq<Item>>, gs: seq<SpeakerGrouping>, j: nat, list: seq<SpeechSegment>,
                         lastSpeaker: string, lastEnd: real, skip: bool)
    returns (fault: Option<Fault>, list': seq<SpeechSegment>, lastSpeaker': string, lastEnd': real, skip': bool)
    requires j < |gs|
    requires SpeakerMode.SpeakerFold(items, gs[..j]) == Ok(Build(Views(list), lastSpeaker, lastEnd))
    requires Distinct(list) && (list != [] ==> (skip <==> Last(list).words == []))
    modifies if list == [] then {} else {Last(list)}
    ensures fault.Some? ==> SpeakerMode.SpeakerFold(items, gs) == Err(fault.value)
    ensures fault.None? ==> SpeakerMode.SpeakerFold(items, gs[..j + 1]) == Ok(Build(Views(list'), lastSpeaker', lastEnd'))
    ensures fault.None? ==> Distinct(list') && (list' != [] ==> (skip' <==> Last(list').words == []))
    ensures fault.None? ==> list' == list || (list' != [] && list' == list + [Last(list')] && fresh(Last(list')))
  {
    SpeakerFoldNext(items, gs, j);
    fault, list', lastSpeaker', lastEnd', skip' := SpeakerGroupingStep(items, gs[j], Build(Views(list), lastSpeaker, lastEnd), list, lastSpeaker, lastEnd, skip);
    if fault.Some? {
      SpeakerFoldErrorStays(items, gs, j + 1);
    }
  }

  /** The segments `list` hold the turns of the speaker fold of the first `j`
      groupings, with its last speaker and end time; `skip` says the last segment has
      no word yet. */
  ghost predicate SpeakerBuilt(items: Slot<seq<Item>>, gs: seq<SpeakerGrouping>, j: nat, list: seq<SpeechSegment>,
                               lastSpeaker: string, lastEnd: real, skip: bool)
    reads list
  {
    && j <= |gs|
    && SpeakerMode.SpeakerFold(items, gs[..j]) == Ok(Build(Views(list), lastSpeaker, lastEnd))
    && Distinct(list)
    && (list != [] ==> (skip <==> Last(list).words == []))
  }

  /** The loop body of speaker mode, stated against the fold. */
  method SpeakerFoldTurn(items: Slot<seq<Item>>, gs: seq<SpeakerGrouping>, j: nat, list: seq<SpeechSegment>,
                         lastSpeaker: string, lastEnd: real, skip: bool)
    returns (fault: Option<Fault>, list': seq<SpeechSegment>, lastSpeaker': string, lastEnd': real, skip': bool)
    requires j < |gs| && SpeakerBuilt(items, gs, j, list, lastSpeaker, lastEnd, skip)
    modifies if list == [] then {} else {Last(list)}
    ensures fault.Some? ==> SpeakerMode.SpeakerFold(items, gs) == Err(fault.value)
    ensures fault.None? ==> SpeakerBuilt(items, gs, j + 1, list', lastSpeaker', lastEnd', skip')
    ensures fault.None? && list' != [] ==> fresh(Last(list')) || (list != [] && Last(list') == Last(list))
  {
    fault, list', lastSpeaker', lastEnd', skip' := SpeakerFoldStep(items, gs, j, list, lastSpeaker, lastEnd, skip);
  }

  /** Speaker mode: `results.speaker_labels.segments` walked grouping by grouping, each
      new segment created, appended and then updated in place. The segments are new,
      distinct, and hold the values of the fold of speaker mode; the faults are those
      of the fold. */
  method CreateSpeakerTurns(data: TranscriptJson) returns (r: Result<seq<SpeechSegment>>)
    ensures r.Ok? <==> SpeakerMode.SpeakerTurns(data).Ok?
    ensures r.Err? ==> SpeakerMode.SpeakerTurns(data) == Err(r.fault)
    ensures r.Ok? ==> Views(r.value) == SpeakerMode.SpeakerTurns(data).value
    ensures r.Ok? ==> Distinct(r.value)
  {
    if !data.results.Present? {
      return Err(SlotFault(data.results, "results"));
    }
    var results := data.results.value;
    if !results.speakerLabels.Present? {
      return Err(SlotFault(results.speakerLabels, "speaker_labels"));
    }
    var groupings := results.speakerLabels.value.segments;
    if !groupings.Present? {
      return Err(SlotFault(groupings, "segments"));
    }
    var fault, list := SpeakerFoldLoop(results.items, groupings.value);
    if fault.Some? {
      return Err(fault.value);
    }
    return Ok(list);
  }

  /** The loop over the speaker groupings: the segments it builds are new, distinct,
      and hold the turns of the speaker fold; its fault is the fold's. */
  method SpeakerFoldLoop(items: Slot<seq<Item>>, gs: seq<SpeakerGrouping>) returns (fault: Option<Fault>, list: seq<SpeechSegment>)
    ensures fault.Some? ==> SpeakerMode.SpeakerFold(items, gs) == Err(fault.value)
    ensures fault.None? ==> SpeakerMode.SpeakerFold(items, gs).Ok? && SpeakerMode.SpeakerFold(items, gs).value.turns == Views(list)
    ensures fault.None? ==> Distinct(list)
  {
    list := [];
    var lastSpeaker := "";
    var lastEnd := 0.0;
    var skip := false;
    var j := 0;
    assert gs[..0] == [];
    while j < |gs|
      invariant SpeakerBuilt(items, gs, j, list, lastSpeaker, lastEnd, skip)
      invariant list != [] ==> fresh(Last(list))
    {
      var f;
      f, list, lastSpeaker, lastEnd, skip := SpeakerFoldTurn(items, gs, j, list, lastSpeaker, lastEnd, skip);
      if f.Some? {
        return f, list;
      }
      j := j + 1;
    }
    assert gs[..j] == gs;
    return None, list;
  }

  // ---------------------------------------------------------------------------------
  // Channel mode

  /** The current segment takes the pronunciation's end, then its word, resolved
      against the channel's own items. */
  method ExtendChannelSegment(pool: seq<Item>, list: seq<SpeechSegment>, skipLeadingSpace: bool, it: Item)
    returns (fault: Option<Fault>)
    requires it.Pronunciation?
    requires Distinct(list) && list != [] && (skipLeadingSpace <==> Last(list).words == [])
    modifies Last(list)
    ensures var current := SetEnd(old(Views(list)), it.endTime);
      var w := ResolveWord(pool, it.startTime, it.endTime, Last(current).words != []);
      && (fault.None? <==> w.Ok?)
      && (fault.Some? ==> w == Err(fault.value))
      && (fault.None? ==> AppendWord(current, w.value) == Views(list) && Last(list).words != [])
  {
    var seg := Last(list);
    ghost var front := Views(list[..|list| - 1]);
    ViewsFront(list);
    seg.endTime := it.endTime;
    ghost var current := front + [seg.View()];
    assert current == SetEnd(old(Views(list)), it.endTime);
    var w := ResolveWord(pool, it.startTime, it.endTime, !skipLeadingSpace);
    if w.Err? {
      return Some(w.fault);
    }
    assert seg !in list[..|list| - 1];
    AddWordTo(seg, front, w.value);
    assert Views(list[..|list| - 1]) == front;
    ViewsFront(list);
    return None;
  }

  /** A pronunciation that opens a new segment, or extends the current one: the
      segment takes its end and its word. */
  method OpenOrExtendChannel(pool: seq<Item>, chLabel: string, list: seq<SpeechSegment>, skipLeadingSpace: bool, it: Item, opens: bool)
    returns (fault: Option<Fault>, list': seq<SpeechSegment>)
    requires it.Pronunciation?
    requires Distinct(list) && (list != [] ==> (skipLeadingSpace <==> Last(list).words == []))
    requires opens || list != []
    modifies if list == [] then {} else {Last(list)}
    ensures var extended := if opens then old(Views(list)) + [Turn(it.startTime, 0.0, chLabel, "", [])] else old(Views(list));
      var current := SetEnd(extended, it.endTime);
      var w := ResolveWord(pool, it.startTime, it.endTime, Last(current).words != []);
      && (fault.None? <==> w.Ok?)
      && (fault.Some? ==> w == Err(fault.value))
      && (fault.None? ==> AppendWord(current, w.value) == Views(list'))
    ensures fault.None? ==> Distinct(list') && list' != [] && Last(list').words != []
    ensures fault.None? ==> list' == list || (list' != [] && list' == list + [Last(list')] && fresh(Last(list')))
  {
    list' := list;
    var skip := skipLeadingSpace;
    if opens {
      list' := OpenSegment(list, it.startTime, chLabel);
      skip := true;
    }
    fault := ExtendChannelSegment(pool, list', skip, it);
  }

  /** A pronunciation that opens a segment, or extends an existing one, sets the end
      and adds its word. */
  lemma ChannelStepExtends(pool: seq<Item>, chLabel: string, st: Build, it: Item)
    requires it.Pronunciation? && (ChannelMode.OpensChannelTurn(st, chLabel, it) || st.turns != [])
    ensures var extended := if ChannelMode.OpensChannelTurn(st, chLabel, it) then st.turns + [Turn(it.startTime, 0.0, chLabel, "", [])] else st.turns;
      var current := SetEnd(extended, it.endTime);
      var w := ResolveWord(pool, it.startTime, it.endTime, Last(current).words != []);
      ChannelMode.ChannelItemStep(pool, chLabel, st, it) == (if w.Ok? then Ok(Build(AppendWord(current, w.value), chLabel, it.endTime)) else Err(w.fault))
  {
  }

  /** One more item is one more step of the channel's fold. */
  lemma ChannelItemsNext(pool: seq<Item>, chLabel: string, st: Build, its: seq<Item>, i: nat)
    requires i < |its|
    ensures ChannelMode.ChannelItems(pool, chLabel, st, its[..i + 1])
         == (if ChannelMode.ChannelItems(pool, chLabel, st, its[..i]).Err? then ChannelMode.ChannelItems(pool, chLabel, st, its[..i])
             else ChannelMode.ChannelItemStep(pool, chLabel, ChannelMode.ChannelItems(pool, chLabel, st, its[..i]).value, its[i]))
  {
    assert its[..i + 1][..i] == its[..i];
  }

  /** Once a prefix of a channel's items fails, the whole channel fails the same way. */
  lemma {:induction false} ChannelItemsErrorStays(pool: seq<Item>, chLabel: string, st: Build, its: seq<Item>, n: nat)
    requires n <= |its| && ChannelMode.ChannelItems(pool, chLabel, st, its[..n]).Err?
    ensures ChannelMode.ChannelItems(pool, chLabel, st, its) == ChannelMode.ChannelItems(pool, chLabel, st, its[..n])
    decreases |its| - n
  {
    if n < |its| {
      var front := its[..|its| - 1];
      assert front[..n] == its[..n];
      if n < |front| {
        ChannelItemsErrorStays(pool, chLabel, st, front, n);
      } else {
        assert front == its[..n];
      }
    } else {
      assert its[..n] == its;
    }
  }

  /** One item of a channel, tied to the channel's fold from the state `st`:
      punctuation changes nothing; a pronunciation opens a segment on a change of
      channel label or a pause longer than the in-channel pause (`AttributeError` when
      there is none to extend), then extends the current one. */
  method ChannelItemsStep(pool: seq<Item>, chLabel: string, ghost st: Build, i: nat, list: seq<SpeechSegment>,
                          lastSpeaker: string, lastEnd: real, skip: bool)
    returns (fault: Option<Fault>, list': seq<SpeechSegment>, lastSpeaker': string, lastEnd': real, skip': bool)
    requires i < |pool|
    requires ChannelMode.ChannelItems(pool, chLabel, st, pool[..i]) == Ok(Build(Views(list), lastSpeaker, lastEnd))
    requires Distinct(list) && (list != [] ==> (skip <==> Last(list).words == []))
    modifies if list == [] then {} else {Last(list)}
    ensures fault.Some? ==> ChannelMode.ChannelItems(pool, chLabel, st, pool) == Err(fault.value)
    ensures fault.None? ==> ChannelMode.ChannelItems(pool, chLabel, st, pool[..i + 1]) == Ok(Build(Views(list'), lastSpeaker', lastEnd'))
    ensures fault.None? ==> Distinct(list') && (list' != [] ==> (skip' <==> Last(list').words == []))
    ensures fault.None? ==> list' == list || (list' != [] && list' == list + [Last(list')] && fresh(Last(list')))
  {
    var it := pool[i];
    ghost var b := Build(Views(list), lastSpeaker, lastEnd);
    ChannelItemsNext(pool, chLabel, st, pool, i);
    if !it.Pronunciation? {
      return None, list, lastSpeaker, lastEnd, skip;
    }
    var opens := chLabel != lastSpeaker || (chLabel == lastSpeaker && it.startTime - lastEnd > ChannelPause);
    assert opens == ChannelMode.OpensChannelTurn(b, chLabel, it);
    if !opens && list == [] {
      ChannelItemsErrorStays(pool, chLabel, st, pool, i + 1);
      return Some(AttributeError), list, lastSpeaker, lastEnd, skip;
    }
    ChannelStepExtends(pool, chLabel, b, it);
    fault, list' := OpenOrExtendChannel(pool, chLabel, list, skip, it, opens);
    lastSpeaker', lastEnd', skip' := chLabel, it.endTime, false;
    if fault.Some? {
      ChannelItemsErrorStays(pool, chLabel, st, pool, i + 1);
    }
  }

  /** The item loop of one channel, run from the fold's state `st`. */
  method ChannelItemsFrom(pool: seq<Item>, chLabel: string, ghost st: Build, list: seq<SpeechSegment>,
                          lastSpeaker: string, lastEnd: real, skip: bool)
    returns (fault: Option<Fault>, list': seq<SpeechSegment>, lastSpeaker': string, lastEnd': real, skip': bool)
    requires st == Build(Views(list), lastSpeaker, lastEnd)
    requires Distinct(list) && (list != [] ==> (skip <==> Last(list).words == []))
    modifies if list == [] then {} else {Last(list)}
    ensures fault.Some? ==> ChannelMode.ChannelItems(pool, chLabel, st, pool) == Err(fault.value)
    ensures fault.None? ==> ChannelMode.ChannelItems(pool, chLabel, st, pool) == Ok(Build(Views(list'), lastSpeaker', lastEnd'))
    ensures fault.None? ==> Distinct(list') && (list' != [] ==> (skip' <==> Last(list').words == []))
    ensures fault.None? ==> forall o :: o in list' ==> o in list || fresh(o)
  {
    fault, list', lastSpeaker', lastEnd', skip' := None, list, lastSpeaker, lastEnd, skip;
    var i := 0;
    assert pool[..0] == [];
    while i < |pool|
      invariant i <= |pool|
      invariant ChannelMode.ChannelItems(pool, chLabel, st, pool[..i]) == Ok(Build(Views(list'), lastSpeaker', lastEnd'))
      invariant Distinct(list')
      invariant list' != [] ==> (skip' <==> Last(list').words == [])
      invariant forall o :: o in list' ==> o in list || fresh(o)
      invariant list' != [] ==> (list != [] && Last(list') == Last(list)) || fresh(Last(list'))
    {
      var f;
      f, list', lastSpeaker', lastEnd', skip' := ChannelItemsStep(pool, chLabel, st, i, list', lastSpeaker', lastEnd', skip');
      if f.Some? {
        return f, list', lastSpeaker', lastEnd', skip';
      }
      i := i + 1;
    }
    assert pool[..i] == pool;
  }

  /** The item loop of one channel: its pronunciations, each resolved against the
      channel's own items. */
  method ChannelItemsLoop(ch: Channel, list: seq<SpeechSegment>, lastSpeaker: string, lastEnd: real, skip: bool)
    returns (fault: Option<Fault>, list': seq<SpeechSegment>, lastSpeaker': string, lastEnd': real, skip': bool)
    requires Distinct(list) && (list != [] ==> (skip <==> Last(list).words == []))
    modifies if list == [] then {} else {Last(list)}
    ensures var want := ChannelMode.ChannelItems(ch.items, ch.channelLabel, Build(old(Views(list)), lastSpeaker, lastEnd), ch.items);
      && (fault.None? <==> want.Ok?)
      && (fault.Some? ==> want == Err(fault.value))
      && (fault.None? ==> want.value == Build(Views(list'), lastSpeaker', lastEnd'))
    ensures fault.None? ==> Distinct(list') && (list' != [] ==> (skip' <==> Last(list').words == []))
    ensures fault.None? ==> forall o :: o in list' ==> o in list || fresh(o)
  {
    ghost var st := Build(Views(list), lastSpeaker, lastEnd);
    fault, list', lastSpeaker', lastEnd', skip' := None, list, lastSpeaker, lastEnd, skip;
    if |ch.items| > 0 {
      fault, list', lastSpeaker', lastEnd', skip' := ChannelItemsFrom(ch.items, ch.channelLabel, st, list, lastSpeaker, lastEnd, skip);
    } else {
      assert ch.items[..0] == ch.items;
    }
  }

  /** One more channel is one more step of the fold over channels. */
  lemma ChannelFoldNext(chs: seq<Channel>, j: nat)
    requires j < |chs|
    ensures ChannelMode.ChannelFold(chs[..j + 1])
         == (if ChannelMode.ChannelFold(chs[..j]).Err? then ChannelMode.ChannelFold(chs[..j])
             else ChannelMode.ChannelItems(chs[j].items, chs[j].channelLabel, ChannelMode.ChannelFold(chs[..j]).value, chs[j].items))
  {
    assert chs[..j + 1][..j] == chs[..j];
  }

  /** Once the fold of a prefix of the channels fails, the whole fold fails the same
      way. */
  lemma {:induction false} ChannelFoldErrorStays(chs: seq<Channel>, n: nat)
    requires n <= |chs| && ChannelMode.ChannelFold(chs[..n]).Err?
    ensures ChannelMode.ChannelFold(chs) == ChannelMode.ChannelFold(chs[..n])
    decreases |chs| - n
  {
    if n < |chs| {
      var front := chs[..|chs| - 1];
      assert front[..n] == chs[..n];
      if n < |front| {
        ChannelFoldErrorStays(front, n);
      } else {
        assert front == chs[..n];
      }
    } else {
      assert chs[..n] == chs;
    }
  }

  /** The channel loop: every channel's items in turn, the last speaker and end time
      carried from one channel to the next. The raw segments are new, distinct, and
      hold the values of the fold over channels. */
  method CreateRawChannelTurns(chs: seq<Channel>) returns (r: Result<seq<SpeechSegment>>)
    ensures r.Ok? <==> ChannelMode.ChannelFold(chs).Ok?
    ensures r.Err? ==> ChannelMode.ChannelFold(chs) == Err(r.fault)
    ensures r.Ok? ==> Views(r.value) == ChannelMode.ChannelFold(chs).value.turns
    ensures r.Ok? ==> Distinct(r.value) && forall o :: o in r.value ==> fresh(o)
  {
    var list: seq<SpeechSegment> := [];
    var lastSpeaker := "";
    var lastEnd := 0.0;
    var skip := false;
    var j := 0;
    assert chs[..0] == [];
    while j < |chs|
      invariant j <= |chs|
      invariant ChannelMode.ChannelFold(chs[..j]) == Ok(Build(Views(list), lastSpeaker, lastEnd))
      invariant Distinct(list) && forall o :: o in list ==> fresh(o)
      invariant list != [] ==> (skip <==> Last(list).words == [])
    {
      assert list != [] ==> Last(list) in list;
      ChannelFoldNext(chs, j);
      var fault;
      fault, list, lastSpeaker, lastEnd, skip := ChannelItemsLoop(chs[j], list, lastSpeaker, lastEnd, skip);
      if fault.Some? {
        ChannelFoldErrorStays(chs, j + 1);
        return Err(fault.value);
      }
      j := j + 1;
    }
    assert chs[..j] == chs;
    return Ok(list);
  }

  /** Python's stable `sorted` by start time on segment objects: `s` placed after
      every segment that does not start later. The objects are not changed. */
  function InsertSegment(ss: seq<SpeechSegment>, s: SpeechSegment): (r: seq<SpeechSegment>)
    reads ss, s
    ensures multiset(r) == multiset(ss) + multiset{s}
  {
    if ss == [] then [s]
    else if Last(ss).startTime <= s.startTime then ss + [s]
    else
      var front := ss[..|ss| - 1];
      assert ss == front + [Last(ss)];
      InsertSegment(front, s) + [Last(ss)]
  }

  /** Python's stable `sorted` by start time on segment objects. */
  function SortSegments(ss: seq<SpeechSegment>): (r: seq<SpeechSegment>)
    reads ss
    ensures multiset(r) == multiset(ss)
  {
    if ss == [] then []
    else
      var front := ss[..|ss| - 1];
      assert ss == front + [Last(ss)];
      var sorted := SortSegments(front);
      assert forall k :: 0 <= k < |sorted| ==> sorted[k] in multiset(front);
      InsertSegment(sorted, Last(ss))
  }

  /** A segment that starts before the last one goes in before it, for the objects
      and for their values alike. */
  lemma InsertBeforeLast(ss: seq<SpeechSegment>, s: SpeechSegment)
    requires ss != [] && Last(ss).startTime > s.startTime
    ensures InsertSegment(ss, s) == InsertSegment(ss[..|ss| - 1], s) + [Last(ss)]
    ensures Insert(Views(ss), s.View()) == Insert(Views(ss[..|ss| - 1]), s.View()) + [Last(ss).View()]
  {
    ViewsFront(ss);
    InsertBeforeLastView(Views(ss[..|ss| - 1]), Last(ss).View(), s.View());
  }

  lemma InsertBeforeLastView(front: seq<Turn>, last: Turn, t: Turn)
    requires last.startTime > t.startTime
    ensures Insert(front + [last], t) == Insert(front, t) + [last]
  {
    assert (front + [last])[..|front|] == front;
  }

  /** Inserting a segment object inserts its value. */
  lemma {:induction false} InsertSegmentViews(ss: seq<SpeechSegment>, s: SpeechSegment)
    ensures Views(InsertSegment(ss, s)) == Insert(Views(ss), s.View())
    decreases |ss|
  {
    if ss == [] {
    } else if Last(ss).startTime <= s.startTime {
      assert Last(Views(ss)).startTime == Last(ss).startTime;
      ViewsSnoc(ss, s);
    } else {
      var front := ss[..|ss| - 1];
      InsertBeforeLast(ss, s);
      InsertSegmentViews(front, s);
      ViewsSnoc(InsertSegment(front, s), Last(ss));
    }
  }

  /** Sorting the segment objects sorts their values, as the sort on values does. */
  lemma {:induction false} SortSegmentsViews(ss: seq<SpeechSegment>)
    ensures Views(SortSegments(ss)) == SortTurns(Views(ss))
    decreases |ss|
  {
    if ss != [] {
      var front := ss[..|ss| - 1];
      ViewsFront(ss);
      SortSegmentsViews(front);
      InsertSegmentViews(SortSegments(front), Last(ss));
    }
  }

  /** A list of segments without repeats is one whose multiset counts each at most
      once. */
  lemma {:induction false} DistinctMultiset(ss: seq<SpeechSegment>)
    ensures Distinct(ss) <==> forall x :: x in multiset(ss) ==> multiset(ss)[x] == 1
    decreases |ss|
  {
    if ss != [] {
      var front := ss[..|ss| - 1];
      assert ss == front + [Last(ss)];
      DistinctMultiset(front);
      if Distinct(ss) {
        assert Last(ss) !in front by {
          forall k | 0 <= k < |front| ensures front[k] != Last(ss) {
            assert front[k] == ss[k];
          }
        }
      }
      if forall x :: x in multiset(ss) ==> multiset(ss)[x] == 1 {
        assert multiset(ss)[Last(ss)] == multiset(front)[Last(ss)] + 1;
        assert forall x :: x in multiset(front) ==> multiset(ss)[x] >= multiset(front)[x];
        forall i, j | 0 <= i < j < |ss| ensures ss[i] != ss[j] {
          if j == |ss| - 1 {
            assert ss[i] in multiset(front);
          } else {
            assert front[i] == ss[i] && front[j] == ss[j];
          }
        }
      }
    }
  }

  /** Sorting a list of segments without repeats gives a list without repeats, of the
      same segments. */
  lemma SortSegmentsDistinct(ss: seq<SpeechSegment>)
    requires Distinct(ss)
    ensures Distinct(SortSegments(ss))
    ensures forall k :: 0 <= k < |SortSegments(ss)| ==> SortSegments(ss)[k] in ss
  {
    var sorted := SortSegments(ss);
    DistinctMultiset(ss);
    DistinctMultiset(sorted);
    assert forall k :: 0 <= k < |sorted| ==> sorted[k] in multiset(ss);
  }

  /** The segments at increasing positions of a list without repeats repeat nothing. */
  lemma DistinctAt(ss: seq<SpeechSegment>, out: seq<SpeechSegment>, idx: seq<nat>)
    requires Distinct(ss) && Increasing(idx, |ss|)
    requires |idx| == |out| && forall k :: 0 <= k < |idx| ==> out[k] == ss[idx[k]]
    ensures Distinct(out)
  {
    forall k, l | 0 <= k < l < |out| ensures out[k] != out[l] {
      assert idx[k] < idx[l];
    }
  }

  /** Channel mode: the raw segments of all channels, sorted by start time, then merged
      in place. The segments are new, distinct, and hold the values channel mode
      computes; the faults are those of channel mode. */
  method CreateChannelTurns(data: TranscriptJson) returns (r: Result<seq<SpeechSegment>>)
    ensures r.Ok? <==> ChannelMode.ChannelTurns(data).Ok?
    ensures r.Err? ==> ChannelMode.ChannelTurns(data) == Err(r.fault)
    ensures r.Ok? ==> Views(r.value) == ChannelMode.ChannelTurns(data).value
    ensures r.Ok? ==> Distinct(r.value) && forall o :: o in r.value ==> fresh(o)
  {
    if !data.results.Present? {
      return Err(SlotFault(data.results, "results"));
    }
    var results := data.results.value;
    if !results.channelLabels.Present? {
      return Err(SlotFault(results.channelLabels, "channel_labels"));
    }
    var channels := results.channelLabels.value.channels;
    if !channels.Present? {
      return Err(SlotFault(channels, "channels"));
    }
    var raw := CreateRawChannelTurns(channels.value);
    if raw.Err? {
      return Err(raw.fault);
    }
    assert forall k :: 0 <= k < |raw.value| ==> raw.value[k] in raw.value;
    r := SortAndMerge(raw.value);
  }

  /** `merge_speaker_segments(sorted(raw, key=start))`: the raw segments sorted by
      start time, then merged in place. */
  method SortAndMerge(raw: seq<SpeechSegment>) returns (r: Result<seq<SpeechSegment>>)
    requires Distinct(raw)
    modifies raw
    ensures MergeTurns(SortTurns(old(Views(raw)))).Ok? <==> r.Ok?
    ensures r.Err? ==> MergeTurns(SortTurns(old(Views(raw)))) == Err(r.fault)
    ensures r.Ok? ==> Views(r.value) == MergeTurns(SortTurns(old(Views(raw)))).value
    ensures r.Ok? ==> Distinct(r.value) && forall o :: o in r.value ==> o in raw
  {
    var sorted := SortSegments(raw);
    SortSegmentsViews(raw);
    SortSegmentsDistinct(raw);
    var merged, idx := MergeSpeakerSegments(sorted);
    if merged.Err? {
      return Err(merged.fault);
    }
    DistinctAt(sorted, merged.value, idx);
    return Ok(merged.value);
  }

  // ---------------------------------------------------------------------------------
  // Audio-segments mode

  /** Once the words of a prefix of the item ids fail, all of them fail the same way. */
  lemma {:induction false} AudioWordsErrorStays(items: Slot<seq<Item>>, ids: seq<int>, n: nat)
    requires n <= |ids| && AudioMode.AudioWords(items, ids[..n]).Err?
    ensures AudioMode.AudioWords(items, ids) == AudioMode.AudioWords(items, ids[..n])
    decreases |ids| - n
  {
    if n < |ids| {
      var front := ids[..|ids| - 1];
      assert front[..n] == ids[..n];
      if n < |front| {
        AudioWordsErrorStays(items, front, n);
      } else {
        assert front == ids[..n];
      }
    } else {
      assert ids[..n] == ids;
    }
  }

  /** One item id of an audio segment: a pronunciation adds a word from its first
      alternative, which must carry a confidence, with a leading space unless it is
      the first; a punctuation mark is appended to the last word's text, or dropped
      when there is none yet. */
  method AudioWordStep(items: Slot<seq<Item>>, ws: seq<Word>, id: int) returns (r: Result<seq<Word>>)
    ensures r == AudioMode.AudioItemStep(items, ws, id)
  {
    if !items.Present? {
      return Err(SlotFault(items, "items"));
    }
    var pool := items.value;
    var k := AudioMode.PyIndex(|pool|, id);
    if k.None? {
      return Err(IndexError);
    }
    var item := pool[k.value];
    if |item.alternatives| == 0 {
      return Err(IndexError);
    }
    var alt := item.alternatives[0];
    if item.Pronunciation? {
      if alt.confidence.None? {
        return Err(KeyError("confidence"));
      }
      var text := alt.content;
      if ws != [] {
        text := " " + text;
      }
      return Ok(ws + [Word(text, alt.confidence.value, item.startTime, item.endTime)]);
    } else if ws != [] {
      var fused := ws[|ws| - 1 := Last(ws).(text := Last(ws).text + alt.content)];
      assert fused == ws[..|ws| - 1] + [Last(ws).(text := Last(ws).text + alt.content)];
      return Ok(fused);
    }
    return Ok(ws);
  }

  /** The item loop of one audio segment, building its confidence list item by item. */
  method CollectAudioWords(items: Slot<seq<Item>>, ids: seq<int>) returns (r: Result<seq<Word>>)
    ensures r == AudioMode.AudioWords(items, ids)
  {
    var ws: seq<Word> := [];
    var i := 0;
    assert ids[..0] == [];
    while i < |ids|
      invariant i <= |ids|
      invariant AudioMode.AudioWords(items, ids[..i]) == Ok(ws)
    {
      assert ids[..i + 1][..i] == ids[..i];
      var next := AudioWordStep(items, ws, ids[i]);
      if next.Err? {
        AudioWordsErrorStays(items, ids, i + 1);
        return next;
      }
      ws := next.value;
      i := i + 1;
    }
    assert ids[..i] == ids;
    return Ok(ws);
  }

  /** The last segment absorbing the turn `t` of a later audio segment: `t`'s end, its
      transcript after a space, and its words as they are. */
  method FoldIntoLast(list: seq<SpeechSegment>, ghost t: Turn, endTime: real, text: string, words: seq<Word>)
    requires Distinct(list) && list != []
    requires t.endTime == endTime && t.text == text && t.words == words
    modifies Last(list)
    ensures Views(list) == ReplaceLast(old(Views(list)), AudioMode.FoldIn(Last(old(Views(list))), t))
  {
    var last := Last(list);
    ghost var front := Views(list[..|list| - 1]);
    ViewsFront(list);
    assert last !in list[..|list| - 1];
    last.endTime := endTime;
    last.text := last.text + " " + text;
    last.words := last.words + words;
    assert Views(list[..|list| - 1]) == front;
    ViewsFront(list);
  }

  /** A new segment for an audio segment: its times, its transcript, no speaker, and
      the words of its items. */
  method NewAudioSegment(items: Slot<seq<Item>>, seg: AudioSegment) returns (fault: Option<Fault>, next: SpeechSegment)
    ensures var t := AudioMode.SegmentTurn(items, seg);
      && (fault.None? <==> t.Ok?)
      && (fault.Some? ==> t == Err(fault.value))
      && (fault.None? ==> next.View() == t.value)
    ensures fresh(next)
  {
    next := new SpeechSegment();
    next.startTime := seg.startTime;
    next.endTime := seg.endTime;
    next.text := seg.transcript;
    next.speaker := "";
    var ws := CollectAudioWords(items, seg.items);
    if ws.Err? {
      return Some(ws.fault), next;
    }
    next.words := ws.value;
    fault := None;
  }

  /** A segment that is not in the list yet, appended to it. */
  method AppendSegment(list: seq<SpeechSegment>, next: SpeechSegment) returns (list': seq<SpeechSegment>)
    requires Distinct(list) && next !in list
    ensures Views(list') == Views(list) + [next.View()]
    ensures Distinct(list') && list' == list + [next]
  {
    list' := list + [next];
    ViewsSnoc(list, next);
  }

  /** A new segment placed after the others: appended when it starts at least the delay
      after the last segment ends, or when there is none; otherwise folded into the
      last one. */
  method PlaceSegment(list: seq<SpeechSegment>, next: SpeechSegment) returns (list': seq<SpeechSegment>)
    requires Distinct(list) && next !in list
    modifies if list == [] then {} else {Last(list)}
    ensures Views(list') == AudioMode.AudioStep(old(Views(list)), old(next.View()))
    ensures Distinct(list')
    ensures list' == list || list' == list + [next]
  {
    ghost var before := Views(list);
    ghost var t := next.View();
    var opens := list == [] || next.startTime - Last(list).endTime >= StartNewSegmentDelay;
    assert list != [] ==> Last(before).endTime == Last(list).endTime;
    if opens {
      assert AudioMode.AudioStep(before, t) == before + [t];
      list' := AppendSegment(list, next);
    } else {
      assert AudioMode.AudioStep(before, t) == ReplaceLast(before, AudioMode.FoldIn(Last(before), t));
      FoldIntoLast(list, t, next.endTime, next.text, next.words);
      list' := list;
    }
  }

  /** One audio segment: a new segment built from it, then placed after the others. */
  method AudioSegmentStep(items: Slot<seq<Item>>, list: seq<SpeechSegment>, seg: AudioSegment)
    returns (fault: Option<Fault>, list': seq<SpeechSegment>)
    requires Distinct(list)
    modifies if list == [] then {} else {Last(list)}
    ensures var t := AudioMode.SegmentTurn(items, seg);
      && (fault.None? <==> t.Ok?)
      && (fault.Some? ==> t == Err(fault.value))
      && (fault.None? ==> Views(list') == AudioMode.AudioStep(old(Views(list)), t.value))
    ensures fault.None? ==> Distinct(list')
    ensures fault.None? ==> list' == list || (list' != [] && list' == list + [Last(list')] && fresh(Last(list')))
  {
    var next;
    fault, next := NewAudioSegment(items, seg);
    if fault.Some? {
      return fault, list;
    }
    list' := PlaceSegment(list, next);
  }

  /** One more audio segment is one more step of the fold. */
  lemma AudioFoldNext(items: Slot<seq<Item>>, segs: seq<AudioSegment>, j: nat)
    requires j < |segs|
    ensures var before := AudioMode.AudioFold(items, segs[..j]);
      var t := AudioMode.SegmentTurn(items, segs[j]);
      AudioMode.AudioFold(items, segs[..j + 1])
        == (if before.Err? then before else if t.Err? then Err(t.fault) else Ok(AudioMode.AudioStep(before.value, t.value)))
  {
    assert segs[..j + 1][..j] == segs[..j];
  }

  /** Once the fold of a prefix of the audio segments fails, the whole fold fails the
      same way. */
  lemma {:induction false} AudioFoldErrorStays(items: Slot<seq<Item>>, segs: seq<AudioSegment>, n: nat)
    requires n <= |segs| && AudioMode.AudioFold(items, segs[..n]).Err?
    ensures AudioMode.AudioFold(items, segs) == AudioMode.AudioFold(items, segs[..n])
    decreases |segs| - n
  {
    if n < |segs| {
      var front := segs[..|segs| - 1];
      assert front[..n] == segs[..n];
      if n < |front| {
        AudioFoldErrorStays(items, front, n);
      } else {
        assert front == segs[..n];
      }
    } else {
      assert segs[..n] == segs;
    }
  }

  /** The segments `list` hold the values of the audio fold of the first `j` segments. */
  ghost predicate AudioBuilt(items: Slot<seq<Item>>, segs: seq<AudioSegment>, j: nat, list: seq<SpeechSegment>)
    reads list
  {
    j <= |segs| && AudioMode.AudioFold(items, segs[..j]) == Ok(Views(list)) && Distinct(list)
  }

  /** The loop body of audio-segments mode: one more segment of the fold. */
  method AudioFoldStep(items: Slot<seq<Item>>, segs: seq<AudioSegment>, j: nat, list: seq<SpeechSegment>)
    returns (fault: Option<Fault>, list': seq<SpeechSegment>)
    requires j < |segs| && AudioBuilt(items, segs, j, list)
    modifies if list == [] then {} else {Last(list)}
    ensures fault.Some? ==> AudioMode.AudioFold(items, segs) == Err(fault.value)
    ensures fault.None? ==> AudioBuilt(items, segs, j + 1, list')
    ensures fault.None? && list' != [] ==> fresh(Last(list')) || (list != [] && Last(list') == Last(list))
  {
    AudioFoldNext(items, segs, j);
    fault, list' := AudioSegmentStep(items, list, segs[j]);
    if fault.Some? {
      AudioFoldErrorStays(items, segs, j + 1);
    }
  }

  /** The loop over `results.audio_segments`: the segments it builds are new,
      distinct, and hold the values of the audio fold; its fault is the fold's. */
  method AudioFoldLoop(items: Slot<seq<Item>>, segs: seq<AudioSegment>) returns (fault: Option<Fault>, list: seq<SpeechSegment>)
    ensures fault.Some? ==> AudioMode.AudioFold(items, segs) == Err(fault.value)
    ensures fault.None? ==> AudioMode.AudioFold(items, segs) == Ok(Views(list))
    ensures fault.None? ==> Distinct(list)
  {
    list := [];
    var j := 0;
    assert segs[..0] == [];
    while j < |segs|
      invariant AudioBuilt(items, segs, j, list)
      invariant list != [] ==> fresh(Last(list))
    {
      var f, next := AudioFoldStep(items, segs, j, list);
      if f.Some? {
        return f, next;
      }
      list := next;
      j := j + 1;
    }
    assert segs[..j] == segs;
    return None, list;
  }

  /** Audio-segments mode: `results.audio_segments` walked segment by segment, each
      one appended as a new segment or folded into the last one in place. The segments
      are new, distinct, and hold the values of the fold of audio-segments mode; the
      faults are those of the fold. */
  method CreateAudioSegmentTurns(data: TranscriptJson) returns (r: Result<seq<SpeechSegment>>)
    ensures r.Ok? <==> AudioMode.AudioTurns(data).Ok?
    ensures r.Err? ==> AudioMode.AudioTurns(data) == Err(r.fault)
    ensures r.Ok? ==> Views(r.value) == AudioMode.AudioTurns(data).value
    ensures r.Ok? ==> Distinct(r.value)
  {
    if !data.results.Present? {
      return Err(SlotFault(data.results, "results"));
    }
    var results := data.results.value;
    if !results.audioSegments.Present? {
      return Err(SlotFault(results.audioSegments, "audio_segments"));
    }
    var segs := results.audioSegments.value;
    var fault, list := AudioFoldLoop(results.items, segs);
    if fault.Some? {
      return Err(fault.value);
    }
    return Ok(list);
  }

  // ---------------------------------------------------------------------------------
  // The entry point

  /** `create_turn_by_turn_segments`: the flags tried in the order speaker, channel,
      audio segments; no flag gives no segments, and a selected mode whose
      substructure is missing or `null` gives none either. The segments are new,
      distinct, and hold the values of the guarded entry point on values. */
  method CreateTurnByTurnSegments(data: TranscriptJson, isSpeaker: bool, isChannel: bool, isAudio: bool)
    returns (r: Result<seq<SpeechSegment>>)
    ensures r.Ok? <==> Dispatch.TurnByTurnSegments(data, isSpeaker, isChannel, isAudio).Ok?
    ensures r.Err? ==> Dispatch.TurnByTurnSegments(data, isSpeaker, isChannel, isAudio) == Err(r.fault)
    ensures r.Ok? ==> Views(r.value) == Dispatch.TurnByTurnSegments(data, isSpeaker, isChannel, isAudio).value
    ensures r.Ok? ==> Distinct(r.value)
  {
    if isSpeaker {
      if Dispatch.HasSpeakerLabels(data) {
        r := CreateSpeakerTurns(data);
      } else {
        r := Ok([]);
      }
    } else if isChannel {
      if Dispatch.HasChannelLabels(data) {
        r := CreateChannelTurns(data);
      } else {
        r := Ok([]);
      }
    } else if isAudio {
      if Dispatch.HasAudioSegments(data) {
        r := CreateAudioSegmentTurns(data);
      } else {
        r := Ok([]);
      }
    } else {
      r := Ok([]);
    }
  }
}
