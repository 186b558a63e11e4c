/** The mutable `SpeechSegment` records, and `merge_speaker_segments`, which merges them
    in place. */
module Segments {
  import opened Wrappers
  import opened Transcript
  import opened Turns

  /** One speech segment: start, end, speaker, text and its word list
      (`segmentConfidence`). The sentiment and loudness fields are not part of this
      model. */
  class SpeechSegment {
    var startTime: real
    var endTime: real
    var speaker: string
    var text: string
    var words: seq<Word>

    constructor ()
      ensures View() == Turn(0.0, 0.0, "", "", [])
    {
      startTime := 0.0;
      endTime := 0.0;
      speaker := "";
      text := "";
      words := [];
    }

    /** This segment absorbing `seg`: `seg`'s end, its text after a space, and its
        words, whose first word gains a leading space in `seg` itself. Without words in
        `seg` the end and text are still taken before `IndexError` is raised. */
    method AbsorbSegment(seg: SpeechSegment) returns (ok: bool)
      requires seg != this
      modifies this, seg
      ensures ok <==> old(seg.words) != []
      ensures ok ==> View() == Absorb(old(View()), old(seg.View()))
      ensures ok ==> seg.View() == old(seg.View()).(words := [SpaceBefore(old(seg.words[0]))] + old(seg.words[1..]))
      ensures !ok ==> View() == old(View()).(endTime := old(seg.endTime), text := old(text) + " " + old(seg.text))
      ensures !ok ==> seg.View() == old(seg.View())
    {
      endTime := seg.endTime;
      text := text + " " + seg.text;
      if seg.words == [] {
        return false;
      }
      seg.words := [SpaceBefore(seg.words[0])] + seg.words[1..];
      words := words + seg.words;
      return true;
    }

    /** The segment's current value. */
    function View(): Turn
      reads this
    {
      Turn(startTime, endTime, speaker, text, words)
    }
  }

  /** The values of a list of segments. */
  function Views(ss: seq<SpeechSegment>): (r: seq<Turn>)
    reads ss
    ensures |r| == |ss|
    ensures forall i :: 0 <= i < |ss| ==> r[i] == ss[i].View()
  {
    if ss == [] then [] else Views(ss[..|ss| - 1]) + [Last(ss).View()]
  }

  /** No segment occurs twice. */
  predicate Distinct(ss: seq<SpeechSegment>)
  {
    forall i, j :: 0 <= i < j < |ss| ==> ss[i] != ss[j]
  }

  /** Positions strictly increasing below `n`. */
  ghost predicate Increasing(idx: seq<nat>, n: nat)
  {
    (forall k :: 0 <= k < |idx| ==> idx[k] < n)
    && forall k, l :: 0 <= k < l < |idx| ==> idx[k] < idx[l]
  }

  /** The state of the merge loop after `i` input segments, on the values `views` the
      input segments hold: the merge of the first `i` original values succeeded and is
      held by the segments at the increasing positions `idx`; later segments are
      untouched; the earlier ones not emitted were absorbed and their first word gained
      a space. */
  ghost predicate MergeState(orig: seq<Turn>, views: seq<Turn>, idx: seq<nat>, i: nat)
  {
    && i <= |orig| && |views| == |orig|
    && MergeTurns(orig[..i]).Ok?
    && |idx| == |MergeTurns(orig[..i]).value| && Increasing(idx, i)
    && (forall k :: 0 <= k < |idx| ==> views[idx[k]] == MergeTurns(orig[..i]).value[k])
    && (forall k :: i <= k < |orig| ==> views[k] == orig[k])
    && (forall k :: 0 <= k < i && k !in idx ==> orig[k].words != [] && views[k] == Absorbed(orig[k]))
  }

  /** `MergeState` with the merged values `out` of the first `i` original values
      given. */
  ghost predicate HeldAt(orig: seq<Turn>, views: seq<Turn>, idx: seq<nat>, i: nat, out: seq<Turn>)
  {
    && i <= |orig| && |views| == |orig|
    && |idx| == |out| && Increasing(idx, i)
    && (forall k :: 0 <= k < |idx| ==> views[idx[k]] == out[k])
    && (forall k :: i <= k < |orig| ==> views[k] == orig[k])
    && (forall k :: 0 <= k < i && k !in idx ==> orig[k].words != [] && views[k] == Absorbed(orig[k]))
  }

  /** `merge_speaker_segments`: the input segments are walked in order against the last
      emitted one; a segment is emitted on a speaker change or a pause of at least the
      delay, and otherwise absorbed into the last emitted one, which takes its end, its
      text after a space, and its words, whose first word gains a leading space in the
      absorbed segment itself. The emitted segments are the input's own objects, in
      order, and their values are those of the merge on values. */
  method MergeSpeakerSegments(input: seq<SpeechSegment>) returns (r: Result<seq<SpeechSegment>>, ghost idx: seq<nat>)
    requires Distinct(input)
    modifies input
    ensures MergeTurns(old(Views(input))).Ok? <==> r.Ok?
    ensures r.Err? ==> MergeTurns(old(Views(input))) == Err(r.fault)
    ensures r.Ok? ==> Views(r.value) == MergeTurns(old(Views(input))).value
    ensures r.Ok? ==>
      && |idx| == |r.value| && Increasing(idx, |input|)
      && forall k :: 0 <= k < |idx| ==> r.value[k] == input[idx[k]]
    ensures r.Ok? ==> forall i :: 0 <= i < |input| && i !in idx ==>
      old(Views(input))[i].words != [] && input[i].View() == Absorbed(old(Views(input))[i])
  {
    ghost var orig := Views(input);
    var fault, out;
    fault, out, idx := MergeLoop(input, orig);
    if fault.Some? {
      return Err(fault.value), idx;
    }
    assert orig[..|orig|] == orig;
    EmittedViews(input, out, idx, MergeTurns(orig).value);
    r := Ok(out);
  }

  /** The loop of `merge_speaker_segments`, from the values `orig` the segments hold on
      entry: it stops at the first failure of the merge, or ends with every segment
      walked. */
  method MergeLoop(input: seq<SpeechSegment>, ghost orig: seq<Turn>)
    returns (fault: Option<Fault>, out: seq<SpeechSegment>, ghost idx: seq<nat>)
    requires Distinct(input) && orig == Views(input)
    modifies input
    ensures fault.Some? ==> MergeTurns(orig) == Err(fault.value)
    ensures fault.None? ==> MergeState(orig, Views(input), idx, |input|) && Emitted(input, out, idx)
  {
    out := [];
    var lastSpeaker := "";
    var lastSegment: SpeechSegment? := null;
    idx := [];
    var i: nat := 0;
    assert orig[..0] == [];
    while i < |input|
      invariant MergeWalked(input, orig, out, idx, i, lastSpeaker, lastSegment)
    {
      fault, out, idx, lastSpeaker, lastSegment := MergeNext(input, orig, out, idx, i, lastSpeaker, lastSegment);
      if fault.Some? {
        return;
      }
      i := i + 1;
    }
    fault := None;
  }

  /** The state of the merge loop after the segments before position `i`: the merge
      on values of those segments is mirrored by the segments, `out` holds the emitted
      ones, and the last emitted one and its speaker are remembered. */
  ghost predicate MergeWalked(input: seq<SpeechSegment>, orig: seq<Turn>, out: seq<SpeechSegment>, idx: seq<nat>, i: nat,
                              lastSpeaker: string, lastSegment: SpeechSegment?)
    reads input
  {
    && i <= |input|
    && MergeState(orig, Views(input), idx, i)
    && Emitted(input, out, idx)
    && (out == [] ==> lastSpeaker == "" && lastSegment == null)
    && (out != [] ==> lastSegment == Last(out) && lastSpeaker == Last(out).speaker)
  }

  /** The segments emitted at positions holding the merged values have those values. */
  lemma EmittedViews(input: seq<SpeechSegment>, out: seq<SpeechSegment>, idx: seq<nat>, merged: seq<Turn>)
    requires Emitted(input, out, idx) && |merged| == |idx|
    requires forall k :: 0 <= k < |idx| ==> Views(input)[idx[k]] == merged[k]
    ensures Views(out) == merged
  {
  }

  /** The emitted segments are the input's segments at the positions `idx`. */
  predicate Emitted(input: seq<SpeechSegment>, out: seq<SpeechSegment>, idx: seq<nat>)
  {
    |idx| == |out| && forall k :: 0 <= k < |idx| ==> idx[k] < |input| && out[k] == input[idx[k]]
  }

  /** One turn of the merge loop, on the segment at position `i`: emit it, absorb it
      into the last emitted one, or fail as the merge on values fails. */
  method MergeNext(input: seq<SpeechSegment>, ghost orig: seq<Turn>, out: seq<SpeechSegment>, ghost idx: seq<nat>, i: nat,
                   lastSpeaker: string, lastSegment: SpeechSegment?)
    returns (fault: Option<Fault>, out': seq<SpeechSegment>, ghost idx': seq<nat>, lastSpeaker': string, lastSegment': SpeechSegment?)
    requires Distinct(input) && i < |input|
    requires MergeWalked(input, orig, out, idx, i, lastSpeaker, lastSegment)
    modifies input
    ensures fault.Some? ==> MergeTurns(orig) == Err(fault.value)
    ensures fault.None? ==> MergeWalked(input, orig, out', idx', i + 1, lastSpeaker', lastSegment')
  {
    var segment := input[i];
    if segment.speaker != lastSpeaker || (lastSegment != null && segment.startTime - lastSegment.endTime >= StartNewSegmentDelay) {
      assert out != [] ==> Last(out) == input[Last(idx)];
      EmitState(orig, Views(input), idx, i);
      return None, out + [segment], idx + [i], segment.speaker, segment;
    } else if lastSegment == null {
      NoLastSegment(orig, Views(input), idx, i);
      return Some(AttributeError), out, idx, lastSpeaker, lastSegment;
    } else {
      var ok := AbsorbAt(input, orig, out, idx, i);
      if !ok {
        return Some(IndexError), out, idx, lastSpeaker, lastSegment;
      }
      return None, out, idx, lastSpeaker, lastSegment;
    }
  }

  /** Emitting the segment at position `i` keeps the loop's state. */
  lemma EmitState(orig: seq<Turn>, views: seq<Turn>, idx: seq<nat>, i: nat)
    requires MergeState(orig, views, idx, i) && i < |orig|
    requires views[i].speaker != (if idx == [] then "" else views[Last(idx)].speaker)
      || (idx != [] && views[i].startTime - views[Last(idx)].endTime >= StartNewSegmentDelay)
    ensures MergeState(orig, views, idx + [i], i + 1)
  {
    var prev := MergeTurns(orig[..i]).value;
    assert idx != [] ==> views[Last(idx)] == Last(prev);
    MergePrefixStep(orig, i);
    assert MergeTurns(orig[..i + 1]) == Ok(prev + [orig[i]]);
    EmitHeld(orig, views, idx, i, prev);
  }

  /** Emitting the segment at position `i` holds one more merged value. */
  lemma EmitHeld(orig: seq<Turn>, views: seq<Turn>, idx: seq<nat>, i: nat, out: seq<Turn>)
    requires HeldAt(orig, views, idx, i, out) && i < |orig|
    ensures HeldAt(orig, views, idx + [i], i + 1, out + [orig[i]])
  {
    var idx' := idx + [i];
    assert forall k :: 0 <= k < |idx'| ==> views[idx'[k]] == (out + [orig[i]])[k];
  }

  /** With nothing emitted, a segment without a speaker cannot be compared with the last
      emitted one: `AttributeError`. */
  lemma NoLastSegment(orig: seq<Turn>, views: seq<Turn>, idx: seq<nat>, i: nat)
    requires MergeState(orig, views, idx, i) && i < |orig| && idx == [] && views[i].speaker == ""
    ensures MergeTurns(orig) == Err(AttributeError)
  {
    MergePrefixStep(orig, i);
    assert MergeTurns(orig[..i + 1]) == Err(AttributeError);
    MergeErrorStays(orig, i + 1);
  }

  /** Absorbing the segment at position `i` into the last emitted one keeps the loop's
      state, on the values the two segments then hold. */
  lemma AbsorbState(orig: seq<Turn>, views: seq<Turn>, idx: seq<nat>, i: nat)
    requires MergeState(orig, views, idx, i) && i < |orig| && idx != []
    requires views[i].speaker == views[Last(idx)].speaker
    requires views[i].startTime - views[Last(idx)].endTime < StartNewSegmentDelay
    requires views[i].words != []
    ensures MergeState(orig, views[Last(idx) := Absorb(views[Last(idx)], views[i])][i := Absorbed(views[i])], idx, i + 1)
  {
    var prev := MergeTurns(orig[..i]).value;
    assert views[Last(idx)] == Last(prev) && views[i] == orig[i];
    MergePrefixStep(orig, i);
    assert MergeTurns(orig[..i + 1]) == Ok(ReplaceLast(prev, Absorb(Last(prev), orig[i])));
    AbsorbHeld(orig, views, idx, i, prev);
  }

  /** Absorbing the segment at position `i` into the last emitted one holds the merged
      values with the last one absorbing it. */
  lemma AbsorbHeld(orig: seq<Turn>, views: seq<Turn>, idx: seq<nat>, i: nat, out: seq<Turn>)
    requires HeldAt(orig, views, idx, i, out) && i < |orig| && idx != [] && orig[i].words != []
    ensures HeldAt(orig, views[Last(idx) := Absorb(views[Last(idx)], views[i])][i := Absorbed(views[i])], idx, i + 1,
                   ReplaceLast(out, Absorb(Last(out), orig[i])))
  {
    AbsorbKeepsEmitted(orig, views, idx, i, out);
    AbsorbKeepsRest(orig, views, idx, i, out);
  }

  lemma AbsorbKeepsEmitted(orig: seq<Turn>, views: seq<Turn>, idx: seq<nat>, i: nat, out: seq<Turn>)
    requires HeldAt(orig, views, idx, i, out) && i < |orig| && idx != [] && orig[i].words != []
    ensures var views' := views[Last(idx) := Absorb(views[Last(idx)], views[i])][i := Absorbed(views[i])];
      var out' := ReplaceLast(out, Absorb(Last(out), orig[i]));
      forall k :: 0 <= k < |idx| ==> views'[idx[k]] == out'[k]
  {
    var views' := views[Last(idx) := Absorb(views[Last(idx)], views[i])][i := Absorbed(views[i])];
    var out' := ReplaceLast(out, Absorb(Last(out), orig[i]));
    assert forall k :: 0 <= k < |idx| ==> idx[k] < i;
    assert forall k :: 0 <= k < |idx| - 1 ==> idx[k] < Last(idx);
  }

  lemma AbsorbKeepsRest(orig: seq<Turn>, views: seq<Turn>, idx: seq<nat>, i: nat, out: seq<Turn>)
    requires HeldAt(orig, views, idx, i, out) && i < |orig| && idx != [] && orig[i].words != []
    ensures var views' := views[Last(idx) := Absorb(views[Last(idx)], views[i])][i := Absorbed(views[i])];
      && (forall k :: i + 1 <= k < |orig| ==> views'[k] == orig[k])
      && (forall k :: 0 <= k < i + 1 && k !in idx ==> orig[k].words != [] && views'[k] == Absorbed(orig[k]))
  {
    assert Last(idx) < i;
  }

  /** `IndexError` when the segment to absorb has no words. */
  lemma AbsorbNoWords(orig: seq<Turn>, views: seq<Turn>, idx: seq<nat>, i: nat)
    requires MergeState(orig, views, idx, i) && i < |orig| && idx != []
    requires views[i].speaker == views[Last(idx)].speaker
    requires views[i].startTime - views[Last(idx)].endTime < StartNewSegmentDelay
    requires views[i].words == []
    ensures MergeTurns(orig) == Err(IndexError)
  {
    MergePrefixStep(orig, i);
    assert MergeTurns(orig[..i + 1]) == Err(IndexError);
    MergeErrorStays(orig, i + 1);
  }

  /** The absorbing step of the merge loop: the last emitted segment absorbs the segment
      at position `i`, or `IndexError` when that segment has no words. */
  method AbsorbAt(input: seq<SpeechSegment>, ghost orig: seq<Turn>, out: seq<SpeechSegment>, ghost idx: seq<nat>, i: nat)
    returns (ok: bool)
    requires Distinct(input) && i < |input| && out != []
    requires MergeState(orig, Views(input), idx, i)
    requires Emitted(input, out, idx)
    requires input[i].speaker == Last(out).speaker
    requires input[i].startTime - Last(out).endTime < StartNewSegmentDelay
    modifies Last(out), input[i]
    ensures !ok ==> MergeTurns(orig) == Err(IndexError)
    ensures ok ==> MergeState(orig, Views(input), idx, i + 1)
    ensures Last(out).speaker == old(Last(out).speaker)
  {
    ghost var views := Views(input);
    ghost var last := Last(idx);
    assert Last(out) == input[last] && last < i;
    if input[i].words == [] {
      AbsorbNoWords(orig, views, idx, i);
    } else {
      AbsorbState(orig, views, idx, i);
    }
    ok := Last(out).AbsorbSegment(input[i]);
    if ok {
      ghost var expected := views[last := Absorb(views[last], views[i])][i := Absorbed(views[i])];
      forall j | 0 <= j < |input| ensures Views(input)[j] == expected[j] {
        if j != last && j != i {
          assert input[j] != input[last] && input[j] != input[i];
        }
      }
      assert Views(input) == expected;
    }
  }

  /** The value of a segment after it was absorbed: its first word gained a space. */
  function Absorbed(t: Turn): Turn
    requires t.words != []
  {
    t.(words := [SpaceBefore(t.words[0])] + t.words[1..])
  }

  /** The merge of one more segment is one more step. */
  lemma MergePrefixStep(ts: seq<Turn>, i: nat)
    requires i < |ts|
    ensures MergeTurns(ts[..i + 1]) == (if MergeTurns(ts[..i]).Err? then MergeTurns(ts[..i]) else MergeStep(MergeTurns(ts[..i]).value, ts[i]))
  {
    assert ts[..i + 1][..i] == ts[..i];
  }

  /** Once the merge of a prefix fails, the merge of the whole list fails the same way. */
  lemma {:induction false} MergeErrorStays(ts: seq<Turn>, n: nat)
    requires n <= |ts| && MergeTurns(ts[..n]).Err?
    ensures MergeTurns(ts) == MergeTurns(ts[..n])
    decreases |ts| - n
  {
    if n < |ts| {
      var front := ts[..|ts| - 1];
      assert front[..n] == ts[..n];
      if n < |front| {
        MergeErrorStays(front, n);
      } else {
        assert front == ts[..n];
      }
    } else {
      assert ts[..n] == ts;
    }
  }
}
