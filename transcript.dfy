/** The parsed speech-recognition result the converter reads, the word and turn records
    it builds, and how one spoken word is resolved against the result's items. */
module Transcript {
  import opened Wrappers

  /** One recognition alternative: its text, its confidence when the result carries one,
      and the confidences of its redactions (`None` when the key is missing). */
  datatype Alternative = Alternative(content: string, confidence: Option<real>, redactions: Option<seq<real>>)

  /** An entry of `results.items`: a timed pronunciation or an untimed punctuation mark. */
  datatype Item =
    | Pronunciation(startTime: real, endTime: real, alternatives: seq<Alternative>)
    | Punctuation(alternatives: seq<Alternative>)

  /** A word reference inside a speaker grouping: only its times. */
  datatype SegmentItem = SegmentItem(startTime: real, endTime: real)

  /** An entry of `speaker_labels.segments`. */
  datatype SpeakerGrouping = SpeakerGrouping(startTime: real, endTime: real, speakerLabel: string, items: seq<SegmentItem>)

  /** An entry of `channel_labels.channels`, with its own items. */
  datatype Channel = Channel(channelLabel: string, items: seq<Item>)

  /** An entry of `audio_segments`: its times, transcript and the ids of its items. */
  datatype AudioSegment = AudioSegment(startTime: real, endTime: real, transcript: string, items: seq<int>)

  datatype SpeakerLabels = SpeakerLabels(segments: Slot<seq<SpeakerGrouping>>)

  datatype ChannelLabels = ChannelLabels(channels: Slot<seq<Channel>>)

  /** The `results` object, each member as the code finds it: missing, `null` or present. */
  datatype Results = Results(
    items: Slot<seq<Item>>,
    speakerLabels: Slot<SpeakerLabels>,
    channelLabels: Slot<ChannelLabels>,
    audioSegments: Slot<seq<AudioSegment>>)

  datatype TranscriptJson = TranscriptJson(results: Slot<Results>)

  /** A word dict of a segment's confidence list. */
  datatype Word = Word(text: string, confidence: real, startTime: real, endTime: real)

  /** The value of a speech segment: start, end, speaker, text and words. */
  datatype Turn = Turn(startTime: real, endTime: real, speaker: string, text: string, words: seq<Word>)

  /** A pronunciation item with exactly these start and end times. */
  predicate Matches(item: Item, startTime: real, endTime: real)
  {
    item.Pronunciation? && item.startTime == startTime && item.endTime == endTime
  }

  /** The position of the first matching pronunciation, `word_result[0]` located in the
      item list. */
  function FirstMatch(pool: seq<Item>, startTime: real, endTime: real): (r: Option<nat>)
    ensures r.Some? ==> r.value < |pool| && Matches(pool[r.value], startTime, endTime)
    ensures r.Some? ==> forall j :: 0 <= j < r.value ==> !Matches(pool[j], startTime, endTime)
    ensures r.None? ==> forall j :: 0 <= j < |pool| ==> !Matches(pool[j], startTime, endTime)
  {
    FirstMatchFrom(pool, startTime, endTime, 0)
  }

  /** The position of the first matching pronunciation at or after `i`. */
  function FirstMatchFrom(pool: seq<Item>, startTime: real, endTime: real, i: nat): (r: Option<nat>)
    requires i <= |pool|
    ensures r.Some? ==> i <= r.value < |pool| && Matches(pool[r.value], startTime, endTime)
    ensures r.Some? ==> forall j :: i <= j < r.value ==> !Matches(pool[j], startTime, endTime)
    ensures r.None? ==> forall j :: i <= j < |pool| ==> !Matches(pool[j], startTime, endTime)
    decreases |pool| - i
  {
    if i == |pool| then None
    else if Matches(pool[i], startTime, endTime) then Some(i)
    else FirstMatchFrom(pool, startTime, endTime, i + 1)
  }

  /** The position of the last matching pronunciation, `word_result[-1]`. */
  function LastMatch(pool: seq<Item>, startTime: real, endTime: real): (r: Option<nat>)
    ensures r.Some? ==> r.value < |pool| && Matches(pool[r.value], startTime, endTime)
    ensures r.Some? ==> forall j :: r.value < j < |pool| ==> !Matches(pool[j], startTime, endTime)
    ensures r.None? ==> forall j :: 0 <= j < |pool| ==> !Matches(pool[j], startTime, endTime)
  {
    if pool == [] then None
    else if Matches(pool[|pool| - 1], startTime, endTime) then Some(|pool| - 1)
    else LastMatch(pool[..|pool| - 1], startTime, endTime)
  }

  predicate AllConfident(alts: seq<Alternative>)
  {
    forall j :: 0 <= j < |alts| ==> alts[j].confidence.Some?
  }

  /** The last element of a stable ascending sort by confidence: a maximum, and the last
      of the alternatives that share it. */
  function LastMaxIndex(alts: seq<Alternative>): (k: nat)
    requires |alts| > 0 && AllConfident(alts)
    ensures k < |alts|
    ensures forall j :: 0 <= j < |alts| ==> alts[j].confidence.value <= alts[k].confidence.value
    ensures forall j :: k < j < |alts| ==> alts[j].confidence.value < alts[k].confidence.value
  {
    if |alts| == 1 then 0
    else
      var k := LastMaxIndex(alts[..|alts| - 1]);
      assert forall j :: 0 <= j < |alts| - 1 ==> alts[..|alts| - 1][j] == alts[j];
      if alts[|alts| - 1].confidence.value >= alts[k].confidence.value then |alts| - 1 else k
  }

  /** The chosen alternative's text and confidence: the most confident alternative when
      every alternative has a confidence; otherwise the first alternative with the
      confidence of its first redaction. */
  function Choose(alts: seq<Alternative>): Result<(string, real)>
  {
    if |alts| > 0 && AllConfident(alts) then
      var k := LastMaxIndex(alts);
      Ok((alts[k].content, alts[k].confidence.value))
    else if |alts| == 0 then Err(IndexError)
    else match alts[0].redactions
      case None => Err(KeyError("redactions"))
      case Some(rs) => if |rs| == 0 then Err(IndexError) else Ok((alts[0].content, rs[0]))
  }

  /** The text of the punctuation item right after position `i`, or nothing when the next
      item is a pronunciation, is missing, or has no alternative. */
  function PunctuationAfter(pool: seq<Item>, i: nat): string
  {
    if i + 1 < |pool| && pool[i + 1].Punctuation? && |pool[i + 1].alternatives| > 0
    then pool[i + 1].alternatives[0].content
    else ""
  }

  /** The word for a reference with these times: the chosen alternative of the last
      matching pronunciation, a leading space unless it opens its turn, and the
      punctuation after the first matching pronunciation. No match raises `IndexError`. */
  function ResolveWord(pool: seq<Item>, startTime: real, endTime: real, leadingSpace: bool): Result<Word>
  {
    match LastMatch(pool, startTime, endTime)
    case None => Err(IndexError)
    case Some(m) =>
      match Choose(pool[m].alternatives)
      case Err(f) => Err(f)
      case Ok(choice) =>
        var first := FirstMatch(pool, startTime, endTime);
        assert first.Some?;
        var lead := if leadingSpace then " " else "";
        Ok(Word(lead + choice.0 + PunctuationAfter(pool, first.value), choice.1, startTime, endTime))
  }

  /** Alternatives `Choose` can read: at least one, and either all scored or a first one
      with a redaction confidence. */
  predicate Readable(alts: seq<Alternative>)
  {
    |alts| > 0 && (AllConfident(alts) || (alts[0].redactions.Some? && |alts[0].redactions.value| > 0))
  }

  /** Resolution fails exactly when no pronunciation has the times or the last such
      pronunciation's alternatives cannot be read, with the fault Python raises: no match
      or no alternative is an `IndexError`, a missing `redactions` a `KeyError`, an empty
      one an `IndexError`. */
  lemma ResolveWordSpec(pool: seq<Item>, startTime: real, endTime: real, leadingSpace: bool)
    ensures ResolveWord(pool, startTime, endTime, leadingSpace).Ok?
        <==> LastMatch(pool, startTime, endTime).Some? && Readable(pool[LastMatch(pool, startTime, endTime).value].alternatives)
    ensures LastMatch(pool, startTime, endTime).None? ==> ResolveWord(pool, startTime, endTime, leadingSpace) == Err(IndexError)
    ensures LastMatch(pool, startTime, endTime).Some? ==>
      var alts := pool[LastMatch(pool, startTime, endTime).value].alternatives;
      var r := ResolveWord(pool, startTime, endTime, leadingSpace);
      && (alts == [] ==> r == Err(IndexError))
      && (alts != [] && !AllConfident(alts) && alts[0].redactions.None? ==> r == Err(KeyError("redactions")))
      && (alts != [] && !AllConfident(alts) && alts[0].redactions == Some([]) ==> r == Err(IndexError))
  {
  }

  /** A resolved word keeps the reference's times. Its text is the optional space, the
      content of the chosen alternative of the last matching pronunciation and the
      punctuation after the first matching one. With every alternative scored, the chosen
      one is the last of the most confident and the word carries the largest confidence;
      otherwise it is the first alternative with its first redaction's confidence. */
  lemma ResolveWordText(pool: seq<Item>, startTime: real, endTime: real, leadingSpace: bool)
    requires ResolveWord(pool, startTime, endTime, leadingSpace).Ok?
    ensures LastMatch(pool, startTime, endTime).Some? && FirstMatch(pool, startTime, endTime).Some?
    ensures FirstMatch(pool, startTime, endTime).value <= LastMatch(pool, startTime, endTime).value
    ensures
      var alts := pool[LastMatch(pool, startTime, endTime).value].alternatives;
      var w := ResolveWord(pool, startTime, endTime, leadingSpace).value;
      var tail := PunctuationAfter(pool, FirstMatch(pool, startTime, endTime).value);
      var lead := if leadingSpace then " " else "";
      && w.startTime == startTime && w.endTime == endTime
      && (leadingSpace ==> StartsWithSpace(w.text))
      && (AllConfident(alts) ==>
            var k := LastMaxIndex(alts);
            && w.text == lead + alts[k].content + tail
            && w.confidence == alts[k].confidence.value
            && (forall j :: 0 <= j < |alts| ==> alts[j].confidence.value <= w.confidence)
            && (forall j :: k < j < |alts| ==> alts[j].confidence.value < w.confidence))
      && (!AllConfident(alts) ==>
            && w.text == lead + alts[0].content + tail
            && w.confidence == alts[0].redactions.value[0])
  {
  }

  predicate StartsWithSpace(s: string)
  {
    |s| > 0 && s[0] == ' '
  }

  /** The leading space is the only difference between a turn-opening word and a later one. */
  lemma ResolveWordLeadingSpace(pool: seq<Item>, startTime: real, endTime: real)
    ensures ResolveWord(pool, startTime, endTime, true).Ok? == ResolveWord(pool, startTime, endTime, false).Ok?
    ensures ResolveWord(pool, startTime, endTime, true).Ok? ==>
      ResolveWord(pool, startTime, endTime, true).value
        == ResolveWord(pool, startTime, endTime, false).value.(text := " " + ResolveWord(pool, startTime, endTime, false).value.text)
  {
    match LastMatch(pool, startTime, endTime)
    case None =>
    case Some(m) =>
      match Choose(pool[m].alternatives)
      case Err(f) =>
      case Ok(choice) =>
        var p := PunctuationAfter(pool, FirstMatch(pool, startTime, endTime).value);
        assert " " + choice.0 + p == " " + ("" + choice.0 + p);
  }
}
