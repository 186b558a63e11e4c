/** The three-mode entry point `create_turn_by_turn_segments`, and how its two callers
    pick the mode: `lambda_handler` from the job's settings, `generate_document` from the
    keys of `results`. */
module Dispatch {
  import opened Wrappers
  import opened Transcript
  import opened Turns
  import SpeakerMode
  import ChannelMode
  import AudioMode

  /** The entry point as written: the flags are tried in the order speaker, channel,
      audio segments, and no flag gives no segments. Each mode reads its substructure
      without a guard, so a missing or `null` one raises. */
  function TurnByTurnAsWritten(data: TranscriptJson, isSpeaker: bool, isChannel: bool, isAudio: bool): Result<seq<Turn>>
  {
    if isSpeaker then SpeakerMode.SpeakerTurns(data)
    else if isChannel then ChannelMode.ChannelTurns(data)
    else if isAudio then AudioMode.AudioTurns(data)
    else Ok([])
  }

  /** `results.speaker_labels.segments` can be read. */
  predicate HasSpeakerLabels(data: TranscriptJson)
  {
    data.results.Present? && data.results.value.speakerLabels.Present?
    && data.results.value.speakerLabels.value.segments.Present?
  }

  /** `results.channel_labels.channels` can be read. */
  predicate HasChannelLabels(data: TranscriptJson)
  {
    data.results.Present? && data.results.value.channelLabels.Present?
    && data.results.value.channelLabels.value.channels.Present?
  }

  /** `results.audio_segments` can be read. */
  predicate HasAudioSegments(data: TranscriptJson)
  {
    data.results.Present? && data.results.value.audioSegments.Present?
  }

  /** The entry point as its tests expect it: a selected mode whose substructure is
      missing or `null` gives no segments. */
  function TurnByTurnSegments(data: TranscriptJson, isSpeaker: bool, isChannel: bool, isAudio: bool): Result<seq<Turn>>
  {
    if isSpeaker then (if HasSpeakerLabels(data) then SpeakerMode.SpeakerTurns(data) else Ok([]))
    else if isChannel then (if HasChannelLabels(data) then ChannelMode.ChannelTurns(data) else Ok([]))
    else if isAudio then (if HasAudioSegments(data) then AudioMode.AudioTurns(data) else Ok([]))
    else Ok([])
  }

  /** Whenever the selected mode's substructure is there, the guarded entry point does
      exactly what the code does; otherwise it gives no segments where the code raises. */
  lemma TurnByTurnGuardAgrees(data: TranscriptJson, isSpeaker: bool, isChannel: bool, isAudio: bool)
    ensures (isSpeaker ==> HasSpeakerLabels(data))
         && (!isSpeaker && isChannel ==> HasChannelLabels(data))
         && (!isSpeaker && !isChannel && isAudio ==> HasAudioSegments(data))
        ==> TurnByTurnSegments(data, isSpeaker, isChannel, isAudio) == TurnByTurnAsWritten(data, isSpeaker, isChannel, isAudio)
    ensures isSpeaker && !HasSpeakerLabels(data) ==>
      TurnByTurnSegments(data, isSpeaker, isChannel, isAudio) == Ok([])
      && TurnByTurnAsWritten(data, isSpeaker, isChannel, isAudio).Err?
    ensures !isSpeaker && isChannel && !HasChannelLabels(data) ==>
      TurnByTurnSegments(data, isSpeaker, isChannel, isAudio) == Ok([])
      && TurnByTurnAsWritten(data, isSpeaker, isChannel, isAudio).Err?
    ensures !isSpeaker && !isChannel && isAudio && !HasAudioSegments(data) ==>
      TurnByTurnSegments(data, isSpeaker, isChannel, isAudio) == Ok([])
      && TurnByTurnAsWritten(data, isSpeaker, isChannel, isAudio).Err?
  {
  }

  /** `{"results": {<key>: null}}` and `{"results": {}}` and `{"results": null}`. */
  const NoResults: TranscriptJson := TranscriptJson(Null)
  const EmptyResults: TranscriptJson := TranscriptJson(Present(Results(Absent, Absent, Absent, Absent)))
  const NullSpeakerLabels: TranscriptJson := TranscriptJson(Present(Results(Absent, Null, Absent, Absent)))
  const NullChannelLabels: TranscriptJson := TranscriptJson(Present(Results(Absent, Absent, Null, Absent)))
  const NullAudioSegments: TranscriptJson := TranscriptJson(Present(Results(Absent, Absent, Absent, Null)))

  /** As written, the inputs with a missing or `null` substructure raise instead of
      giving the empty list the tests expect. */
  lemma MissingSubstructureRaises()
    ensures TurnByTurnAsWritten(NullSpeakerLabels, true, false, false) == Err(TypeError)
    ensures TurnByTurnAsWritten(EmptyResults, true, false, false) == Err(KeyError("speaker_labels"))
    ensures TurnByTurnAsWritten(NoResults, true, false, false) == Err(TypeError)
    ensures TurnByTurnAsWritten(NullChannelLabels, false, true, false) == Err(TypeError)
    ensures TurnByTurnAsWritten(EmptyResults, false, true, false) == Err(KeyError("channel_labels"))
    ensures TurnByTurnAsWritten(NullAudioSegments, false, false, true) == Err(TypeError)
    ensures TurnByTurnAsWritten(EmptyResults, false, false, true) == Err(KeyError("audio_segments"))
  {
  }

  /** The guarded entry point gives the empty list on every input with a missing or
      `null` substructure. */
  lemma MissingSubstructureGivesNothing()
    ensures TurnByTurnSegments(NullSpeakerLabels, true, false, false) == Ok([])
    ensures TurnByTurnSegments(EmptyResults, true, false, false) == Ok([])
    ensures TurnByTurnSegments(NoResults, true, false, false) == Ok([])
    ensures TurnByTurnSegments(NullChannelLabels, false, true, false) == Ok([])
    ensures TurnByTurnSegments(EmptyResults, false, true, false) == Ok([])
    ensures TurnByTurnSegments(NullAudioSegments, false, false, true) == Ok([])
    ensures TurnByTurnSegments(EmptyResults, false, false, true) == Ok([])
  {
  }

  /** Empty `segments`, `channels` or `audio_segments`, and a call with no flag, give no
      segments, whatever else the result holds. */
  lemma EmptyInputsGiveNothing(items: Slot<seq<Item>>, other: Slot<Results>)
    ensures TurnByTurnSegments(TranscriptJson(Present(Results(items, Present(SpeakerLabels(Present([]))), Absent, Absent))), true, false, false) == Ok([])
    ensures TurnByTurnSegments(TranscriptJson(Present(Results(items, Absent, Present(ChannelLabels(Present([]))), Absent))), false, true, false) == Ok([])
    ensures TurnByTurnSegments(TranscriptJson(Present(Results(items, Absent, Absent, Present([])))), false, false, true) == Ok([])
    ensures TurnByTurnSegments(TranscriptJson(other), false, false, false) == Ok([])
  {
    var ch := TranscriptJson(Present(Results(items, Absent, Present(ChannelLabels(Present([]))), Absent)));
    assert ChannelMode.RawChannelTurns(ch) == Ok([]);
    assert SortTurns([]) == [];
  }

  // Mode selection

  datatype Mode = SpeakerSeparated | ChannelSeparated | AudioSegmented

  /** The flags a mode passes to the entry point: exactly that mode's flag. */
  function Flags(m: Mode): (r: (bool, bool, bool))
    ensures r.0 <==> m.SpeakerSeparated?
    ensures r.1 <==> m.ChannelSeparated?
    ensures r.2 <==> m.AudioSegmented?
  {
    match m
    case SpeakerSeparated => (true, false, false)
    case ChannelSeparated => (false, true, false)
    case AudioSegmented => (false, false, true)
  }

  /** A job setting that may be missing or hold a boolean. */
  type Setting = Option<bool>

  /** `lambda_handler`: channel identification switched on wins, then speaker labels
      switched on; channel identification switched off means audio segments; anything
      else is refused (`None`, the handler's status 500). */
  function LambdaHandlerMode(channelIdentification: Setting, showSpeakerLabels: Setting): (r: Option<Mode>)
  {
    if channelIdentification == Some(true) then Some(ChannelSeparated)
    else if showSpeakerLabels == Some(true) then Some(SpeakerSeparated)
    else if channelIdentification == Some(false) then Some(AudioSegmented)
    else None
  }

  /** The handler refuses a job exactly when channel identification is not set and
      speaker labels are not switched on; speaker mode needs channel identification
      not switched on, and audio mode needs it switched off and speaker labels not on. */
  lemma LambdaHandlerModeSpec(channelIdentification: Setting, showSpeakerLabels: Setting)
    ensures LambdaHandlerMode(channelIdentification, showSpeakerLabels).None?
      <==> channelIdentification.None? && showSpeakerLabels != Some(true)
    ensures LambdaHandlerMode(channelIdentification, showSpeakerLabels) == Some(ChannelSeparated)
      <==> channelIdentification == Some(true)
    ensures LambdaHandlerMode(channelIdentification, showSpeakerLabels) == Some(SpeakerSeparated)
      <==> channelIdentification != Some(true) && showSpeakerLabels == Some(true)
    ensures LambdaHandlerMode(channelIdentification, showSpeakerLabels) == Some(AudioSegmented)
      <==> channelIdentification == Some(false) && showSpeakerLabels != Some(true)
  {
    match channelIdentification
    case None =>
    case Some(on) => assert on || !on;
  }

  /** `generate_document`: the first of `channel_labels`, `speaker_labels`,
      `audio_segments` that is a key of `results` (a `null` value counts), or `None`
      when there is none (the program exits). Reading the keys of a missing or `null`
      `results` raises. */
  function GenerateDocumentMode(data: TranscriptJson): (r: Result<Option<Mode>>)
  {
    var results :- Get(data.results, "results");
    if !results.channelLabels.Absent? then Ok(Some(ChannelSeparated))
    else if !results.speakerLabels.Absent? then Ok(Some(SpeakerSeparated))
    else if !results.audioSegments.Absent? then Ok(Some(AudioSegmented))
    else Ok(None)
  }

  /** The segments `generate_document` writes for a mode it picked, as written: the
      unguarded entry point. */
  function GenerateDocumentAsWritten(data: TranscriptJson): Result<Option<seq<Turn>>>
  {
    var m :- GenerateDocumentMode(data);
    match m
    case None => Ok(None)
    case Some(mode) =>
      var flags := Flags(mode);
      var ts :- TurnByTurnAsWritten(data, flags.0, flags.1, flags.2);
      Ok(Some(ts))
  }

  /** The same composed with the guarded entry point. */
  function GenerateDocumentSegments(data: TranscriptJson): Result<Option<seq<Turn>>>
  {
    var m :- GenerateDocumentMode(data);
    match m
    case None => Ok(None)
    case Some(mode) =>
      var flags := Flags(mode);
      var ts :- TurnByTurnSegments(data, flags.0, flags.1, flags.2);
      Ok(Some(ts))
  }

  /** As written, a key of `results` that picks the mode but holds `null` makes
      `generate_document` raise `TypeError`; a key holding a value gives what the
      guarded composition gives. */
  lemma GenerateDocumentAsWrittenSpec(data: TranscriptJson)
    requires data.results.Present?
    ensures var rs := data.results.value;
      && (rs.channelLabels.Null? ==> GenerateDocumentAsWritten(data) == Err(TypeError))
      && (rs.channelLabels.Absent? && rs.speakerLabels.Null? ==> GenerateDocumentAsWritten(data) == Err(TypeError))
      && ((rs.channelLabels.Absent? && rs.speakerLabels.Absent? && rs.audioSegments.Null?) ==>
            GenerateDocumentAsWritten(data) == Err(TypeError))
      && ((GenerateDocumentMode(data) == Ok(Some(ChannelSeparated)) && HasChannelLabels(data)) ==>
            GenerateDocumentAsWritten(data) == GenerateDocumentSegments(data))
      && ((GenerateDocumentMode(data) == Ok(Some(SpeakerSeparated)) && HasSpeakerLabels(data)) ==>
            GenerateDocumentAsWritten(data) == GenerateDocumentSegments(data))
      && ((GenerateDocumentMode(data) == Ok(Some(AudioSegmented)) && HasAudioSegments(data)) ==>
            GenerateDocumentAsWritten(data) == GenerateDocumentSegments(data))
  {
  }

  /** With the guarded entry point, `generate_document` runs channel mode whenever
      `channel_labels` is a key, and otherwise the mode of the first key present; a key
      present with a `null` value gives no segments (as written it raises, see
      `GenerateDocumentAsWrittenSpec`); with none of the keys it writes nothing. */
  lemma GenerateDocumentSpec(data: TranscriptJson)
    requires data.results.Present?
    ensures var rs := data.results.value;
      && (HasChannelLabels(data) ==>
            (GenerateDocumentSegments(data).Ok? <==> ChannelMode.ChannelTurns(data).Ok?)
            && (GenerateDocumentSegments(data).Ok? ==> GenerateDocumentSegments(data).value == Some(ChannelMode.ChannelTurns(data).value)))
      && (rs.channelLabels.Null? ==> GenerateDocumentSegments(data) == Ok(Some([])))
      && (rs.channelLabels.Absent? && rs.speakerLabels.Null? ==> GenerateDocumentSegments(data) == Ok(Some([])))
      && (rs.channelLabels.Absent? && rs.speakerLabels.Absent? && rs.audioSegments.Null? ==> GenerateDocumentSegments(data) == Ok(Some([])))
      && (rs.channelLabels.Absent? && rs.speakerLabels.Absent? && rs.audioSegments.Absent? <==> GenerateDocumentSegments(data) == Ok(None))
  {
  }
}
