# Automated transcription service: a verified model of its core

The automated transcription service turns uploaded audio into Word transcripts. S3 uploads
arrive as SQS messages; a handler starts an Amazon Transcribe job (or a Step Functions
workflow that does so) for each one; the resulting JSON is then cut into speaker turns,
scored and written out. This project models, in Dafny, the parts of that pipeline that
compute something:

- **Turn building** (`create_turn_by_turn_segments`). This covers all three modes:
  - speaker groupings;
  - channels, with the sort and `merge_speaker_segments`;
  - audio segments.

  `SpeechSegment` is modelled as a class updated in place. Each loop is a method proved
  against a value-level fold, and the folds carry the lemmas.
- **Mode selection.** `lambda_handler` picks the mode from the job's settings and
  `generate_document` from the keys of `results`.
- **Confidence statistics** (`generate_confidence_stats`).
- **Small helpers:** `convert_timestamp`, `format_speaker_label` and `find_bucket_key`.
- **The speech-to-text printer** (`google/sttparser_to_docx.py`): the `timestamp` helper,
  the speaker paragraphs and the plain entries of `print_transcript`.
- **The two job-submitting handlers** (`audio_to_transcribe.py`, in two versions):
  - the job-name sanitiser;
  - the request or workflow input;
  - the partial-batch SQS response.
- **The two CSV producers:** the job export (`export_jobs.py`) and the usage report
  (`cli/reports.py`).

Modules, one per file:

- `Wrappers`: Option, Result, JSON slots and Python faults.
- `Strings` and `Clock`: string and clock helpers.
- `Transcript`: the recognition result and word resolution.
- `Turns`: the value-level turn lists, merge and sort.
- `Segments`: the `SpeechSegment` class and the in-place merge.
- `SpeakerMode`, `ChannelMode` and `AudioMode`: the folds of each mode.
- `Builders`: the imperative loops.
- `Dispatch`: the entry point and mode selection.
- `ConfidenceStats`.
- `DocxFormat` and `DocxExamples`.
- `SttParser`.
- `JobNames`, `SqsBatch`, `StepTrigger` and `TranscribeStarter`.
- `ExportJobs` and `Reports`.

Times and confidences are exact `real`s.

## Model

Paths are relative to the repository root.

| member | source | states |
|---|---|---|
| Transcript.FirstMatch | aws/src/lambda/docx/transcribe_to_docx.py:581-599 | the index found is a pronunciation with the word's times and none before it has them; `None` only when no item has them |
| Transcript.LastMatch | aws/src/lambda/docx/transcribe_to_docx.py:581-584 | the index found is the last pronunciation with the word's times; `None` only when none has them |
| Transcript.LastMaxIndex | aws/src/lambda/docx/transcribe_to_docx.py:584 | the last element of the stable ascending sort by confidence has the largest confidence and is the last alternative that has it |
| Transcript.ResolveWord | aws/src/lambda/docx/transcribe_to_docx.py:580-610 | the word lookup; stated by Transcript.ResolveWordSpec and Transcript.ResolveWordText |
| Transcript.ResolveWordSpec | aws/src/lambda/docx/transcribe_to_docx.py:580-587 | resolving a word succeeds if and only if some pronunciation has its times and the last such one has readable alternatives (at least one, and all scored or a first one with a redaction confidence); no match or no alternative raises `IndexError`, a missing `redactions` `KeyError`, an empty one `IndexError` |
| Transcript.ResolveWordText | aws/src/lambda/docx/transcribe_to_docx.py:580-610 | a resolved word keeps the reference's times; its text is the optional space, the chosen content and the punctuation right after the first matching pronunciation; with all alternatives scored the chosen one is the last of the most confident and the word carries the largest confidence, otherwise it is the first alternative with its first redaction's confidence |
| Transcript.ResolveWordLeadingSpace | aws/src/lambda/docx/transcribe_to_docx.py:590-595 | a turn-opening word and a later word differ only in the leading space |
| Turns.AddWord | aws/src/lambda/docx/transcribe_to_docx.py:606-607 | adding a word appends it to the word list and its text to the turn's text; times and speaker stay |
| Turns.AddWordWellFormed | aws/src/lambda/docx/transcribe_to_docx.py:590-610 | a turn whose text is its words' texts stays so when a word with a leading space (or a first word) is added |
| Turns.AppendWordSpec | aws/src/lambda/docx/transcribe_to_docx.py:606-610 | appending a resolved word keeps the current segment well formed and adds a word with the reference's times |
| Turns.Absorb | aws/src/lambda/docx/transcribe_to_docx.py:521-525 | the absorbing turn keeps its start and speaker, takes the other's end, and gains its words with a space before the first |
| Turns.MergeStep | aws/src/lambda/docx/transcribe_to_docx.py:511-525 | one merge iteration; stated by Turns.MergeStepSpec and Turns.MergeStepWellFormed |
| Turns.MergeTurns | aws/src/lambda/docx/transcribe_to_docx.py:496-527 | `merge_speaker_segments` on values; stated by Turns.MergeTurnsSpec, Turns.MergeKeepsWellFormed and Turns.MergeIdempotent |
| Turns.MergeEmitSpec | aws/src/lambda/docx/transcribe_to_docx.py:511-518 | emitting a turn keeps the output turns apart and their words those of the input |
| Turns.MergeAbsorbSpec | aws/src/lambda/docx/transcribe_to_docx.py:519-525 | absorbing a turn keeps the output turns apart and their words those of the input, each at most gaining a space |
| Turns.MergeStepSpec | aws/src/lambda/docx/transcribe_to_docx.py:511-525 | one step of the merge keeps its invariant |
| Turns.MergeTurnsSpec | aws/src/lambda/docx/transcribe_to_docx.py:496-527 | the merge is never longer than its input, is non-empty when the input is, and starts with the input's first turn; adjacent output turns have other speakers or a pause of at least the delay; the words are the input's, in order, up to a leading space |
| Turns.AbsorbWellFormed | aws/src/lambda/docx/transcribe_to_docx.py:521-525 | absorbing a turn into one whose text is its words' texts keeps it so: the texts joined by a space are the words' texts with the space before the first absorbed word |
| Turns.MergeStepWellFormed | aws/src/lambda/docx/transcribe_to_docx.py:511-525 | one step of the merge keeps every output turn's text that of its words |
| Turns.MergeKeepsWellFormed | aws/src/lambda/docx/transcribe_to_docx.py:496-527 | merging turns whose texts are their words' texts gives turns whose texts are their words' texts |
| Turns.MergeSeparatedIsIdentity | aws/src/lambda/docx/transcribe_to_docx.py:510-518 | a list already kept apart and opening with a named speaker is merged into itself |
| Turns.MergeIdempotent | aws/src/lambda/docx/transcribe_to_docx.py:496-527 | merging a merged list changes nothing |
| Turns.MergeKeepsSorted | aws/src/lambda/docx/transcribe_to_docx.py:682-683 | merging a list sorted by start time gives a list sorted by start time, starting where the input starts |
| Turns.Insert | aws/src/lambda/docx/transcribe_to_docx.py:682 | inserting adds exactly that turn (as a multiset) |
| Turns.SortTurns | aws/src/lambda/docx/transcribe_to_docx.py:682 | the sort is a permutation of its input |
| Turns.InsertSorted | aws/src/lambda/docx/transcribe_to_docx.py:682 | insertion into a sorted list keeps it sorted by start time |
| Turns.SortTurnsSorted | aws/src/lambda/docx/transcribe_to_docx.py:682 | the sorted list is sorted by start time and a permutation of the input |
| Turns.SortKeepsWellFormed | aws/src/lambda/docx/transcribe_to_docx.py:682 | sorting keeps every turn well formed |
| Turns.InsertStable | aws/src/lambda/docx/transcribe_to_docx.py:682 | inserting a turn puts it after every turn with its start time and keeps the order of those turns |
| Turns.SortTurnsStable | aws/src/lambda/docx/transcribe_to_docx.py:682 | the sort is stable: for every start time, the turns starting then keep their input order |
| Turns.SortSortedIsIdentity | aws/src/lambda/docx/transcribe_to_docx.py:682 | the stable sort leaves an already sorted list as it is |
| Turns.SortTurnsWordCount | aws/src/lambda/docx/transcribe_to_docx.py:682 | sorting keeps the number of words |
| Segments.SpeechSegment.constructor | aws/src/lambda/docx/transcribe_to_docx.py:41-46 | a new segment starts and ends at 0.0, with no speaker, text or words |
| Segments.SpeechSegment.AbsorbSegment | aws/src/lambda/docx/transcribe_to_docx.py:520-525 | this segment takes the other's end, its text after a space and its words; the other's first word gains a space in place; without words, end and text are taken and `IndexError` is reported |
| Segments.MergeSpeakerSegments | aws/src/lambda/docx/transcribe_to_docx.py:496-527 | the in-place merge succeeds exactly when the merge on values does, with the same fault; the emitted objects are input objects at increasing positions and hold the merged values; the absorbed ones only gained a space |
| Segments.MergeNext | aws/src/lambda/docx/transcribe_to_docx.py:510-525 | one iteration of the merge loop keeps the loop state or fails as the merge on values fails |
| Segments.MergeLoop | aws/src/lambda/docx/transcribe_to_docx.py:510-527 | the merge loop over the input objects fails with the merge on values' fault, or leaves the loop state of the whole merge with the emitted objects at increasing positions |
| Segments.EmitState | aws/src/lambda/docx/transcribe_to_docx.py:511-518 | emitting a segment on a speaker change keeps the loop state |
| Segments.NoLastSegment | aws/src/lambda/docx/transcribe_to_docx.py:511-512 | a first segment without a speaker meets `lastSegment = None`: `AttributeError` |
| Segments.AbsorbState | aws/src/lambda/docx/transcribe_to_docx.py:519-525 | absorbing a segment with words keeps the loop state on the updated values |
| Segments.AbsorbNoWords | aws/src/lambda/docx/transcribe_to_docx.py:523 | absorbing a segment without words raises `IndexError` |
| Segments.AbsorbAt | aws/src/lambda/docx/transcribe_to_docx.py:519-525 | the absorbing branch, in place, keeps the loop state or reports `IndexError` |
| Segments.MergePrefixStep | aws/src/lambda/docx/transcribe_to_docx.py:510 | the merge of one more segment is one more merge step |
| Segments.MergeErrorStays | aws/src/lambda/docx/transcribe_to_docx.py:510-527 | a fault on a prefix is the fault of the whole merge |
| SpeakerMode.SpeakerWords | aws/src/lambda/docx/transcribe_to_docx.py:578-610 | adding a grouping's words changes only the last segment |
| SpeakerMode.SpeakerSkipsEmpty | aws/src/lambda/docx/transcribe_to_docx.py:556 | groupings without items make no difference |
| SpeakerMode.SpeakerWordsFrom | aws/src/lambda/docx/transcribe_to_docx.py:578-610 | a grouping's words need `results.items`, and each is what its reference resolves to there, spaced unless it opens the segment |
| SpeakerMode.SpeakerWordsSpec | aws/src/lambda/docx/transcribe_to_docx.py:578-610 | the current segment keeps start, end and speaker, stays well formed and gains one word per reference, with its times |
| SpeakerMode.OpenSpec | aws/src/lambda/docx/transcribe_to_docx.py:563-570 | opening a segment keeps the state valid and adds the grouping's references |
| SpeakerMode.ExtendSpec | aws/src/lambda/docx/transcribe_to_docx.py:571-575 | extending the current segment keeps the state valid and adds the references |
| SpeakerMode.SpeakerNewTurnIff | aws/src/lambda/docx/transcribe_to_docx.py:556-575 | a grouping opens a segment exactly on a speaker change or a pause of at least the delay, with its start and speaker; the segment ends at the grouping's end |
| SpeakerMode.SpeakerStepSpec | aws/src/lambda/docx/transcribe_to_docx.py:553-610 | one grouping keeps the state valid and adds exactly its references' words |
| SpeakerMode.SpeakerTurns | aws/src/lambda/docx/transcribe_to_docx.py:551-610 | speaker mode; stated by SpeakerMode.SpeakerFoldSpec and SpeakerMode.SpeakerFoldWords |
| SpeakerMode.SpeakerFoldSpec | aws/src/lambda/docx/transcribe_to_docx.py:551-610 | every speaker-mode segment is well formed and has words; the words carry all references' times in order; adjacent segments are kept apart |
| SpeakerMode.SpeakerStepWords | aws/src/lambda/docx/transcribe_to_docx.py:556-610 | one grouping keeps every segment's words resolved against `results.items` |
| SpeakerMode.SpeakerFoldWords | aws/src/lambda/docx/transcribe_to_docx.py:551-610 | every word of every speaker-mode segment is what its reference resolves to in `results.items`, spaced exactly when it is not its segment's first |
| SpeakerMode.SpeakerTurnsMergeFixed | aws/src/lambda/docx/transcribe_to_docx.py:551-610 | speaker-mode output opening with a named speaker is a fixed point of the merge |
| SpeakerMode.SpeakerNoGroupings | aws/src/lambda/docx/transcribe_to_docx.py:553-556 | empty groupings, or none, give no segments |
| ChannelMode.ChannelOpenSpec | aws/src/lambda/docx/transcribe_to_docx.py:631-639 | a pronunciation opening a raw turn keeps the state valid and adds its word |
| ChannelMode.ChannelExtendSpec | aws/src/lambda/docx/transcribe_to_docx.py:640-644 | a pronunciation extending the raw turn keeps the state valid and adds its word |
| ChannelMode.ChannelNewTurnIff | aws/src/lambda/docx/transcribe_to_docx.py:625-644 | a new raw turn opens exactly on a channel change or a pause longer than 0.1 s; either way one word with its times is added |
| ChannelMode.ChannelItemStepSpec | aws/src/lambda/docx/transcribe_to_docx.py:623-678 | one item keeps the state valid; the word times grow by the item's times exactly when it is a pronunciation, and otherwise stay |
| ChannelMode.ChannelItemsSpec | aws/src/lambda/docx/transcribe_to_docx.py:623-678 | a channel's items add one word per pronunciation, in order |
| ChannelMode.RawChannelTurns | aws/src/lambda/docx/transcribe_to_docx.py:613-678 | the raw channel turns; stated by ChannelMode.ChannelFoldSpec and ChannelMode.RawChannelWords |
| ChannelMode.ChannelFoldSpec | aws/src/lambda/docx/transcribe_to_docx.py:613-678 | the raw turns are well formed with words, and carry the times of every pronunciation of every channel, in order, and nothing else |
| ChannelMode.ChannelItemStepWords | aws/src/lambda/docx/transcribe_to_docx.py:623-678 | one item keeps every raw turn's words resolved among the channels' items; the new word resolves in its own channel's items |
| ChannelMode.ChannelItemsWords | aws/src/lambda/docx/transcribe_to_docx.py:623-678 | the same for all items of a channel |
| ChannelMode.ChannelFoldWords | aws/src/lambda/docx/transcribe_to_docx.py:613-678 | the same for the first channels |
| ChannelMode.RawChannelWords | aws/src/lambda/docx/transcribe_to_docx.py:613-678 | every word of every raw turn, spaced exactly when it is not its turn's first, is what its times resolve to among one channel's items |
| ChannelMode.ChannelTurns | aws/src/lambda/docx/transcribe_to_docx.py:613-683 | channel mode; stated by ChannelMode.ChannelTurnsSpec |
| ChannelMode.ChannelTurnsSpec | aws/src/lambda/docx/transcribe_to_docx.py:613-683 | channel mode returns turns sorted by start time and kept apart, each with its text that of its words; their words are those of the sorted raw turns in order, each at most gaining a leading space, one per pronunciation |
| AudioMode.PyIndex | aws/src/lambda/docx/transcribe_to_docx.py:696 | Python indexing: in range exactly for `-n <= i < n`; a negative index counts from the end |
| AudioMode.AudioItemStepFaults | aws/src/lambda/docx/transcribe_to_docx.py:694-710 | an item id fails exactly when `results.items` is missing or `null`, the id is out of range (negative ids count from the end), the item has no alternative, or a pronunciation's first alternative has no confidence, each with its own fault |
| AudioMode.AudioItemStepSpec | aws/src/lambda/docx/transcribe_to_docx.py:695-713 | a pronunciation appends the word of its first alternative (content, after a space unless first; confidence; the item's times); a punctuation mark adds its content to the last word's text and changes nothing else, or nothing when there is no word; times, texts and confidences grow by the id's share |
| AudioMode.AudioWordsSpec | aws/src/lambda/docx/transcribe_to_docx.py:693-715 | a segment's words: one per pronunciation id, with its times and confidence, in order, and a leading space on all but the first; their texts run together are the ids' contents, pronunciations spaced after the first word, punctuation before any word dropped |
| AudioMode.AudioStepIff | aws/src/lambda/docx/transcribe_to_docx.py:717-727 | a segment starts a new turn exactly when there is none or it starts at least the delay after the last ends; otherwise the last keeps its start and takes the segment's end |
| AudioMode.AudioAppendSpec | aws/src/lambda/docx/transcribe_to_docx.py:718-719 | appending keeps the turns unlabelled and spaced and adds the segment's words |
| AudioMode.FoldIn | aws/src/lambda/docx/transcribe_to_docx.py:721-725 | folding in keeps start and speaker, takes the end, joins the texts with a space and appends the words |
| AudioMode.AudioFoldInWords | aws/src/lambda/docx/transcribe_to_docx.py:721-725 | folding in keeps the turns unlabelled and spaced and adds the segment's words |
| AudioMode.AudioFoldInText | aws/src/lambda/docx/transcribe_to_docx.py:723 | folding in adds the segment's transcript after a space |
| AudioMode.AudioStepSpec | aws/src/lambda/docx/transcribe_to_docx.py:717-727 | one step keeps the turns unlabelled and spaced, adds the segment's words, and extends the space-joined texts by its transcript |
| AudioMode.AudioTurns | aws/src/lambda/docx/transcribe_to_docx.py:686-727 | audio-segments mode; stated by AudioMode.AudioFoldContents and AudioMode.AudioFoldShape |
| AudioMode.AudioFoldContents | aws/src/lambda/docx/transcribe_to_docx.py:686-727 | the turns' words are all segments' words in order, and their space-joined texts are all the space-joined transcripts |
| AudioMode.AudioFoldShape | aws/src/lambda/docx/transcribe_to_docx.py:686-727 | no more turns than segments, none exactly without segments; the first turn starts with the first segment and the last ends with the last |
| Builders.AddGroupingWords | aws/src/lambda/docx/transcribe_to_docx.py:578-610 | the word loop of a grouping leaves the segment holding what the fold's word step computes, or its fault |
| Builders.AddGroupingWord | aws/src/lambda/docx/transcribe_to_docx.py:578-610 | one word of a grouping, in place, is one step of the fold's word loop: its fault, or the segment holding the word and no longer empty |
| Builders.OpenSegment | aws/src/lambda/docx/transcribe_to_docx.py:564-570 | a fresh segment with the start and speaker is appended; nothing else changes |
| Builders.ExtendSpeakerSegment | aws/src/lambda/docx/transcribe_to_docx.py:571-610 | the last segment takes the grouping's end and its words, as the fold does |
| Builders.OpenOrExtendSpeaker | aws/src/lambda/docx/transcribe_to_docx.py:563-610 | opening or extending a segment, as the fold's step does |
| Builders.SpeakerStepExtends | aws/src/lambda/docx/transcribe_to_docx.py:556-575 | a grouping with items opens or extends a segment, sets the end, then adds its words |
| Builders.SpeakerGroupingStep | aws/src/lambda/docx/transcribe_to_docx.py:556-610 | one grouping in place is the fold's grouping step: an empty grouping changes nothing, otherwise a segment is opened or extended and the words added, or the step's fault; segments stay distinct and a new one is fresh |
| Builders.SpeakerFoldNext | aws/src/lambda/docx/transcribe_to_docx.py:553 | one more grouping is one more fold step |
| Builders.SpeakerFoldErrorStays | aws/src/lambda/docx/transcribe_to_docx.py:553-610 | a fault on a prefix of the groupings is the fault of the whole fold |
| Builders.SpeakerWordsErrorStays | aws/src/lambda/docx/transcribe_to_docx.py:578-610 | a fault on a prefix of the references is the fault of all of them |
| Builders.SpeakerFoldStep | aws/src/lambda/docx/transcribe_to_docx.py:553-610 | one grouping of the loop, in place, is one step of the speaker fold: the grouping step on the state so far extends the fold over the groupings so far, or its fault is the whole fold's |
| Builders.SpeakerFoldTurn | aws/src/lambda/docx/transcribe_to_docx.py:553-610 | the loop body keeps the segments equal to the fold of the groupings so far, or fails with the whole fold's fault |
| Builders.SpeakerFoldLoop | aws/src/lambda/docx/transcribe_to_docx.py:553-610 | the grouping loop gives distinct segments holding the turns of the speaker fold, or the fold's fault |
| Builders.CreateSpeakerTurns | aws/src/lambda/docx/transcribe_to_docx.py:551-610 | speaker mode on objects: succeeds exactly when the fold does, with its fault; the distinct segments hold the fold's values |
| Builders.ExtendChannelSegment | aws/src/lambda/docx/transcribe_to_docx.py:640-678 | the current segment takes the pronunciation's end and its word, as the fold does |
| Builders.OpenOrExtendChannel | aws/src/lambda/docx/transcribe_to_docx.py:631-678 | opening or extending a channel segment, as the fold's step does |
| Builders.ChannelStepExtends | aws/src/lambda/docx/transcribe_to_docx.py:625-644 | a pronunciation opens or extends a raw turn, sets the end, then adds its word |
| Builders.ChannelItemsNext | aws/src/lambda/docx/transcribe_to_docx.py:623 | one more item is one more step of the channel's fold |
| Builders.ChannelItemsErrorStays | aws/src/lambda/docx/transcribe_to_docx.py:623-678 | a fault on a prefix of a channel's items is that channel's fault |
| Builders.ChannelItemsStep | aws/src/lambda/docx/transcribe_to_docx.py:623-678 | one item of the loop, in place, is one step of the channel fold |
| Builders.ChannelItemsFrom | aws/src/lambda/docx/transcribe_to_docx.py:623-678 | walking a channel's items in place computes that channel's fold from the state so far, or its fault; segments stay distinct and any added one is new |
| Builders.ChannelItemsLoop | aws/src/lambda/docx/transcribe_to_docx.py:619-678 | the item loop of a channel computes the channel's fold |
| Builders.ChannelFoldNext | aws/src/lambda/docx/transcribe_to_docx.py:616 | one more channel is one more step of the fold over channels |
| Builders.ChannelFoldErrorStays | aws/src/lambda/docx/transcribe_to_docx.py:616-678 | a fault on a prefix of the channels is the whole fold's fault |
| Builders.CreateRawChannelTurns | aws/src/lambda/docx/transcribe_to_docx.py:613-678 | the channel loop on objects computes the raw turns of the fold, in new distinct segments |
| Builders.InsertSegment | aws/src/lambda/docx/transcribe_to_docx.py:682 | inserting a segment object adds exactly that object |
| Builders.SortSegments | aws/src/lambda/docx/transcribe_to_docx.py:682 | sorting segment objects permutes them |
| Builders.InsertSegmentViews | aws/src/lambda/docx/transcribe_to_docx.py:682 | inserting an object inserts its value |
| Builders.SortSegmentsViews | aws/src/lambda/docx/transcribe_to_docx.py:682 | sorting the objects sorts their values as the sort on values does, so it is stable in the same way |
| Builders.SortSegmentsDistinct | aws/src/lambda/docx/transcribe_to_docx.py:682 | sorting distinct segments gives distinct segments, the same ones |
| Builders.CreateChannelTurns | aws/src/lambda/docx/transcribe_to_docx.py:613-683 | channel mode on objects: succeeds exactly when channel mode does, with its fault; the segments hold its values |
| Builders.SortAndMerge | aws/src/lambda/docx/transcribe_to_docx.py:682-683 | sorting then merging in place gives the merge of the sorted values |
| Builders.AudioWordsErrorStays | aws/src/lambda/docx/transcribe_to_docx.py:695-713 | a fault on a prefix of the item ids is the fault of all of them |
| Builders.AudioWordStep | aws/src/lambda/docx/transcribe_to_docx.py:695-713 | one item id of an audio segment computes the fold's item step: its index or slot fault, a word with a leading space after the first, or punctuation added to the last word |
| Builders.CollectAudioWords | aws/src/lambda/docx/transcribe_to_docx.py:693-715 | the item loop of an audio segment computes the segment's words or their fault |
| Builders.FoldIntoLast | aws/src/lambda/docx/transcribe_to_docx.py:721-725 | the last segment absorbs the later segment's turn in place; the others are unchanged |
| Builders.NewAudioSegment | aws/src/lambda/docx/transcribe_to_docx.py:688-715 | a fresh segment holds the audio segment's turn, or the fault of its words |
| Builders.AppendSegment | aws/src/lambda/docx/transcribe_to_docx.py:719 | appending a new segment keeps the list distinct |
| Builders.PlaceSegment | aws/src/lambda/docx/transcribe_to_docx.py:717-727 | the new segment is appended or folded into the last as the audio step on values does; the list stays distinct |
| Builders.AudioSegmentStep | aws/src/lambda/docx/transcribe_to_docx.py:717-727 | one audio segment, in place, is one step of the audio fold |
| Builders.AudioFoldNext | aws/src/lambda/docx/transcribe_to_docx.py:687 | one more audio segment is one more fold step |
| Builders.AudioFoldErrorStays | aws/src/lambda/docx/transcribe_to_docx.py:687-727 | a fault on a prefix of the audio segments is the whole fold's fault |
| Builders.AudioFoldStep | aws/src/lambda/docx/transcribe_to_docx.py:687-727 | the loop body keeps the segments equal to the fold of the segments so far |
| Builders.AudioFoldLoop | aws/src/lambda/docx/transcribe_to_docx.py:687-727 | the audio segment loop gives distinct segments holding the audio fold, or the fold's fault |
| Builders.CreateAudioSegmentTurns | aws/src/lambda/docx/transcribe_to_docx.py:686-727 | audio mode on objects: succeeds exactly when the fold does, with its fault; the distinct segments hold its values |
| Builders.CreateTurnByTurnSegments | aws/src/lambda/docx/transcribe_to_docx.py:529-730 | the entry point on objects computes the guarded entry point on values: same success, fault and values |
| Dispatch.TurnByTurnAsWritten | aws/src/lambda/docx/transcribe_to_docx.py:529-730 | `create_turn_by_turn_segments` as written; stated by Dispatch.MissingSubstructureRaises and Dispatch.TurnByTurnGuardAgrees |
| Dispatch.TurnByTurnSegments | aws/src/lambda/docx/transcribe_to_docx.py:529-730 | the guarded entry point; stated by Dispatch.MissingSubstructureGivesNothing, Dispatch.TurnByTurnGuardAgrees and Builders.CreateTurnByTurnSegments |
| Dispatch.TurnByTurnGuardAgrees | aws/src/lambda/docx/transcribe_to_docx.py:529-730 | with the selected mode's substructure present, the guarded entry point is the code's; otherwise it gives no segments where the code raises |
| Dispatch.MissingSubstructureRaises | aws/src/lambda/docx/transcribe_to_docx.py:551-687 | as written, a missing or `null` substructure raises |
| Dispatch.MissingSubstructureGivesNothing | aws/src/lambda/docx/test.py:33-92 | the guarded entry point gives `[]` on every missing or `null` substructure the tests try |
| Dispatch.EmptyInputsGiveNothing | aws/src/lambda/docx/test.py:94-126 | empty groupings, channels or audio segments, and no flag, give `[]` |
| Dispatch.Flags | aws/src/lambda/docx/transcribe_to_docx.py:801-805 | each mode passes exactly its own flag |
| Dispatch.LambdaHandlerMode | aws/src/lambda/docx/transcribe_to_docx.py:800-818 | the mode choice of `lambda_handler`; stated by Dispatch.LambdaHandlerModeSpec |
| Dispatch.LambdaHandlerModeSpec | aws/src/lambda/docx/transcribe_to_docx.py:800-818 | the job is refused exactly when channel identification is not set and speaker labels are not on; channel on wins; speaker needs channel not on; audio needs channel off and speaker not on |
| Dispatch.GenerateDocumentMode | aws/src/lambda/docx/transcribe_to_docx.py:993-1001 | the mode choice of `generate_document`; stated by Dispatch.GenerateDocumentSpec |
| Dispatch.GenerateDocumentAsWritten | aws/src/lambda/docx/transcribe_to_docx.py:993-1001 | `generate_document` over the entry point as written; stated by Dispatch.GenerateDocumentAsWrittenSpec |
| Dispatch.GenerateDocumentSegments | aws/src/lambda/docx/transcribe_to_docx.py:993-1001 | `generate_document` over the guarded entry point; stated by Dispatch.GenerateDocumentSpec |
| Dispatch.GenerateDocumentAsWrittenSpec | aws/src/lambda/docx/transcribe_to_docx.py:993-1001 | as written, a mode-picking key holding `null` raises `TypeError`; a key holding its substructure gives what the corrected composition gives |
| Dispatch.GenerateDocumentSpec | aws/src/lambda/docx/transcribe_to_docx.py:993-1001 | with the corrected entry point of the Findings table: channel mode whenever `channel_labels` is a key, else the first key present; a `null` value gives no segments; no key, no document |
| ConfidenceStats.BucketOf | aws/src/lambda/docx/transcribe_to_docx.py:196-217 | the bucket is the first threshold the confidence reaches, or the last bucket |
| ConfidenceStats.TruncateToInt | aws/src/lambda/docx/transcribe_to_docx.py:195 | `int()` truncates toward zero |
| ConfidenceStats.Accuracy | aws/src/lambda/docx/transcribe_to_docx.py:195 | `int(conf_value * 100)`; stated by ConfidenceStats.AccuracyBounds and ConfidenceStats.TruncateToInt |
| ConfidenceStats.AccuracyBounds | aws/src/lambda/docx/transcribe_to_docx.py:195 | a confidence in [0, 1] gives an accuracy in [0, 100], and 100 only for 1 |
| ConfidenceStats.Counts | aws/src/lambda/docx/transcribe_to_docx.py:187 | there are eleven counters |
| ConfidenceStats.CountsSnoc | aws/src/lambda/docx/transcribe_to_docx.py:196-217 | one more word adds one to its own bucket only |
| ConfidenceStats.CountsSum | aws/src/lambda/docx/transcribe_to_docx.py:196-218 | the counters add up to the number of words |
| ConfidenceStats.TallyWord | aws/src/lambda/docx/transcribe_to_docx.py:193-218 | one word appends its start time and accuracy and counts it in its bucket and in `parsedWords` |
| ConfidenceStats.TallySegment | aws/src/lambda/docx/transcribe_to_docx.py:192-218 | the inner loop tallies the segment's words in order |
| ConfidenceStats.GenerateConfidenceStats | aws/src/lambda/docx/transcribe_to_docx.py:174-219 | timestamps and accuracies line up with all words in order; each counter counts its bucket; the counters add up to `parsedWords` |
| Clock.SecondOfDay | aws/src/lambda/docx/transcribe_to_docx.py:77-79 | the second within the day, below 86400, congruent to the input |
| Clock.HhMmSs | aws/src/lambda/docx/transcribe_to_docx.py:79-81 | a well-formed `HH:MM:SS` whose value is the second it renders |
| DocxFormat.ConvertTimestamp | aws/src/lambda/docx/transcribe_to_docx.py:70-81 | a well-formed `HH:MM:SS`, hours below 24, denoting the whole seconds of the time within its day |
| DocxFormat.ConvertTimestampExamples | aws/src/lambda/docx/test.py:29-31 | 0 gives `00:00:00` and 10000 gives `02:46:40` |
| DocxFormat.FormatSpeakerLabel | aws/src/lambda/docx/transcribe_to_docx.py:138-146 | `format_speaker_label`; stated by DocxFormat.FormatNumberedSpeaker and DocxFormat.FormatPlainLabel |
| Strings.ParseInt | aws/src/lambda/docx/transcribe_to_docx.py:145 | `int()` on an optionally signed run of ASCII digits, `None` for `ValueError`; a result needs a non-empty string; stated by Strings.ParseIntOfDigits and Strings.ParseIntOfIntToString |
| Strings.ParseIntOfDigits | aws/src/lambda/docx/transcribe_to_docx.py:145 | `int()` of a non-empty run of ASCII digits is its decimal value |
| Strings.ParseIntOfIntToString | aws/src/lambda/docx/transcribe_to_docx.py:145 | `int()` reads back what `str()` writes, for every integer, sign included |
| DocxFormat.FormatNumberedSpeaker | aws/src/lambda/docx/transcribe_to_docx.py:143-145 | `spk_<n>` becomes `Speaker <n+1>` |
| DocxFormat.FormatPlainLabel | aws/src/lambda/docx/transcribe_to_docx.py:146 | a label without `spk_` is unchanged |
| DocxFormat.FormatSpeakerLabelFirstSpeaker | aws/src/lambda/docx/test.py:25 | `spk_0` gives `Speaker 1` |
| DocxFormat.FormatSpeakerLabelSecondSpeaker | aws/src/lambda/docx/test.py:26 | `spk_1` gives `Speaker 2` |
| DocxFormat.FormatSpeakerLabelName | aws/src/lambda/docx/test.py:27 | `Mr. Jones` is unchanged |
| DocxFormat.UrlParse | aws/src/lambda/docx/transcribe_to_docx.py:465 | `urlparse`; stated by DocxFormat.UrlParseHttp and DocxFormat.UrlParseIgnoresLeading |
| DocxFormat.StripLeading | aws/src/lambda/docx/transcribe_to_docx.py:465 | `urlparse` first drops the leading control characters and spaces: the result is a suffix, everything dropped is at most `' '`, and what remains does not start with such a character |
| DocxFormat.RemoveUnsafe | aws/src/lambda/docx/transcribe_to_docx.py:465 | `urlparse` then deletes every tab, CR and LF: none is left, and a URL without them is unchanged |
| DocxFormat.SplitParams | aws/src/lambda/docx/transcribe_to_docx.py:465 | the `;params` cut of the last path segment: the path is the kept part, or the kept part, `;` and the params |
| DocxFormat.UrlParseIgnoresLeading | aws/src/lambda/docx/transcribe_to_docx.py:465 | a leading control character or space does not change what the URL parses to |
| DocxFormat.UrlParseHttp | aws/src/lambda/docx/transcribe_to_docx.py:465-467 | an `https://host/path?query` URL parses into the lower-cased scheme, the host, the path less its `;params` (for the schemes that take params), those params, and the query |
| DocxFormat.SplitParamsNone | aws/src/lambda/docx/transcribe_to_docx.py:465 | a path without `;` has no params |
| DocxFormat.SplitParamsUnder | aws/src/lambda/docx/transcribe_to_docx.py:465-470 | cutting the params of `/bucket/key` cuts them from the key only, so the bucket segment is untouched |
| DocxFormat.PathParamsUnder | aws/src/lambda/docx/transcribe_to_docx.py:465-470 | the same for every scheme: the path of `/bucket/key` is `/bucket/` followed by the key as the scheme leaves it |
| DocxFormat.FindBucketKey | aws/src/lambda/docx/transcribe_to_docx.py:450-472 | `find_bucket_key`; stated by DocxFormat.FindBucketKeyS3 and DocxFormat.FindBucketKeyHttp |
| DocxFormat.FindBucketKeyS3 | aws/src/lambda/docx/transcribe_to_docx.py:459-463 | for an `s3://` URI the bucket has no `/` and bucket and key rebuild the location without the scheme |
| DocxFormat.FindBucketKeyHttp | aws/src/lambda/docx/transcribe_to_docx.py:464-472 | for `scheme://host/bucket/key?query` the bucket is the first path segment, the key the rest of the path less the `;params` of its last segment when the scheme is in `uses_params` (DocxFormat.UsesParams), the query kept apart |
| DocxFormat.FindBucketKeyHttps | aws/src/lambda/docx/transcribe_to_docx.py:464-472 | `https://host/bucket/key` gives the bucket, the key less the `;params` of its last segment, and an empty query |
| DocxFormat.FindBucketKeyS3Plain | aws/src/lambda/docx/transcribe_to_docx.py:459-463 | `s3://bucket/key` with a plain bucket and key gives back that bucket and key |
| DocxExamples.FindBucketKeyHttpsExample | aws/src/lambda/docx/test.py:7-10 | the first URL case of the tests: bucket `bucket-name`, key `key-name` |
| DocxExamples.FindBucketKeyTokenExample | aws/src/lambda/docx/test.py:12-16 | the second URL case of the tests: the bucket, the four-segment key ending in `asrOutput.json`, and the query `X-Amz-Security-Token` |
| DocxExamples.FindBucketKeyParamsExample | aws/src/lambda/docx/transcribe_to_docx.py:464-472 | `https://h/b/k;v` gives bucket `b` and key `k`: the `;v` is taken as params |
| DocxExamples.FindBucketKeyRtspsExample | aws/src/lambda/docx/transcribe_to_docx.py:464-472 | `rtsps://h/b/k;v` gives bucket `b` and key `k`: `rtsps` is among the schemes that take params |
| DocxExamples.FindBucketKeyS3Example | aws/src/lambda/docx/test.py:18-22 | the `s3://` case of the tests |
| SttParser.Timestamp | google/sttparser_to_docx.py:11-20 | a well-formed 8-character clock, then either nothing or `.` and at most three more characters |
| SttParser.TimestampWhole | google/sttparser_to_docx.py:12-15 | whole seconds with a unit give the clock of those seconds |
| SttParser.TimestampFraction | google/sttparser_to_docx.py:16-20 | seconds, `.`, fraction give the clock, `.` and the first three characters of the fraction |
| SttParser.TimestampLongFractionExample | google/sttparser_to_docx.py:20 | `75.123456s` gives `00:01:15.123`, cut and not rounded |
| SttParser.TimestampNoDigitsExample | google/sttparser_to_docx.py:13 | `s` alone raises `ValueError` |
| SttParser.TaggedPrefix | google/sttparser_to_docx.py:53-54 | the count of leading words that carry a speaker tag |
| SttParser.Runs | google/sttparser_to_docx.py:53-67 | runs are non-empty and there are runs exactly when there are words |
| SttParser.RunsSnoc | google/sttparser_to_docx.py:56-67 | one more word grows the last run on the same speaker, or starts a run |
| SttParser.RunsSpec | google/sttparser_to_docx.py:53-67 | the runs are the maximal one-speaker runs: together the words in order, each run one speaker, neighbours different |
| SttParser.WordTexts | google/sttparser_to_docx.py:55-61 | one text per word, in order |
| SttParser.Paragraphs | google/sttparser_to_docx.py:60-64 | at most one paragraph per run; a fault stops the paragraphs |
| SttParser.ParagraphsErrorStays | google/sttparser_to_docx.py:62 | once a timestamp raises, later runs change nothing |
| SttParser.RunsStable | google/sttparser_to_docx.py:53-67 | closed runs of a prefix stay runs of the whole |
| SttParser.ParagraphsSpec | google/sttparser_to_docx.py:59-67 | without a fault, one paragraph per run in order: first word's timestamp, speaker, words joined by spaces |
| SttParser.LastRunNeverPrinted | google/sttparser_to_docx.py:53-67 | with every word tagged and nothing raised, every run but the last is printed, in order, and the last never is |
| SttParser.SpeakerRaisedAt | google/sttparser_to_docx.py:62 | a raising timestamp ends the output with its fault |
| SttParser.SpeakerUntaggedAt | google/sttparser_to_docx.py:54 | an untagged word ends the output with `KeyError` |
| SttParser.SpeakerFirstWord | google/sttparser_to_docx.py:43-49 | the first word opens the first run |
| SttParser.SpeakerSameWord | google/sttparser_to_docx.py:56-58 | a word of the current speaker joins the current run: same printed paragraphs, its text added to the current words |
| SttParser.SpeakerNewRun | google/sttparser_to_docx.py:59-67 | a word of another speaker prints the current run (timestamp of its first word, speaker, words joined by spaces) and opens a run of that word alone |
| SttParser.SpeakerAllWords | google/sttparser_to_docx.py:53-67 | after the last word, all runs but the last are printed |
| SttParser.SpeakerWordStep | google/sttparser_to_docx.py:53-67 | one word of the loop ends the output as the specification says or keeps the loop state |
| SttParser.SpeakerOutput | google/sttparser_to_docx.py:41-67 | the speaker path as paragraphs and an ending; stated by SttParser.SpeakerAllWords and SttParser.PrintSpeakerParagraphs |
| SttParser.PrintSpeakerParagraphs | google/sttparser_to_docx.py:41-67 | the speaker path prints exactly the specified paragraphs and ends as specified |
| SttParser.TranscriptText | google/sttparser_to_docx.py:70-78 | `.get('transcript', 'missing')` as printed; stated by SttParser.PrintedResults |
| SttParser.PrintedResults | google/sttparser_to_docx.py:70-74 | the printed results are those whose transcript, read with the default `missing`, is not `missing`, in order; a `null` transcript counts and prints as `None` |
| SttParser.PlainPrintLabelled | google/sttparser_to_docx.py:75-80 | printing one more result keeps the entries labelled |
| SttParser.PlainFold | google/sttparser_to_docx.py:68-80 | the plain path; stated by SttParser.PlainFoldSpec and SttParser.PrintPlainEntries |
| SttParser.PlainFoldSpec | google/sttparser_to_docx.py:68-80 | without a fault, exactly the results with a transcript are printed, in order; the first at `00:00:00`, each later one at the end time of the one printed before it |
| SttParser.PlainFoldErrorStays | google/sttparser_to_docx.py:70-80 | once the plain path raises, later results change nothing |
| SttParser.PrintPlainEntries | google/sttparser_to_docx.py:68-80 | the plain loop prints exactly the plain fold's entries and ends with its fault |
| SttParser.PrintTranscript | google/sttparser_to_docx.py:36-80 | with speakers, an empty result or alternative list raises `IndexError`, missing words exit, otherwise the last result's paragraphs; without, the plain entries |
| JobNames.Sanitize | aws/src/lambda/transcribe/audio_to_transcribe.py:35 | the sanitised key has only `[A-Za-z0-9_.-]`, is no longer than the key, and is empty only for an empty key |
| JobNames.SanitizeSnocAllowed | aws/src/lambda/transcribe/audio_to_transcribe.py:35 | an allowed character is copied |
| JobNames.RunBecomesOneUnderscore | aws/src/lambda/transcribe/audio_to_transcribe.py:35 | a maximal run of other characters becomes exactly one `_` |
| JobNames.SanitizeAllowedIsIdentity | aws/src/lambda/transcribe/audio_to_transcribe.py:35 | a key of allowed characters is unchanged |
| JobNames.SanitizeIdempotent | aws/src/lambda/transcribe/audio_to_transcribe.py:35 | sanitising twice is sanitising once |
| JobNames.SanitizeKeeps | aws/src/lambda/transcribe/audio_to_transcribe.py:35 | the letters, digits, dots and dashes of the key are kept in order and none is added |
| JobNames.SanitizeExample | aws/src/lambda/transcribe/audio_to_transcribe.py:35 | `a b` and `a / b` both give `a_b` |
| JobNames.JobName | aws/src/lambda/transcribe/audio_to_transcribe.py:35 | the job name; stated by JobNames.JobNameSpec |
| JobNames.JobNameSpec | aws/src/lambda/transcribe/audio_to_transcribe.py:35 | the name is the sanitised key, `-`, the uuid, and has only allowed characters when the uuid does |
| SqsBatch.BatchResponse | aws/src/lambda/transcribe/audio_to_transcribe.py:67-69 | `batchItemFailures` is there exactly when some record failed, and lists the failures |
| SqsBatch.MediaUri | aws/src/lambda/transcribe/audio_to_transcribe.py:38 | the media URI; stated by SqsBatch.MediaUriRoundTrip |
| SqsBatch.MediaUriRoundTrip | aws/src/lambda/transcribe/audio_to_transcribe.py:38 | `find_bucket_key` reads the URI back as the same bucket and key |
| StepTrigger.ExecutionFor | aws/src/lambda/transcribe/audio_to_transcribe.py:35-56 | the execution started for one record; stated by StepTrigger.ExecutionSpec |
| StepTrigger.ExecutionSpec | aws/src/lambda/transcribe/audio_to_transcribe.py:35-56 | the name is `ats-` and the job name; the job name is the sanitised key, `-`, the uuid; elapsed time 0; prefix date and `/`; the media URI reads back as the original bucket and key |
| StepTrigger.Started | aws/src/lambda/transcribe/audio_to_transcribe.py:24-57 | no more executions than records |
| StepTrigger.Failures | aws/src/lambda/transcribe/audio_to_transcribe.py:61-64 | no more failures than records |
| StepTrigger.StartedPrefix | aws/src/lambda/transcribe/audio_to_transcribe.py:24 | executions of earlier records come first and are never undone |
| StepTrigger.FailuresPrefix | aws/src/lambda/transcribe/audio_to_transcribe.py:61-64 | failures of earlier records come first |
| StepTrigger.ExecutionStarted | aws/src/lambda/transcribe/audio_to_transcribe.py:24-57 | every readable record gets its execution, after those of earlier records |
| StepTrigger.FailureReported | aws/src/lambda/transcribe/audio_to_transcribe.py:61-64 | every failing record's id is reported after earlier failures, and processing goes on |
| StepTrigger.NoFailuresIff | aws/src/lambda/transcribe/audio_to_transcribe.py:61-69 | no failure is reported exactly when every record was read and accepted |
| StepTrigger.LambdaHandler | aws/src/lambda/transcribe/audio_to_transcribe.py:12-72 | the handler starts the specified executions and returns the response of the specified failures; the response lists no failures exactly when every record was read and its execution accepted |
| TranscribeStarter.RequestFor | aws/src/lambda/audio_to_transcribe.py:41-57 | the job request for one record; stated by TranscribeStarter.RequestSpec |
| TranscribeStarter.RequestSpec | aws/src/lambda/audio_to_transcribe.py:41-57 | speaker labels on, at most 10 speakers, languages identified, output under the date's prefix of `BUCKET`, job name of sanitised key and uuid, and a media URI that reads back as the object |
| TranscribeStarter.Run | aws/src/lambda/audio_to_transcribe.py:32-65 | no more requests than records and no more failures than requests |
| TranscribeStarter.Outcome | aws/src/lambda/audio_to_transcribe.py:67-73 | the invocation raises exactly when a body failed, with that fault; otherwise `batchItemFailures` is there exactly when a start failed |
| TranscribeStarter.RunStops | aws/src/lambda/audio_to_transcribe.py:33-39 | after a raised fault nothing more happens |
| TranscribeStarter.RunAllRead | aws/src/lambda/audio_to_transcribe.py:44-65 | with every body readable, one request per record in order and no failures exactly when every start is accepted |
| TranscribeStarter.RunRaisesAtFirstMalformed | aws/src/lambda/audio_to_transcribe.py:33-39 | the first malformed body raises its fault; the jobs before it stay requested; the failures are lost |
| TranscribeStarter.LambdaHandler | aws/src/lambda/audio_to_transcribe.py:23-73 | the handler makes the specified requests and returns or raises the specified outcome |
| ExportJobs.Keys | aws/src/lambda/export/export_jobs.py:25 | the keys of an item, in order |
| ExportJobs.Lookup | aws/src/lambda/export/export_jobs.py:39 | a value is found exactly when the item has the key |
| ExportJobs.LookupAt | aws/src/lambda/export/export_jobs.py:39 | `item.get(k)` finds the value of the first attribute named `k`, the only one when the keys are distinct |
| ExportJobs.UseKeys | aws/src/lambda/export/export_jobs.py:26-36 | no more columns than keys |
| ExportJobs.UseKeysMembers | aws/src/lambda/export/export_jobs.py:28-36 | a key becomes a column exactly when it is not `PK` |
| ExportJobs.HeaderTitles | aws/src/lambda/export/export_jobs.py:28-37 | one title per column: `Job` for `SK`, the key otherwise |
| ExportJobs.Row | aws/src/lambda/export/export_jobs.py:39 | one cell per column |
| ExportJobs.Rows | aws/src/lambda/export/export_jobs.py:38-39 | one row per item, each one cell per column |
| ExportJobs.Table | aws/src/lambda/export/export_jobs.py:24-41 | the CSV table; stated by ExportJobs.TableShape and ExportJobs.TableCells |
| ExportJobs.Cell | aws/src/lambda/export/export_jobs.py:39 | `item.get(k, "")`; stated by ExportJobs.TableCells |
| ExportJobs.TableShape | aws/src/lambda/export/export_jobs.py:24-41 | no items give `["No records found"]`; otherwise a header and one row per item, all as wide as the header |
| ExportJobs.TableCells | aws/src/lambda/export/export_jobs.py:38-39 | each cell is the item's value under the first item's column key, or `""`; `PK` is never a column |
| ExportJobs.FirstRowComplete | aws/src/lambda/export/export_jobs.py:25-39 | the first item has a value in every column |
| ExportJobs.HeaderAndKeys | aws/src/lambda/export/export_jobs.py:25-37 | the header loop computes the header and the column keys |
| ExportJobs.LambdaHandler | aws/src/lambda/export/export_jobs.py:7-54 | the rows written are the table, and the response reports the number of items |
| Reports.Username | aws/src/cli/reports.py:19 | the username is no longer than the job name |
| Reports.UsernameBeforeUnderscore | aws/src/cli/reports.py:19 | with an `_`, the part before the first one, lowercased |
| Reports.UsernameWhole | aws/src/cli/reports.py:19 | without an `_`, the whole name lowercased |
| Reports.LanguageRows | aws/src/cli/reports.py:20-23 | one row per language |
| Reports.ItemRowsCount | aws/src/cli/reports.py:16-23 | one row per job and language |
| Reports.ReportRow | aws/src/cli/reports.py:17-23 | one CSV row; stated by Reports.LanguageRowsAt |
| Reports.ItemRows | aws/src/cli/reports.py:16-23 | the rows of the first jobs; stated by Reports.ItemRowsCount and Reports.ItemRowsPrefix |
| Reports.LanguageRowsAt | aws/src/cli/reports.py:20-23 | the row of a language repeats the job's fields with that language's code and duration |
| Reports.ItemRowsPrefix | aws/src/cli/reports.py:16-23 | rows of later jobs come after those of earlier ones |
| Reports.Report | aws/src/cli/reports.py:14-23 | the whole report; stated by Reports.ReportRowAt and Reports.FlattenJson |
| Reports.ReportRowAt | aws/src/cli/reports.py:14-23 | header plus one row per job and language; the row of language `j` of job `i` sits after all earlier ones and holds timestamp, job name, username, code and duration |
| Reports.FlattenJson | aws/src/cli/reports.py:12-23 | the nested loops write exactly the report |

## Left out

- I/O is left out. This covers S3, Transcribe, Step Functions, DynamoDB, webhooks, file
  reading and writing, `print`, argparse and `os.path.splitext`. The handlers take the
  outcome of each external call as a parameter (`accepted`). They also take the uuid of
  each record and the module-load date.
- JSON decoding and `unquote_plus` are given. A record body is either the S3 object it
  names or the fault that reading it raised. `event["Records"]` and each `messageId` are
  taken to be present.
- TranscribeStarter.LambdaHandler: the Teams notification on a refused start is left out.
  The model treats it as never raising.
- StepTrigger.LambdaHandler: the `executionArn` read after a start is folded into
  `accepted`.
- Float formatting and rounding are left out. This covers `round`, percentages,
  `{confidence:.0%}` and timedelta's microsecond rounding. Times and confidences are exact
  reals, and string-valued JSON times are taken as numbers. Two effects show:
  - ConfidenceStats.Accuracy: `int(0.57 * 100)` is 56 on doubles (the product is
    56.99999999999999) and 57 on reals.
  - The pause comparisons can differ at their boundaries. At transcribe_to_docx.py:632,
    `1.3 - 1.2 > 0.1` holds on doubles and not on reals. The same holds for the
    `>= START_NEW_SEGMENT_DELAY` tests at lines 512, 563 and 718.
- The document rendering (python-docx), the sentiment and loudness fields of
  `SpeechSegment`, and the module globals are left out.
- Job settings hold a boolean or nothing. Other JSON values under `ChannelIdentification`
  or `ShowSpeakerLabels` are not modelled.
- Segments.MergeSpeakerSegments: it requires distinct input segments. The one call site
  builds them fresh.
- Strings.ParseInt: `int()` is modelled on an optional sign (`-` or `+`) and ASCII digits.
  Python also accepts surrounding whitespace, `_` separators and non-ASCII digits; the model
  refuses them.
- SttParser.Timestamp: `time.gmtime` on values beyond the platform's range is not modelled.
  Every integer maps to its second of the day.
- Reports.Username: `.lower()` is modelled on ASCII letters only.
- Reports.ItemRows: log entries are typed records. In reports.py:16-23 a missing
  `Timestamp`, `TranscriptionJobName` or `LanguageCodes` key of an entry, or a missing
  `LanguageCode` or `DurationInSeconds` key of a language, raises `KeyError`. The model has
  no such input, so that fault is not modelled.
- Missing keys of the recognition results are not modelled. SttParser.SttResult and
  SttParser.SttWord, and Transcript.Item, Transcript.SpeakerGrouping and
  Transcript.AudioSegment, are typed records, so each always has its fields. The
  optional fields stay optional: slots, `Option`s, and the alternatives' `transcript`,
  `confidence` and `redactions`. The source raises `KeyError` on a missing key that
  these records cannot express:
  - in the speech-to-text printer: `results`, `alternatives`, `resultEndTime`,
    `startTime` or `word` (google/sttparser_to_docx.py:38-80);
  - in the speaker, channel and audio-segments modes: an item's or grouping's `type`,
    `start_time`, `end_time`, `alternatives` or `content`
    (transcribe_to_docx.py:557-608, 620-675 and 693-712).
- Transcript.LastMaxIndex: confidences are exact reals, ordered as numbers. Transcribe
  writes them as JSON strings. The source converts them with `float()` only after
  choosing (transcribe_to_docx.py:585 and 651), so `sorted(..., key=lambda x:
  x["confidence"])` at 584 and 650 compares the strings as text. Where the text order
  and the numeric order disagree, the source can choose a different alternative than
  the model. Examples are `"0.5"` against `"0.50"`, and any spelling other than plain
  decimals. This affects the word chosen in speaker mode and channel mode
  (SpeakerMode.SpeakerTurns, ChannelMode.ChannelTurns).
- ExportJobs.Item: attribute values are taken as the strings the CSV writer prints. CSV
  quoting and the S3 upload are left out. An item is a list of attributes, so it can repeat
  a key, which a DynamoDB item cannot; `Lookup` then takes the first (ExportJobs.LookupAt).
- DocxFormat.UrlParse: `urlparse` is modelled as the current CPython `urlsplit` plus
  `_splitparams`, with params split off only for the schemes in `uses_params`, `rtsps`
  included (DocxFormat.UsesParams). Its check that a bracketed host is a valid IPv6 or IPvFuture address,
  and its NFKC check of non-ASCII hosts, are not modelled. Only an unbalanced `[` or `]`
  raises `ValueError`.
- FindBucketKeyHttp: proved for hosts, buckets and keys without tab, CR, LF, `?`, `#` or
  `:`, and hosts without brackets. Those characters change how `urlparse` splits the URL.
- SqsBatch.MediaUriRoundTrip: proved only for buckets without `/` or `:` and keys without
  `:`. `find_bucket_key` removes every `s3://` in the string and splits at the first `/`.

## Findings

| source | as written | input that shows it | evidently intended | confidence | as-written member | corrected member |
|---|---|---|---|---|---|---|
| aws/src/lambda/docx/transcribe_to_docx.py:553 (also 616, 687, and through 993-1001) | each mode reads its substructure without a guard, so a missing or `null` one raises; `generate_document` picks a mode by key, so a key holding `null` raises `TypeError` there too | `{"results": {"speaker_labels": null}}` with speaker mode, `{"results": {}}`, `{"results": null}` | the tests at aws/src/lambda/docx/test.py:33-92 expect `[]` | not executed | Dispatch.TurnByTurnAsWritten (shown by Dispatch.MissingSubstructureRaises), Dispatch.GenerateDocumentAsWritten (shown by Dispatch.GenerateDocumentAsWrittenSpec) | Dispatch.TurnByTurnSegments (proved by Dispatch.MissingSubstructureGivesNothing), Dispatch.GenerateDocumentSegments (proved by Dispatch.GenerateDocumentSpec) |
