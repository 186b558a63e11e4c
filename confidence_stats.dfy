/** `generate_confidence_stats`: one pass over the words of every segment, in segment
    then word order, collecting each word's start time and truncated percentage, and
    counting the words per confidence bucket. */
module ConfidenceStats {
  import opened Transcript
  import opened Turns
  import opened Segments
  import Builders

  /** The lower bounds of the ten upper buckets, highest first; a confidence below all
      of them falls in the eleventh bucket. */
  const Thresholds: seq<real> := [0.98, 0.9, 0.8, 0.7, 0.6, 0.5, 0.4, 0.3, 0.2, 0.1]

  /** The keys of the buckets in the statistics dictionary, in the same order. */
  const BucketKeys: seq<string> := ["9.8", "9", "8", "7", "6", "5", "4", "3", "2", "1", "0"]

  const BucketCount: nat := 11

  /** The statistics dictionary: `timestamps`, `accuracy`, the bucket counters in the
      order of `BucketKeys`, and `parsedWords`. */
  datatype Stats = Stats(timestamps: seq<real>, accuracy: seq<int>, buckets: seq<nat>, parsedWords: nat)

  /** The bucket of a confidence: the first threshold it reaches, or the last bucket
      when it reaches none. */
  function BucketOf(conf: real): (b: nat)
    ensures b < BucketCount
    ensures b < |Thresholds| ==> conf >= Thresholds[b]
    ensures forall k :: 0 <= k < b && k < |Thresholds| ==> conf < Thresholds[k]
  {
    if conf >= 0.98 then 0
    else if conf >= 0.9 then 1
    else if conf >= 0.8 then 2
    else if conf >= 0.7 then 3
    else if conf >= 0.6 then 4
    else if conf >= 0.5 then 5
    else if conf >= 0.4 then 6
    else if conf >= 0.3 then 7
    else if conf >= 0.2 then 8
    else if conf >= 0.1 then 9
    else 10
  }

  /** Python's `int` of a number: truncation toward zero. */
  function TruncateToInt(x: real): (r: int)
    ensures x >= 0.0 ==> r as real <= x < r as real + 1.0
    ensures x < 0.0 ==> r as real - 1.0 < x <= r as real
  {
    if x >= 0.0 then x.Floor else -((-x).Floor)
  }

  /** The accuracy recorded for a confidence: the truncated percentage. */
  function Accuracy(conf: real): int
  {
    TruncateToInt(conf * 100.0)
  }

  /** A confidence between 0 and 1 gives an accuracy between 0 and 100, and exactly 100
      only for a confidence of 1. */
  lemma AccuracyBounds(conf: real)
    requires 0.0 <= conf <= 1.0
    ensures 0 <= Accuracy(conf) <= 100
    ensures Accuracy(conf) == 100 <==> conf == 1.0
  {
  }

  /** The number of words of `ws` whose confidence falls in bucket `b`. */
  function Count(ws: seq<Word>, b: nat): nat
  {
    if ws == [] then 0
    else Count(ws[..|ws| - 1], b) + (if BucketOf(Last(ws).confidence) == b then 1 else 0)
  }

  /** The bucket counters of `ws`, one per bucket. */
  function Counts(ws: seq<Word>): (r: seq<nat>)
    ensures |r| == BucketCount
  {
    seq(BucketCount, b requires 0 <= b => Count(ws, b))
  }

  function Sum(s: seq<nat>): nat
  {
    if s == [] then 0 else Sum(s[..|s| - 1]) + Last(s)
  }

  /** Adding one to an entry adds one to the sum. */
  lemma {:induction false} SumIncrement(s: seq<nat>, i: nat)
    requires i < |s|
    ensures Sum(s[i := s[i] + 1]) == Sum(s) + 1
    decreases |s|
  {
    var t := s[i := s[i] + 1];
    if i < |s| - 1 {
      assert t[..|t| - 1] == s[..|s| - 1][i := s[i] + 1];
      SumIncrement(s[..|s| - 1], i);
    } else {
      assert t[..|t| - 1] == s[..|s| - 1];
    }
  }

  lemma {:induction false} SumZero(s: seq<nat>)
    requires forall k :: 0 <= k < |s| ==> s[k] == 0
    ensures Sum(s) == 0
    decreases |s|
  {
    if s != [] {
      SumZero(s[..|s| - 1]);
    }
  }

  /** One more word adds one to its own bucket and leaves the others alone. */
  lemma CountsSnoc(ws: seq<Word>, w: Word)
    ensures Counts(ws + [w]) == Counts(ws)[BucketOf(w.confidence) := Counts(ws)[BucketOf(w.confidence)] + 1]
  {
    assert (ws + [w])[..|ws|] == ws;
  }

  /** Every word falls in exactly one bucket: the counters add up to the number of
      words. */
  lemma {:induction false} CountsSum(ws: seq<Word>)
    ensures Sum(Counts(ws)) == |ws|
    decreases |ws|
  {
    if ws == [] {
      SumZero(Counts(ws));
    } else {
      var front := ws[..|ws| - 1];
      CountsSum(front);
      assert front + [Last(ws)] == ws;
      CountsSnoc(front, Last(ws));
      SumIncrement(Counts(front), BucketOf(Last(ws).confidence));
    }
  }

  /** The statistics describe exactly the words `seen`: one timestamp and one accuracy
      per word, in order, `parsedWords` their number, and each counter the number of
      words in its bucket. */
  predicate Tallied(seen: seq<Word>, stats: Stats)
  {
    && stats.parsedWords == |seen|
    && |stats.timestamps| == |seen| && |stats.accuracy| == |seen|
    && (forall k :: 0 <= k < |seen| ==> stats.timestamps[k] == seen[k].startTime)
    && (forall k :: 0 <= k < |seen| ==> stats.accuracy[k] == Accuracy(seen[k].confidence))
    && stats.buckets == Counts(seen)
  }

  /** One word: its start time and truncated percentage are appended, the counter of
      the first threshold its confidence reaches goes up by one, and so does
      `parsedWords`. */
  method TallyWord(stats: Stats, ghost seen: seq<Word>, word: Word) returns (stats': Stats)
    requires Tallied(seen, stats)
    ensures Tallied(seen + [word], stats')
  {
    var b;
    if word.confidence >= 0.98 {
      b := 0;
    } else if word.confidence >= 0.9 {
      b := 1;
    } else if word.confidence >= 0.8 {
      b := 2;
    } else if word.confidence >= 0.7 {
      b := 3;
    } else if word.confidence >= 0.6 {
      b := 4;
    } else if word.confidence >= 0.5 {
      b := 5;
    } else if word.confidence >= 0.4 {
      b := 6;
    } else if word.confidence >= 0.3 {
      b := 7;
    } else if word.confidence >= 0.2 {
      b := 8;
    } else if word.confidence >= 0.1 {
      b := 9;
    } else {
      b := 10;
    }
    CountsSnoc(seen, word);
    stats' := stats.(timestamps := stats.timestamps + [word.startTime],
                     accuracy := stats.accuracy + [TruncateToInt(word.confidence * 100.0)],
                     buckets := stats.buckets[b := stats.buckets[b] + 1],
                     parsedWords := stats.parsedWords + 1);
  }

  /** The inner loop: the words of one segment, in the order of its word list. */
  method TallySegment(stats: Stats, ghost seen: seq<Word>, words: seq<Word>) returns (stats': Stats)
    requires Tallied(seen, stats)
    ensures Tallied(seen + words, stats')
  {
    stats' := stats;
    var j := 0;
    assert seen + words[..0] == seen;
    while j < |words|
      invariant j <= |words|
      invariant Tallied(seen + words[..j], stats')
    {
      assert seen + words[..j + 1] == seen + words[..j] + [words[j]];
      stats' := TallyWord(stats', seen + words[..j], words[j]);
      j := j + 1;
    }
    assert words[..j] == words;
  }

  /** The words of the segments up to one more segment. */
  lemma AllWordsViewsSnoc(segments: seq<SpeechSegment>, i: nat)
    requires i < |segments|
    ensures AllWords(Views(segments[..i + 1])) == AllWords(Views(segments[..i])) + segments[i].words
  {
    Builders.ViewsSnoc(segments[..i], segments[i]);
    assert segments[..i + 1] == segments[..i] + [segments[i]];
    assert (Views(segments[..i]) + [segments[i].View()])[..i] == Views(segments[..i]);
  }

  /** Before any segment, nothing has been tallied. */
  lemma NothingTallied(segments: seq<SpeechSegment>)
    ensures Tallied(AllWords(Views(segments[..0])), Stats([], [], seq(BucketCount, _ => 0), 0))
  {
    assert segments[..0] == [];
    assert Counts([]) == seq(BucketCount, _ => 0);
  }

  /** The statistics of all words, in order over all segments and within a segment in
      the order of its word list: timestamps and accuracies line up with them, the
      counters count them per bucket and add up to `parsedWords`. */
  method GenerateConfidenceStats(segments: seq<SpeechSegment>) returns (stats: Stats)
    ensures Tallied(AllWords(Views(segments)), stats)
    ensures |stats.buckets| == |BucketKeys| && Sum(stats.buckets) == stats.parsedWords
  {
    stats := Stats([], [], seq(BucketCount, _ => 0), 0);
    var i := 0;
    NothingTallied(segments);
    while i < |segments|
      invariant i <= |segments|
      invariant Tallied(AllWords(Views(segments[..i])), stats)
    {
      AllWordsViewsSnoc(segments, i);
      stats := TallySegment(stats, AllWords(Views(segments[..i])), segments[i].words);
      i := i + 1;
    }
    assert segments[..i] == segments;
    CountsSum(AllWords(Views(segments)));
  }
}
