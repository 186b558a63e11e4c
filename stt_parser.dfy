/** The speech-to-text response printer: the `timestamp` helper that renders a
    duration string such as `"12.345s"`, and `print_transcript`, which prints either
    one paragraph per run of words of one speaker (of the last result only) or one
    entry per result with a transcript. What would be printed is returned instead. */
module SttParser {
  import opened Wrappers
  import opened Strings
  import opened Clock

  // ---------------------------------------------------------------------------------
  // timestamp

  /** `timestamp`: without a `.`, the last character (the unit) is dropped and the rest
      read as whole seconds; with one, the text before the first `.` is read as whole
      seconds and at most three characters of the text after it are kept. The whole
      seconds are rendered `HH:MM:SS` of their second within the day; `int()`
      rejecting the text raises `ValueError`. */
  function Timestamp(seconds: string): (r: Result<string>)
    ensures r.Ok? ==> |r.value| >= 8 && WellFormedClock(r.value[..8])
    ensures r.Ok? && '.' !in seconds ==> |r.value| == 8
    ensures r.Ok? && '.' in seconds ==> 9 <= |r.value| <= 12 && r.value[8] == '.'
  {
    if '.' !in seconds then
      var whole := if seconds == [] then [] else seconds[..|seconds| - 1];
      match ParseInt(whole)
      case None => Err(ValueError)
      case Some(n) =>
        var clock := HhMmSs(SecondOfDay(n));
        assert clock[..8] == clock;
        Ok(clock)
    else
      SplitAtSeparator(seconds, '.');
      var x := Split(seconds, '.');
      match ParseInt(x[0])
      case None => Err(ValueError)
      case Some(n) =>
        var clock := HhMmSs(SecondOfDay(n));
        var r := clock + "." + Take(x[1], 3);
        assert r[..8] == clock;
        Ok(r)
  }

  /** A string holding the separator splits into at least two pieces. */
  lemma SplitAtSeparator(s: string, c: char)
    requires c in s
    ensures |Split(s, c)| >= 2
  {
    var halves := SplitOnce(s, c);
    SplitAtFirst(halves.0, c, halves.1);
  }

  /** Splitting at the only separator gives the two sides. */
  lemma SplitTwo(a: string, c: char, b: string)
    requires c !in a && c !in b
    ensures Split(a + [c] + b, c) == [a, b]
  {
    SplitAtFirst(a, c, b);
    SplitWithout(b, c);
  }

  /** Whole seconds followed by a unit: the clock of those seconds. */
  lemma TimestampWhole(digits: string, unit: char)
    requires |digits| >= 1 && AllDigits(digits) && unit != '.'
    ensures Timestamp(digits + [unit]) == Ok(HhMmSs(SecondOfDay(DigitsValue(digits))))
  {
    var s := digits + [unit];
    assert s[..|s| - 1] == digits;
    assert forall i :: 0 <= i < |s| ==> s[i] != '.' by {
      assert forall i :: 0 <= i < |digits| ==> s[i] == digits[i];
    }
    assert '.' !in s;
    ParseIntOfDigits(digits);
  }

  /** Whole seconds, a `.`, and a fraction (with its unit) free of further dots: the
      clock, a `.`, and the first three characters of the fraction. */
  lemma TimestampFraction(digits: string, fraction: string)
    requires |digits| >= 1 && AllDigits(digits) && '.' !in fraction
    ensures Timestamp(digits + "." + fraction)
         == Ok(HhMmSs(SecondOfDay(DigitsValue(digits))) + "." + Take(fraction, 3))
  {
    var s := digits + "." + fraction;
    assert s == digits + ['.'] + fraction;
    assert '.' !in digits by {
      assert forall i :: 0 <= i < |digits| ==> IsDigit(digits[i]);
    }
    assert s[|digits|] == '.';
    SplitTwo(digits, '.', fraction);
    ParseIntOfDigits(digits);
  }

  lemma ClockOf75()
    ensures HhMmSs(SecondOfDay(75)) == "00:01:15"
  {
    HhMmSsOf(0, 1, 15);
    assert SecondOfDay(75) == 75;
    assert DigitChar(0) == '0' && DigitChar(1) == '1' && DigitChar(5) == '5';
  }

  /** A long fraction is cut to three characters, not rounded. */
  lemma TimestampLongFractionExample()
    ensures Timestamp("75" + "." + "123456s") == Ok("00:01:15" + "." + "123")
  {
    TimestampFraction("75", "123456s");
    assert DigitsValue("75") == 75 by {
      assert "75"[..1] == "7";
    }
    ClockOf75();
    assert Take("123456s", 3) == "123";
  }

  /** A unit alone is no number. */
  lemma TimestampNoDigitsExample()
    ensures Timestamp("s") == Err(ValueError)
  {
    assert "s"[..0] == [];
  }

  // ---------------------------------------------------------------------------------
  // The response

  /** A word of the best alternative; `speakerTag` is there only with diarization. */
  datatype SttWord = SttWord(speakerTag: Option<int>, word: string, startTime: string)

  /** An alternative of a result; `transcript`, `confidence` and `words` may be missing,
      and `transcript` may be `null`. */
  datatype SttAlternative = SttAlternative(transcript: Slot<string>, confidence: Option<real>, words: Option<seq<SttWord>>)

  datatype SttResult = SttResult(alternatives: seq<SttAlternative>, resultEndTime: string)

  datatype Response = Response(results: seq<SttResult>)

  /** How printing ends: normally, with an exception, or by `exit()` after the
      diarization message. */
  datatype Ending = Finished | Raised(fault: Fault) | Exited

  // ---------------------------------------------------------------------------------
  // Speaker paragraphs

  /** A paragraph as printed: the timestamp, the speaker tag and the words joined by
      single spaces. */
  datatype Paragraph = Paragraph(timestamp: string, speaker: int, text: string)

  /** A maximal run of consecutive words of one speaker. */
  datatype Run = Run(speaker: int, words: seq<SttWord>)

  predicate Tagged(ws: seq<SttWord>)
  {
    forall i :: 0 <= i < |ws| ==> ws[i].speakerTag.Some?
  }

  /** The number of leading words that carry a speaker tag. */
  function TaggedPrefix(ws: seq<SttWord>): (k: nat)
    ensures k <= |ws| && Tagged(ws[..k])
    ensures k < |ws| ==> ws[k].speakerTag.None?
  {
    if ws == [] then 0
    else if ws[0].speakerTag.None? then 0
    else
      var k := 1 + TaggedPrefix(ws[1..]);
      assert forall i :: 1 <= i < k ==> ws[..k][i] == ws[1..][..k - 1][i - 1];
      k
  }

  /** The words cut into runs of one speaker, each as long as it can be. */
  function Runs(ws: seq<SttWord>): (rs: seq<Run>)
    requires Tagged(ws)
    ensures forall k :: 0 <= k < |rs| ==> rs[k].words != []
    ensures ws != [] <==> rs != []
  {
    if ws == [] then []
    else
      assert Tagged(ws[..|ws| - 1]);
      var rs := Runs(ws[..|ws| - 1]);
      var w := ws[|ws| - 1];
      if rs != [] && rs[|rs| - 1].speaker == w.speakerTag.value then
        rs[|rs| - 1 := rs[|rs| - 1].(words := rs[|rs| - 1].words + [w])]
      else rs + [Run(w.speakerTag.value, [w])]
  }

  function DropLast<T>(s: seq<T>): seq<T>
  {
    if s == [] then [] else s[..|s| - 1]
  }

  function Flatten(rs: seq<Run>): seq<SttWord>
  {
    if rs == [] then [] else Flatten(rs[..|rs| - 1]) + rs[|rs| - 1].words
  }

  /** The runs of one more word: the last run grows when the word has its speaker,
      otherwise a run of that word alone is added. */
  lemma RunsSnoc(ws: seq<SttWord>, i: nat)
    requires i < |ws| && Tagged(ws[..i + 1])
    ensures Tagged(ws[..i])
    ensures var rs := Runs(ws[..i]);
      var w := ws[i];
      Runs(ws[..i + 1])
        == if rs != [] && rs[|rs| - 1].speaker == w.speakerTag.value
           then rs[|rs| - 1 := rs[|rs| - 1].(words := rs[|rs| - 1].words + [w])]
           else rs + [Run(w.speakerTag.value, [w])]
  {
    assert ws[..i + 1][..i] == ws[..i];
    assert forall j :: 0 <= j < i ==> ws[..i][j] == ws[..i + 1][j];
  }

  /** Every word of a run carries the run's speaker, and neighbouring runs have
      different speakers. */
  predicate MaximalRuns(rs: seq<Run>)
  {
    && (forall k, j :: 0 <= k < |rs| && 0 <= j < |rs[k].words| ==> rs[k].words[j].speakerTag == Some(rs[k].speaker))
    && (forall k :: 0 < k < |rs| ==> rs[k - 1].speaker != rs[k].speaker)
  }

  /** A word of the last run's speaker extends that run. */
  lemma GrowLastRun(rs: seq<Run>, w: SttWord)
    requires rs != [] && MaximalRuns(rs) && w.speakerTag == Some(rs[|rs| - 1].speaker)
    ensures var r := rs[|rs| - 1 := rs[|rs| - 1].(words := rs[|rs| - 1].words + [w])];
      Flatten(r) == Flatten(rs) + [w] && MaximalRuns(r)
  {
    var r := rs[|rs| - 1 := rs[|rs| - 1].(words := rs[|rs| - 1].words + [w])];
    assert r[..|r| - 1] == rs[..|rs| - 1];
    forall k, j | 0 <= k < |r| && 0 <= j < |r[k].words|
      ensures r[k].words[j].speakerTag == Some(r[k].speaker)
    {
      if k == |r| - 1 && j == |r[k].words| - 1 {
        assert r[k].words[j] == w;
      } else {
        assert r[k].words[j] == rs[k].words[j];
      }
    }
  }

  /** A word of another speaker starts a run of its own. */
  lemma StartRun(rs: seq<Run>, w: SttWord)
    requires MaximalRuns(rs) && w.speakerTag.Some?
    requires rs != [] ==> rs[|rs| - 1].speaker != w.speakerTag.value
    ensures var r := rs + [Run(w.speakerTag.value, [w])];
      Flatten(r) == Flatten(rs) + [w] && MaximalRuns(r)
  {
    var r := rs + [Run(w.speakerTag.value, [w])];
    assert r[..|r| - 1] == rs;
    MaximalSnoc(rs, Run(w.speakerTag.value, [w]));
  }

  /** A run of one speaker whose speaker differs from the last run's keeps the runs
      maximal. */
  lemma MaximalSnoc(rs: seq<Run>, run: Run)
    requires MaximalRuns(rs)
    requires forall j :: 0 <= j < |run.words| ==> run.words[j].speakerTag == Some(run.speaker)
    requires rs != [] ==> rs[|rs| - 1].speaker != run.speaker
    ensures MaximalRuns(rs + [run])
  {
    var r := rs + [run];
    forall k, j | 0 <= k < |r| && 0 <= j < |r[k].words|
      ensures r[k].words[j].speakerTag == Some(r[k].speaker)
    {
      if k < |rs| {
        assert r[k] == rs[k];
      } else {
        assert r[k] == run;
      }
    }
    forall k | 0 < k < |r|
      ensures r[k - 1].speaker != r[k].speaker
    {
      assert r[k - 1] == rs[k - 1];
      if k < |rs| {
        assert r[k] == rs[k];
      } else {
        assert r[k] == run;
      }
    }
  }

  /** The runs are the maximal one-speaker runs of the words: together they are the
      words in order, every word of a run carries the run's speaker, and neighbouring
      runs have different speakers. */
  lemma {:induction false} RunsSpec(ws: seq<SttWord>)
    requires Tagged(ws)
    ensures Flatten(Runs(ws)) == ws && MaximalRuns(Runs(ws))
    decreases |ws|
  {
    if ws != [] {
      var front := ws[..|ws| - 1];
      assert Tagged(front);
      RunsSpec(front);
      var rs := Runs(front);
      var w := ws[|ws| - 1];
      assert front + [w] == ws;
      if rs != [] && rs[|rs| - 1].speaker == w.speakerTag.value {
        GrowLastRun(rs, w);
      } else {
        StartRun(rs, w);
      }
    }
  }

  /** The texts of the words, in order. */
  function WordTexts(ws: seq<SttWord>): (r: seq<string>)
    ensures |r| == |ws| && forall i :: 0 <= i < |ws| ==> r[i] == ws[i].word
  {
    if ws == [] then [] else WordTexts(ws[..|ws| - 1]) + [ws[|ws| - 1].word]
  }

  /** The paragraphs of a list of runs, in order, up to the first run whose timestamp
      raises. */
  function Paragraphs(rs: seq<Run>): (r: (seq<Paragraph>, Option<Fault>))
    requires forall k :: 0 <= k < |rs| ==> rs[k].words != []
    ensures |r.0| <= |rs|
    ensures r.1.None? ==> |r.0| == |rs|
  {
    if rs == [] then ([], None)
    else
      var before := Paragraphs(rs[..|rs| - 1]);
      if before.1.Some? then before
      else PrintRun(before.0, rs[|rs| - 1])
  }

  /** One more run printed after `printed`: its paragraph, or the fault its
      timestamp raises. */
  function PrintRun(printed: seq<Paragraph>, run: Run): (r: (seq<Paragraph>, Option<Fault>))
    requires run.words != []
  {
    match Timestamp(run.words[0].startTime)
    case Err(e) => (printed, Some(e))
    case Ok(t) => (printed + [Paragraph(t, run.speaker, Join(WordTexts(run.words), ' '))], None)
  }

  /** Once the paragraphs of some runs raise, more runs change nothing. */
  lemma {:induction false} ParagraphsErrorStays(rs: seq<Run>, n: nat)
    requires forall k :: 0 <= k < |rs| ==> rs[k].words != []
    requires n <= |rs| && Paragraphs(rs[..n]).1.Some?
    ensures Paragraphs(rs) == Paragraphs(rs[..n])
    decreases |rs| - n
  {
    if n < |rs| {
      var front := rs[..|rs| - 1];
      assert front[..n] == rs[..n];
      if n < |front| {
        ParagraphsErrorStays(front, n);
      } else {
        assert front == rs[..n];
      }
    } else {
      assert rs[..n] == rs;
    }
  }

  /** All runs but the last of a prefix of the words are also runs of the whole. */
  lemma {:induction false} RunsStable(ws: seq<SttWord>, n: nat)
    requires Tagged(ws) && n <= |ws|
    ensures Tagged(ws[..n])
    ensures var early := DropLast(Runs(ws[..n]));
      var late := DropLast(Runs(ws));
      |early| <= |late| && late[..|early|] == early
    decreases |ws| - n
  {
    assert forall j :: 0 <= j < n ==> ws[..n][j] == ws[j];
    if n < |ws| {
      var front := ws[..|ws| - 1];
      assert Tagged(front);
      assert front[..n] == ws[..n];
      RunsStable(front, n);
      assert ws[..|ws|] == ws;
      RunsSnoc(ws, |ws| - 1);
      assert ws[..|ws| - 1] == front;
    } else {
      assert ws[..n] == ws;
    }
  }

  /** What the speaker path prints for the words of the last result: `exit()` when
      there is no first word or it has no speaker tag; otherwise the paragraphs of all
      runs but the last, within the words up to the first one without a tag, which
      raises `KeyError`. The last run is never printed. */
  function SpeakerOutput(words: seq<SttWord>): (seq<Paragraph>, Ending)
  {
    if words == [] || words[0].speakerTag.None? then ([], Exited)
    else
      var k := TaggedPrefix(words);
      var ps := Paragraphs(DropLast(Runs(words[..k])));
      (ps.0, if ps.1.Some? then Raised(ps.1.value) else if k < |words| then Raised(KeyError("speakerTag")) else Finished)
  }

  /** `p` is the paragraph printed for the run: the timestamp of the run's first
      word, its speaker and its words joined by single spaces. */
  predicate PrintedAs(p: Paragraph, run: Run)
    requires run.words != []
  {
    Timestamp(run.words[0].startTime) == Ok(p.timestamp)
    && p.speaker == run.speaker && p.text == Join(WordTexts(run.words), ' ')
  }

  /** Paragraphs that all went through: one per run, in order. */
  lemma {:induction false} ParagraphsSpec(rs: seq<Run>)
    requires forall k :: 0 <= k < |rs| ==> rs[k].words != []
    ensures var out := Paragraphs(rs);
      out.1.None? ==> forall k :: 0 <= k < |rs| ==> PrintedAs(out.0[k], rs[k])
    decreases |rs|
  {
    if rs != [] {
      var front := rs[..|rs| - 1];
      ParagraphsSpec(front);
      var out := Paragraphs(rs);
      var before := Paragraphs(front);
      var run := rs[|rs| - 1];
      if out.1.None? {
        assert before.1.None?;
        var t := Timestamp(run.words[0].startTime);
        assert t.Ok?;
        var p := Paragraph(t.value, run.speaker, Join(WordTexts(run.words), ' '));
        assert out.0 == before.0 + [p];
        assert PrintedAs(p, run);
        forall k | 0 <= k < |rs|
          ensures PrintedAs(out.0[k], rs[k])
        {
          if k < |front| {
            assert rs[k] == front[k] && out.0[k] == before.0[k];
          }
        }
      }
    }
  }

  /** With every word tagged and nothing raised, every run but the last is printed,
      in order, and the last run never is. */
  lemma LastRunNeverPrinted(words: seq<SttWord>)
    requires words != [] && Tagged(words)
    requires SpeakerOutput(words).1 == Finished
    ensures var rs := Runs(words);
      var printed := SpeakerOutput(words).0;
      && |printed| == |rs| - 1
      && forall k :: 0 <= k < |rs| - 1 ==> PrintedAs(printed[k], rs[k])
  {
    assert words[..|words|] == words;
    var k := TaggedPrefix(words);
    assert k == |words|;
    var rs := Runs(words);
    ParagraphsSpec(DropLast(rs));
  }

  /** The state of the speaker loop after the words `words[..i]`: the current speaker,
      timestamp and words are those of the last run, and the paragraphs of the other
      runs have been printed. */
  ghost predicate SpeakerLoopState(words: seq<SttWord>, i: nat, printed: seq<Paragraph>,
                                   currentSpeaker: int, currentTs: string, currentWords: seq<string>)
    requires 1 <= i <= |words| && Tagged(words[..i])
  {
    RunState(Runs(words[..i]), printed, currentSpeaker, currentTs, currentWords)
  }

  /** The loop state for some runs: the current speaker, timestamp and words are
      those of the last run, and the paragraphs of the other runs have been printed. */
  predicate RunState(rs: seq<Run>, printed: seq<Paragraph>,
                     currentSpeaker: int, currentTs: string, currentWords: seq<string>)
    requires forall k :: 0 <= k < |rs| ==> rs[k].words != []
  {
    && rs != []
    && currentSpeaker == rs[|rs| - 1].speaker
    && currentTs == rs[|rs| - 1].words[0].startTime
    && currentWords == WordTexts(rs[|rs| - 1].words)
    && Paragraphs(DropLast(rs)) == (printed, None)
  }

  /** A timestamp that raises when the run of `words[..i]` is closed ends the output. */
  lemma SpeakerRaisedAt(words: seq<SttWord>, i: nat, printed: seq<Paragraph>,
                        currentSpeaker: int, currentTs: string, currentWords: seq<string>, e: Fault)
    requires 1 <= i < |words| && Tagged(words[..i + 1])
    requires Tagged(words[..i]) && SpeakerLoopState(words, i, printed, currentSpeaker, currentTs, currentWords)
    requires words[i].speakerTag.value != currentSpeaker && Timestamp(currentTs) == Err(e)
    ensures words[0].speakerTag.Some? && SpeakerOutput(words) == (printed, Raised(e))
  {
    var rs := Runs(words[..i]);
    RunsSnoc(words, i);
    var late := ClosedRunsReachOutput(words, i + 1);
    assert DropLast(Runs(words[..i + 1])) == rs;
    ParagraphsLast(rs);
    ParagraphsErrorStays(late, |rs|);
  }

  /** The runs closed after the first `n` words, all tagged, are the first runs that
      the output closes. */
  lemma ClosedRunsReachOutput(words: seq<SttWord>, n: nat) returns (late: seq<Run>)
    requires 1 <= n <= |words| && Tagged(words[..n])
    ensures words[0].speakerTag.Some?
    ensures late == DropLast(Runs(words[..TaggedPrefix(words)]))
    ensures forall k :: 0 <= k < |late| ==> late[k].words != []
    ensures var early := DropLast(Runs(words[..n])); |early| <= |late| && late[..|early|] == early
  {
    assert words[..n][0] == words[0];
    assert forall j :: 0 <= j < n ==> words[j].speakerTag.Some? by {
      assert forall j :: 0 <= j < n ==> words[..n][j] == words[j];
    }
    var k := TaggedPrefix(words);
    assert k >= n;
    assert Tagged(words[..k][..n]) && words[..k][..n] == words[..n];
    RunsStable(words[..k], n);
    late := DropLast(Runs(words[..k]));
  }

  /** The paragraphs of some runs: those of all runs but the last, then the last
      run printed unless something was raised before it. */
  lemma ParagraphsLast(rs: seq<Run>)
    requires rs != [] && forall k :: 0 <= k < |rs| ==> rs[k].words != []
    ensures var before := Paragraphs(DropLast(rs));
      Paragraphs(rs) == if before.1.Some? then before else PrintRun(before.0, rs[|rs| - 1])
  {
    assert rs[..|rs| - 1] == DropLast(rs);
  }

  /** A word without a speaker tag ends the output with `KeyError`. */
  lemma SpeakerUntaggedAt(words: seq<SttWord>, i: nat, printed: seq<Paragraph>,
                          currentSpeaker: int, currentTs: string, currentWords: seq<string>)
    requires 1 <= i < |words| && Tagged(words[..i]) && words[i].speakerTag.None?
    requires SpeakerLoopState(words, i, printed, currentSpeaker, currentTs, currentWords)
    ensures SpeakerOutput(words) == (printed, Raised(KeyError("speakerTag")))
  {
    assert words[..i][0] == words[0];
    assert forall j :: 0 <= j < i ==> words[j].speakerTag.Some? by {
      assert forall j :: 0 <= j < i ==> words[..i][j] == words[j];
    }
    var k := TaggedPrefix(words);
    assert k == i;
  }

  /** The first word opens the first run. */
  lemma SpeakerFirstWord(words: seq<SttWord>)
    requires words != [] && words[0].speakerTag.Some?
    ensures Tagged(words[..1])
    ensures SpeakerLoopState(words, 1, [], words[0].speakerTag.value, words[0].startTime, [words[0].word])
  {
    assert words[..1] == [words[0]];
    assert words[..1][..0] == [];
  }

  /** A word of the current speaker joins the current run. */
  lemma SpeakerSameWord(words: seq<SttWord>, i: nat, printed: seq<Paragraph>,
                        currentSpeaker: int, currentTs: string, currentWords: seq<string>)
    requires 1 <= i < |words| && Tagged(words[..i]) && Tagged(words[..i + 1])
    requires SpeakerLoopState(words, i, printed, currentSpeaker, currentTs, currentWords)
    requires words[i].speakerTag == Some(currentSpeaker)
    ensures SpeakerLoopState(words, i + 1, printed, currentSpeaker, currentTs, currentWords + [words[i].word])
  {
    RunsSnoc(words, i);
    var rs := Runs(words[..i]);
    GrowRunState(rs, words[i], printed, currentSpeaker, currentTs, currentWords);
  }

  /** The loop state after the last run grew by one word. */
  lemma GrowRunState(rs: seq<Run>, w: SttWord, printed: seq<Paragraph>,
                     currentSpeaker: int, currentTs: string, currentWords: seq<string>)
    requires forall k :: 0 <= k < |rs| ==> rs[k].words != []
    requires RunState(rs, printed, currentSpeaker, currentTs, currentWords)
    ensures var grown := rs[|rs| - 1 := rs[|rs| - 1].(words := rs[|rs| - 1].words + [w])];
      RunState(grown, printed, currentSpeaker, currentTs, currentWords + [w.word])
  {
    var last := rs[|rs| - 1];
    var g := last.(words := last.words + [w]);
    DropLastOfUpdate(rs, g);
    assert WordTexts(g.words) == WordTexts(last.words) + [w.word];
    assert g.words[0] == last.words[0];
  }

  lemma DropLastOfUpdate<T>(s: seq<T>, x: T)
    requires s != []
    ensures DropLast(s[|s| - 1 := x]) == DropLast(s) && s[|s| - 1 := x][|s| - 1] == x
  {
    assert s[|s| - 1 := x][..|s| - 1] == s[..|s| - 1];
  }

  /** A word of another speaker, with the current timestamp readable, prints the
      current run and opens a run of its own. */
  lemma SpeakerNewRun(words: seq<SttWord>, i: nat, printed: seq<Paragraph>,
                      currentSpeaker: int, currentTs: string, currentWords: seq<string>)
    requires 1 <= i < |words| && Tagged(words[..i]) && Tagged(words[..i + 1])
    requires SpeakerLoopState(words, i, printed, currentSpeaker, currentTs, currentWords)
    requires words[i].speakerTag.Some? && words[i].speakerTag.value != currentSpeaker
    requires Timestamp(currentTs).Ok?
    ensures SpeakerLoopState(words, i + 1, printed + [Paragraph(Timestamp(currentTs).value, currentSpeaker, Join(currentWords, ' '))],
                             words[i].speakerTag.value, words[i].startTime, [words[i].word])
  {
    RunsSnoc(words, i);
    var rs := Runs(words[..i]);
    var r := Runs(words[..i + 1]);
    assert r == rs + [Run(words[i].speakerTag.value, [words[i]])];
    assert DropLast(r) == rs;
    ParagraphsLast(rs);
    assert WordTexts([words[i]]) == [words[i].word];
  }

  /** A tagged word after tagged words leaves them all tagged. */
  lemma TaggedSnoc(words: seq<SttWord>, i: nat)
    requires i < |words| && Tagged(words[..i]) && words[i].speakerTag.Some?
    ensures Tagged(words[..i + 1])
  {
    var front, ws := words[..i], words[..i + 1];
    forall j | 0 <= j < |ws|
      ensures ws[j].speakerTag.Some?
    {
      if j < i {
        assert ws[j] == front[j];
      }
    }
  }

  /** After the last word, the paragraphs of all runs but the last have been printed. */
  lemma SpeakerAllWords(words: seq<SttWord>, printed: seq<Paragraph>,
                        currentSpeaker: int, currentTs: string, currentWords: seq<string>)
    requires 1 <= |words| && Tagged(words[..|words|])
    requires SpeakerLoopState(words, |words|, printed, currentSpeaker, currentTs, currentWords)
    ensures SpeakerOutput(words) == (printed, Finished)
  {
    assert words[..|words|] == words;
    assert words[0] == words[..|words|][0];
    assert TaggedPrefix(words) == |words|;
  }

  /** One word of the speaker loop: `done` is how printing ends when this word ends
      it; otherwise the loop state moves on to the next word. */
  method SpeakerWordStep(words: seq<SttWord>, i: nat, printed: seq<Paragraph>,
                         currentSpeaker: int, currentTs: string, currentWords: seq<string>)
    returns (done: Option<Ending>, printed': seq<Paragraph>,
             currentSpeaker': int, currentTs': string, currentWords': seq<string>)
    requires 1 <= i < |words| && Tagged(words[..i])
    requires SpeakerLoopState(words, i, printed, currentSpeaker, currentTs, currentWords)
    ensures done.Some? ==> SpeakerOutput(words) == (printed', done.value)
    ensures done.None? ==> Tagged(words[..i + 1])
    ensures done.None? ==> SpeakerLoopState(words, i + 1, printed', currentSpeaker', currentTs', currentWords')
  {
    var word := words[i];
    if word.speakerTag.None? {
      SpeakerUntaggedAt(words, i, printed, currentSpeaker, currentTs, currentWords);
      return Some(Raised(KeyError("speakerTag"))), printed, currentSpeaker, currentTs, currentWords;
    }
    var nextSpeaker := word.speakerTag.value;
    TaggedSnoc(words, i);
    if nextSpeaker == currentSpeaker {
      SpeakerSameWord(words, i, printed, currentSpeaker, currentTs, currentWords);
      return None, printed, currentSpeaker, currentTs, currentWords + [word.word];
    }
    var paragraph := Join(currentWords, ' ');
    var ts := Timestamp(currentTs);
    if ts.Err? {
      SpeakerRaisedAt(words, i, printed, currentSpeaker, currentTs, currentWords, ts.fault);
      return Some(Raised(ts.fault)), printed, currentSpeaker, currentTs, currentWords;
    }
    SpeakerNewRun(words, i, printed, currentSpeaker, currentTs, currentWords);
    return None, printed + [Paragraph(ts.value, currentSpeaker, paragraph)], nextSpeaker, word.startTime, [word.word];
  }

  /** `print_transcript(response, speakers=True)` on the words of the best alternative
      of the last result: words are collected while the speaker stays the same; on a
      change the collected paragraph is printed with the timestamp of its first word
      and a new one starts with the current word. Nothing after the loop prints the
      last paragraph. */
  method PrintSpeakerParagraphs(words: seq<SttWord>) returns (printed: seq<Paragraph>, ending: Ending)
    ensures (printed, ending) == SpeakerOutput(words)
  {
    if |words| == 0 || words[0].speakerTag.None? {
      return [], Exited;
    }
    var currentSpeaker := words[0].speakerTag.value;
    var currentTs := words[0].startTime;
    var currentWords: seq<string> := [words[0].word];
    printed := [];
    SpeakerFirstWord(words);
    var i := 1;
    while i < |words|
      invariant 1 <= i <= |words| && Tagged(words[..i])
      invariant SpeakerLoopState(words, i, printed, currentSpeaker, currentTs, currentWords)
    {
      var done;
      done, printed, currentSpeaker, currentTs, currentWords := SpeakerWordStep(words, i, printed, currentSpeaker, currentTs, currentWords);
      if done.Some? {
        return printed, done.value;
      }
      i := i + 1;
    }
    SpeakerAllWords(words, printed, currentSpeaker, currentTs, currentWords);
    ending := Finished;
  }

  // ---------------------------------------------------------------------------------
  // Plain entries

  /** An entry as printed: the timestamp, the confidence and the transcript. */
  datatype Entry = Entry(timestamp: string, confidence: real, transcript: string)

  /** `alternative.get('transcript', 'missing')` as an f-string prints it: the text
      `missing` when the key is absent, `None` when it holds `null`. */
  function TranscriptText(a: SttAlternative): (r: string)
    ensures a.transcript.Absent? ==> r == "missing"
    ensures a.transcript.Null? ==> r == "None"
    ensures a.transcript.Present? ==> r == a.transcript.value
  {
    match a.transcript
    case Absent => "missing"
    case Null => "None"
    case Present(t) => t
  }

  /** A result that is printed: its best alternative's transcript, read with the default
      `missing`, is not `missing`. A `null` transcript is printed as `None`. */
  predicate HasTranscript(res: SttResult)
  {
    res.alternatives != [] && TranscriptText(res.alternatives[0]) != "missing"
  }

  /** The plain path over some results: the entries printed, the timestamp for the
      next one, and the fault that stopped it, if any. A result with no alternative
      raises `IndexError`; one without a transcript is skipped and leaves the timestamp
      alone; a printed one needs a confidence, and after it the timestamp becomes that
      of the result's end time. */
  function PlainFold(results: seq<SttResult>): (seq<Entry>, string, Option<Fault>)
  {
    if results == [] then ([], "00:00:00", None)
    else
      var before := PlainFold(results[..|results| - 1]);
      var res := results[|results| - 1];
      if before.2.Some? then before
      else if res.alternatives == [] then (before.0, before.1, Some(IndexError))
      else if !HasTranscript(res) then before
      else
        var best := res.alternatives[0];
        if best.confidence.None? then (before.0, before.1, Some(KeyError("confidence")))
        else
          var printed := before.0 + [Entry(before.1, best.confidence.value, TranscriptText(best))];
          match Timestamp(res.resultEndTime)
          case Err(e) => (printed, before.1, Some(e))
          case Ok(t) => (printed, t, None)
  }

  /** The results that are printed, in order. */
  function PrintedResults(results: seq<SttResult>): (r: seq<SttResult>)
    ensures |r| <= |results|
    ensures forall k :: 0 <= k < |r| ==> HasTranscript(r[k])
  {
    if results == [] then []
    else PrintedResults(results[..|results| - 1])
         + (if HasTranscript(results[|results| - 1]) then [results[|results| - 1]] else [])
  }

  /** One printed entry shows its result's transcript and confidence. */
  predicate EntryOf(e: Entry, res: SttResult)
  {
    && HasTranscript(res)
    && e.transcript == TranscriptText(res.alternatives[0])
    && res.alternatives[0].confidence == Some(e.confidence)
    && Timestamp(res.resultEndTime).Ok?
  }

  /** The entries of results that all went through: one entry per result with a
      transcript, in order, with its confidence and transcript; the first is labelled
      `00:00:00` and every later one with the end time of the result printed before
      it, which is also the timestamp left for the next entry. */
  predicate Labelled(printed: seq<Entry>, ts: string, ps: seq<SttResult>)
  {
    && |printed| == |ps|
    && EntriesOf(printed, ps)
    && (ps != [] ==> printed[0].timestamp == "00:00:00")
    && Chained(printed, ps)
    && ts == if ps == [] then "00:00:00" else Timestamp(ps[|ps| - 1].resultEndTime).value
  }

  predicate EntriesOf(printed: seq<Entry>, ps: seq<SttResult>)
    requires |printed| == |ps|
  {
    forall k :: 0 <= k < |ps| ==> EntryOf(printed[k], ps[k])
  }

  predicate Chained(printed: seq<Entry>, ps: seq<SttResult>)
    requires |printed| == |ps|
  {
    forall k :: 0 < k < |ps| ==> Timestamp(ps[k - 1].resultEndTime) == Ok(printed[k].timestamp)
  }

  lemma EntriesOfSnoc(printed: seq<Entry>, ps: seq<SttResult>, e: Entry, res: SttResult)
    requires |printed| == |ps| && EntriesOf(printed, ps) && EntryOf(e, res)
    ensures EntriesOf(printed + [e], ps + [res])
  {
    var qs := ps + [res];
    var out := printed + [e];
    forall k | 0 <= k < |qs|
      ensures EntryOf(out[k], qs[k])
    {
      if k < |ps| {
        assert qs[k] == ps[k] && out[k] == printed[k];
      }
    }
  }

  lemma ChainedSnoc(printed: seq<Entry>, ps: seq<SttResult>, e: Entry, res: SttResult)
    requires |printed| == |ps| && Chained(printed, ps)
    requires ps != [] ==> Timestamp(ps[|ps| - 1].resultEndTime) == Ok(e.timestamp)
    ensures Chained(printed + [e], ps + [res])
  {
    var qs := ps + [res];
    var out := printed + [e];
    forall k | 0 < k < |qs|
      ensures Timestamp(qs[k - 1].resultEndTime) == Ok(out[k].timestamp)
    {
      assert qs[k - 1] == ps[k - 1];
      if k < |ps| {
        assert out[k] == printed[k];
      } else {
        assert out[k] == e && k - 1 == |ps| - 1;
      }
    }
  }

  /** Printing one more result keeps the entries labelled. */
  lemma PlainPrintLabelled(printed: seq<Entry>, ts: string, ps: seq<SttResult>, res: SttResult, t: string)
    requires Labelled(printed, ts, ps)
    requires HasTranscript(res) && res.alternatives[0].confidence.Some?
    requires Timestamp(res.resultEndTime) == Ok(t)
    ensures Labelled(printed + [Entry(ts, res.alternatives[0].confidence.value, TranscriptText(res.alternatives[0]))], t, ps + [res])
  {
    var e := Entry(ts, res.alternatives[0].confidence.value, TranscriptText(res.alternatives[0]));
    EntriesOfSnoc(printed, ps, e, res);
    ChainedSnoc(printed, ps, e, res);
    if ps != [] {
      assert (printed + [e])[0] == printed[0];
    }
    assert (ps + [res])[|ps|] == res;
  }

  /** When nothing raises, the plain path prints exactly the results with a
      transcript, each labelled with the end time of the one printed before it. */
  lemma {:induction false} PlainFoldSpec(results: seq<SttResult>)
    ensures var out := PlainFold(results);
      out.2.None? ==> Labelled(out.0, out.1, PrintedResults(results))
    decreases |results|
  {
    if results != [] {
      var front := results[..|results| - 1];
      PlainFoldSpec(front);
      var before := PlainFold(front);
      var res := results[|results| - 1];
      if before.2.None? && HasTranscript(res) && PlainFold(results).2.None? {
        assert PrintedResults(results) == PrintedResults(front) + [res];
        PlainPrintLabelled(before.0, before.1, PrintedResults(front), res, Timestamp(res.resultEndTime).value);
      }
    }
  }

  /** Once the plain path raises, later results change nothing. */
  lemma {:induction false} PlainFoldErrorStays(results: seq<SttResult>, n: nat)
    requires n <= |results| && PlainFold(results[..n]).2.Some?
    ensures PlainFold(results) == PlainFold(results[..n])
    decreases |results| - n
  {
    if n < |results| {
      var front := results[..|results| - 1];
      assert front[..n] == results[..n];
      if n < |front| {
        PlainFoldErrorStays(front, n);
      } else {
        assert front == results[..n];
      }
    } else {
      assert results[..n] == results;
    }
  }

  function EndingOf(f: Option<Fault>): (e: Ending)
    ensures e != Exited
    ensures e == Finished <==> f.None?
  {
    if f.Some? then Raised(f.value) else Finished
  }

  /** `print_transcript(response, speakers=False)`: every result in order; one with a
      transcript is printed with the current timestamp, which then becomes its end
      time. */
  method PrintPlainEntries(results: seq<SttResult>) returns (printed: seq<Entry>, ending: Ending)
    ensures printed == PlainFold(results).0 && ending == EndingOf(PlainFold(results).2)
  {
    var ts := "00:00:00";
    printed := [];
    var i := 0;
    assert results[..0] == [];
    while i < |results|
      invariant i <= |results|
      invariant PlainFold(results[..i]) == (printed, ts, None)
    {
      var result := results[i];
      assert results[..i + 1][..i] == results[..i];
      if |result.alternatives| == 0 {
        PlainFoldErrorStays(results, i + 1);
        return printed, Raised(IndexError);
      }
      var best := result.alternatives[0];
      var transcript := TranscriptText(best);
      if transcript == "missing" {
        i := i + 1;
        continue;
      }
      if best.confidence.None? {
        PlainFoldErrorStays(results, i + 1);
        return printed, Raised(KeyError("confidence"));
      }
      printed := printed + [Entry(ts, best.confidence.value, transcript)];
      var next := Timestamp(result.resultEndTime);
      if next.Err? {
        PlainFoldErrorStays(results, i + 1);
        return printed, Raised(next.fault);
      }
      ts := next.value;
      i := i + 1;
    }
    assert results[..i] == results;
    ending := Finished;
  }

  // ---------------------------------------------------------------------------------
  // print_transcript

  /** What `print_transcript` prints: paragraphs or entries. */
  datatype Printout = SpeakerPrintout(paragraphs: seq<Paragraph>) | PlainPrintout(entries: seq<Entry>)

  /** `print_transcript`: with speakers, only the best alternative of the last result
      is read (an empty result list or alternative list raises `IndexError`; missing
      words end in `exit()`); without, every result is. */
  method PrintTranscript(response: Response, speakers: bool) returns (out: Printout, ending: Ending)
    ensures speakers && (response.results == [] || response.results[|response.results| - 1].alternatives == []) ==>
      out == SpeakerPrintout([]) && ending == Raised(IndexError)
    ensures speakers && response.results != [] && response.results[|response.results| - 1].alternatives != [] ==>
      var words := response.results[|response.results| - 1].alternatives[0].words;
      && (words.None? ==> out == SpeakerPrintout([]) && ending == Exited)
      && (words.Some? ==> out.SpeakerPrintout? && (out.paragraphs, ending) == SpeakerOutput(words.value))
    ensures !speakers ==> out == PlainPrintout(PlainFold(response.results).0) && ending == EndingOf(PlainFold(response.results).2)
  {
    if speakers {
      var results := response.results;
      if |results| == 0 {
        return SpeakerPrintout([]), Raised(IndexError);
      }
      var transcript := results[|results| - 1];
      if |transcript.alternatives| == 0 {
        return SpeakerPrintout([]), Raised(IndexError);
      }
      var best := transcript.alternatives[0];
      if best.words.None? {
        return SpeakerPrintout([]), Exited;
      }
      var paragraphs;
      paragraphs, ending := PrintSpeakerParagraphs(best.words.value);
      out := SpeakerPrintout(paragraphs);
    } else {
      var entries;
      entries, ending := PrintPlainEntries(response.results);
      out := PlainPrintout(entries);
    }
  }
}
