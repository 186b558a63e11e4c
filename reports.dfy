/** The usage report (`flatten_json` in `cli/reports.py`): a list of logged jobs, each
    with its languages, becomes a CSV table with one row per job and language. */
module Reports {
  import Strings

  /** One language of a job and the seconds of audio in it, as the CSV writer renders
      them. */
  datatype LanguageEntry = LanguageEntry(languageCode: string, durationInSeconds: string)

  /** One logged job. */
  datatype LogItem = LogItem(timestamp: string, transcriptionJobName: string, languageCodes: seq<LanguageEntry>)

  const ReportHeader: seq<string> := ["Timestamp", "TranscriptionJobName", "Username", "LanguageCode", "DurationInSeconds"]

  /** `job_name.split('_')[0].lower()`. */
  function Username(jobName: string): (r: string)
    ensures |r| <= |jobName|
  {
    var first := Strings.Split(jobName, '_')[0];
    assert |first| <= |jobName| by {
      FirstPieceShorter(jobName, '_');
    }
    Strings.LowerAscii(first)
  }

  lemma {:induction false} FirstPieceShorter(s: string, c: char)
    ensures |Strings.Split(s, c)[0]| <= |s|
    decreases |s|
  {
    if s != [] && s[0] != c {
      FirstPieceShorter(s[1..], c);
    }
  }

  /** A name with an `_` gives the part before the first one, lowercased. */
  lemma UsernameBeforeUnderscore(user: string, rest: string)
    requires '_' !in user
    ensures Username(user + "_" + rest) == Strings.LowerAscii(user)
  {
    Strings.SplitAtFirst(user, '_', rest);
    assert user + "_" + rest == user + ['_'] + rest;
  }

  /** A name without `_` gives the whole name, lowercased. */
  lemma UsernameWhole(jobName: string)
    requires '_' !in jobName
    ensures Username(jobName) == Strings.LowerAscii(jobName)
  {
    Strings.SplitWithout(jobName, '_');
  }

  /** The row of one job and one of its languages. */
  function ReportRow(item: LogItem, lang: LanguageEntry): seq<string>
  {
    [item.timestamp, item.transcriptionJobName, Username(item.transcriptionJobName), lang.languageCode, lang.durationInSeconds]
  }

  /** The rows of the first `n` languages of a job. */
  function LanguageRows(item: LogItem, n: nat): (r: seq<seq<string>>)
    requires n <= |item.languageCodes|
    ensures |r| == n
  {
    if n == 0 then [] else LanguageRows(item, n - 1) + [ReportRow(item, item.languageCodes[n - 1])]
  }

  /** The rows of the first `n` jobs. */
  function ItemRows(data: seq<LogItem>, n: nat): seq<seq<string>>
    requires n <= |data|
  {
    if n == 0 then [] else ItemRows(data, n - 1) + LanguageRows(data[n - 1], |data[n - 1].languageCodes|)
  }

  /** The number of languages over the first `n` jobs. */
  function LanguageCount(data: seq<LogItem>, n: nat): nat
    requires n <= |data|
  {
    if n == 0 then 0 else LanguageCount(data, n - 1) + |data[n - 1].languageCodes|
  }

  /** The table written: the fixed header, then the rows of every job. */
  function Report(data: seq<LogItem>): seq<seq<string>>
  {
    [ReportHeader] + ItemRows(data, |data|)
  }

  /** One row per job and language. */
  lemma {:induction false} ItemRowsCount(data: seq<LogItem>, n: nat)
    requires n <= |data|
    ensures |ItemRows(data, n)| == LanguageCount(data, n)
    decreases n
  {
    if n > 0 {
      ItemRowsCount(data, n - 1);
    }
  }

  lemma {:induction false} LanguageRowsAt(item: LogItem, j: nat, n: nat)
    requires j < n <= |item.languageCodes|
    ensures LanguageRows(item, n)[j] == ReportRow(item, item.languageCodes[j])
    decreases n
  {
    if j < n - 1 {
      LanguageRowsAt(item, j, n - 1);
    }
  }

  /** Later jobs only add rows after the earlier ones. */
  lemma {:induction false} ItemRowsPrefix(data: seq<LogItem>, k: nat, n: nat)
    requires k <= n <= |data|
    ensures ItemRows(data, k) <= ItemRows(data, n)
    decreases n
  {
    if k < n {
      ItemRowsPrefix(data, k, n - 1);
    }
  }

  /** The report has the header and one row per job and language, and the row of the
      `j`-th language of the `i`-th job comes after the rows of all earlier jobs and
      languages: it repeats the job's timestamp and name, the username derived from the
      name, and that language's code and duration. */
  lemma ReportRowAt(data: seq<LogItem>, i: nat, j: nat)
    requires i < |data| && j < |data[i].languageCodes|
    ensures |Report(data)| == 1 + LanguageCount(data, |data|)
    ensures var at := 1 + LanguageCount(data, i) + j;
      at < |Report(data)| && Report(data)[at] == ReportRow(data[i], data[i].languageCodes[j])
  {
    ItemRowsCount(data, |data|);
    ItemRowsCount(data, i);
    ItemRowsPrefix(data, i + 1, |data|);
    LanguageRowsAt(data[i], j, |data[i].languageCodes|);
  }

  /** `flatten_json` after the file is read: the rows it writes. */
  method FlattenJson(data: seq<LogItem>) returns (rows: seq<seq<string>>)
    ensures rows == Report(data)
  {
    rows := [ReportHeader];
    var i := 0;
    while i < |data|
      invariant i <= |data|
      invariant rows == [ReportHeader] + ItemRows(data, i)
    {
      var item := data[i];
      var timestamp := item.timestamp;
      var jobName := item.transcriptionJobName;
      var username := Strings.LowerAscii(Strings.Split(jobName, '_')[0]);
      var j := 0;
      while j < |item.languageCodes|
        invariant j <= |item.languageCodes|
        invariant rows == [ReportHeader] + ItemRows(data, i) + LanguageRows(item, j)
      {
        var lang := item.languageCodes[j];
        rows := rows + [[timestamp, jobName, username, lang.languageCode, lang.durationInSeconds]];
        j := j + 1;
      }
      i := i + 1;
    }
  }
}
