/** The small pure helpers of the transcript-to-document converter: timestamp
    rendering, speaker-speakerLabel formatting and splitting an S3 location into bucket and
    key. */
module DocxFormat {
  import opened Wrappers
  import opened Strings
  import opened Clock

  /** `convert_timestamp`: a time in seconds rendered `HH:MM:SS`, fractional seconds
      dropped; the hours come from `timedelta.seconds`, the seconds within a day. */
  function ConvertTimestamp(timeInSeconds: real): (r: string)
    ensures WellFormedClock(r)
    ensures ClockValue(r) == SecondOfDay(timeInSeconds.Floor)
    ensures 0.0 <= timeInSeconds < SecondsPerDay as real ==> ClockValue(r) == timeInSeconds.Floor
  {
    HhMmSs(SecondOfDay(timeInSeconds.Floor))
  }

  lemma ConvertTimestampExamples()
    ensures ConvertTimestamp(0.0) == "00:00:00"
    ensures ConvertTimestamp(10000.0) == "02:46:40"
  {
    assert (0.0).Floor == 0 && SecondOfDay(0) == 0;
    assert (10000.0).Floor == 10000 && SecondOfDay(10000) == 10000;
    HhMmSsOf(0, 0, 0);
    HhMmSsOf(2, 46, 40);
    assert DigitChar(0) == '0' && DigitChar(2) == '2' && DigitChar(4) == '4' && DigitChar(6) == '6';
  }

  /** `format_speaker_label`: a label holding `spk_` anywhere is split at `_`; the text
      before the first `_` has every `spk` replaced by `Speaker ` and is followed by the
      number after it plus one. Any other label is returned unchanged. A number that
      `int()` rejects raises `ValueError`. */
  function FormatSpeakerLabel(speakerLabel: string): Result<string>
  {
    if Contains(speakerLabel, "spk_") then
      var parts := Split(speakerLabel, '_');
      if |parts| < 2 then Err(IndexError)
      else match ParseInt(parts[1])
        case None => Err(ValueError)
        case Some(n) => Ok(ReplaceAll(parts[0], "spk", "Speaker ") + IntToString(n + 1))
    else Ok(speakerLabel)
  }

  /** `spk_<n>` becomes `Speaker <n+1>`. */
  lemma FormatNumberedSpeaker(digits: string)
    requires |digits| >= 1 && AllDigits(digits)
    ensures FormatSpeakerLabel("spk_" + digits) == Ok("Speaker " + NatToString(DigitsValue(digits) + 1))
  {
    var speakerLabel := "spk_" + digits;
    assert StartsWith(speakerLabel, "spk_");
    SplitNumberedLabel(digits);
    ParseIntOfDigits(digits);
    SpkBecomesSpeaker();
  }

  /** `spk_<n>` splits at its only `_`. */
  lemma SplitNumberedLabel(digits: string)
    requires AllDigits(digits)
    ensures Split("spk_" + digits, '_') == ["spk", digits]
  {
    assert '_' !in digits by {
      forall j | 0 <= j < |digits| ensures digits[j] != '_' { assert IsDigit(digits[j]); }
    }
    assert "spk_" + digits == "spk" + ['_'] + digits;
    SplitAtFirst("spk", '_', digits);
    SplitWithout(digits, '_');
  }

  lemma SpkBecomesSpeaker()
    ensures ReplaceAll("spk", "spk", "Speaker ") == "Speaker "
  {
    assert !Contains("", "spk");
    ReplaceLeading("spk", "", "Speaker ");
    assert "spk" + "" == "spk" && "Speaker " + "" == "Speaker ";
  }

  /** A label without `spk_` passes through unchanged. */
  lemma FormatPlainLabel(speakerLabel: string)
    requires !Contains(speakerLabel, "spk_")
    ensures FormatSpeakerLabel(speakerLabel) == Ok(speakerLabel)
  {
  }

  lemma FormatSpeakerLabelFirstSpeaker()
    ensures FormatSpeakerLabel("spk_" + "0") == Ok("Speaker " + "1")
  {
    FormatNumberedSpeaker("0");
    assert "0"[..0] == [] && DigitsValue("0") == 0;
    assert NatToString(1) == "1";
  }

  lemma FormatSpeakerLabelSecondSpeaker()
    ensures FormatSpeakerLabel("spk_" + "1") == Ok("Speaker " + "2")
  {
    FormatNumberedSpeaker("1");
    assert "1"[..0] == [] && DigitsValue("1") == 1;
    assert NatToString(2) == "2";
  }

  lemma FormatSpeakerLabelName()
    ensures FormatSpeakerLabel("Mr. Jones") == Ok("Mr. Jones")
  {
    MissingCharNotContained("Mr. Jones", "spk_", 3);
    FormatPlainLabel("Mr. Jones");
  }

  /** The parts `urllib.parse.urlparse` gives for a URL. */
  datatype UrlParts = UrlParts(scheme: string, netloc: string, path: string, params: string, query: string, fragment: string)

  predicate IsAsciiLetter(c: char) { 'a' <= c <= 'z' || 'A' <= c <= 'Z' }

  predicate IsSchemeChar(c: char) { IsAsciiLetter(c) || IsDigit(c) || c == '+' || c == '-' || c == '.' }

  predicate IsSchemeName(s: string)
  {
    |s| >= 1 && IsAsciiLetter(s[0]) && forall j :: 0 <= j < |s| ==> IsSchemeChar(s[j])
  }

  /** The characters `urlsplit` strips from the start of a URL: the C0 controls and the
      space. */
  predicate IsC0OrSpace(c: char) { c <= ' ' }

  /** `url.lstrip` of the C0 controls and the space. */
  function StripLeading(s: string): (r: string)
    ensures |r| <= |s| && r == s[|s| - |r|..]
    ensures forall j :: 0 <= j < |s| - |r| ==> IsC0OrSpace(s[j])
    ensures r == [] || !IsC0OrSpace(r[0])
  {
    if s != [] && IsC0OrSpace(s[0]) then StripLeading(s[1..]) else s
  }

  /** No tab, carriage return or line feed, the characters `urlsplit` removes. */
  predicate NoUnsafe(s: string)
  {
    '\t' !in s && '\r' !in s && '\n' !in s
  }

  /** `s` with every tab, carriage return and line feed removed. */
  function RemoveUnsafe(s: string): (r: string)
    ensures NoUnsafe(r)
    ensures NoUnsafe(s) ==> r == s
  {
    if s == [] then []
    else
      var c := s[|s| - 1];
      assert s == s[..|s| - 1] + [c];
      RemoveUnsafe(s[..|s| - 1]) + (if c in {'\t', '\r', '\n'} then [] else [c])
  }

  /** The scheme of a URL and the text after its `:`; the scheme is empty when the
      text before the first `:` is not a valid scheme name. */
  function SplitScheme(url: string): (string, string)
  {
    var colon := FirstIndexIn(url, {':'});
    if colon < |url| && IsSchemeName(url[..colon]) then (LowerAscii(url[..colon]), url[colon + 1..])
    else ("", url)
  }

  /** The network location after a leading `//`, up to the first `/`, `?` or `#`, and
      the text after it. */
  function SplitNetloc(s: string): (string, string)
  {
    if StartsWith(s, "//") then
      var rest := s[2..];
      var delim := FirstIndexIn(rest, {'/', '?', '#'});
      (rest[..delim], rest[delim..])
    else ("", s)
  }

  /** The text before and after the first `c`, or the whole text and nothing. */
  function SplitAtOptional(s: string, c: char): (string, string)
  {
    if c in s then SplitOnce(s, c) else (s, "")
  }

  /** The schemes whose last path segment may carry `;params` (`uses_params`). */
  const UsesParams: set<string> :=
    {"", "ftp", "hdl", "prospero", "http", "imap", "https", "shttp", "rtsp", "rtsps", "rtspu", "sip", "sips", "mms", "sftp", "tel"}

  /** The position of the last `c` in `s`, as `str.rfind` finds it. */
  function LastIndexOf(s: string, c: char): (i: nat)
    requires c in s
    ensures i < |s| && s[i] == c
    ensures forall j :: i < j < |s| ==> s[j] != c
  {
    if s[|s| - 1] == c then |s| - 1
    else
      assert s == s[..|s| - 1] + [s[|s| - 1]];
      LastIndexOf(s[..|s| - 1], c)
  }

  /** `_splitparams`: the path cut at the first `;` after its last `/`, and the text after
      that `;`; a path without such a `;` is kept whole. */
  function SplitParams(path: string): (r: (string, string))
    ensures path == r.0 || path == r.0 + ";" + r.1
  {
    CutParams(path, ParamsStart(path))
  }

  /** Where `_splitparams` starts looking for `;`: the last `/`, or the start. */
  function ParamsStart(path: string): (from: nat)
    ensures from <= |path|
  {
    if '/' in path then LastIndexOf(path, '/') else 0
  }

  /** The path cut at its first `;` at or after `from`, and the text after that `;`. */
  function CutParams(path: string, from: nat): (r: (string, string))
    requires from <= |path|
    ensures path == r.0 || path == r.0 + ";" + r.1
  {
    var i := from + FirstIndexIn(path[from..], {';'});
    if i < |path| then
      assert path == path[..i] + [path[i]] + path[i + 1..];
      (path[..i], path[i + 1..])
    else (path, "")
  }

  /** The path and params `urlparse` reports: params are split off only for the schemes
      that use them and only when the path holds a `;`. */
  function PathParams(scheme: string, path: string): (string, string)
  {
    if scheme in UsesParams && ';' in path then SplitParams(path) else (path, "")
  }

  /** `urlsplit` refuses a network location holding one square bracket but not the other. */
  predicate UnbalancedBrackets(netloc: string)
  {
    ('[' in netloc && ']' !in netloc) || (']' in netloc && '[' !in netloc)
  }

  /** `urlparse`: leading C0 controls and spaces stripped and every tab, carriage return
      and line feed removed; then a scheme before the first `:` when it is a valid scheme
      name, a network location after `//` up to the first `/`, `?` or `#` (`ValueError`
      when it holds one square bracket without the other), a fragment after the first
      `#`, a query after the first `?`, and the path, with `;params` split off its last
      segment for the schemes that use them. */
  function UrlParse(url: string): Result<UrlParts>
  {
    var clean := RemoveUnsafe(StripLeading(url));
    var sch := SplitScheme(clean);
    var net := SplitNetloc(sch.1);
    if UnbalancedBrackets(net.0) then Err(ValueError)
    else
      var frag := SplitAtOptional(net.1, '#');
      var pq := SplitAtOptional(frag.0, '?');
      var pp := PathParams(sch.0, pq.0);
      Ok(UrlParts(sch.0, net.0, pp.0, pp.1, pq.1, frag.1))
  }

  /** The text after the path: `?query` when there is a query, else nothing. */
  function QuerySuffix(query: Option<string>): string
  {
    if query.Some? then "?" + query.value else ""
  }

  /** A valid scheme name followed by `:` is split off and lower-cased. */
  lemma SplitSchemeOf(scheme: string, rest: string)
    requires IsSchemeName(scheme)
    ensures SplitScheme(scheme + ":" + rest) == (LowerAscii(scheme), rest)
  {
    var url := scheme + ":" + rest;
    assert ':' !in scheme by {
      forall j | 0 <= j < |scheme| ensures scheme[j] != ':' { assert IsSchemeChar(scheme[j]); }
    }
    assert url == scheme + [':'] + rest;
    FirstIndexAfter(scheme, ':', rest, {':'});
    assert url[..|scheme|] == scheme;
    assert url[|scheme| + 1..] == rest;
  }

  /** A host free of `/`, `?` and `#` after `//` is split off before a `/`. */
  lemma SplitNetlocOf(host: string, path: string)
    requires forall j :: 0 <= j < |host| ==> host[j] !in {'/', '?', '#'}
    requires |path| >= 1 && path[0] == '/'
    ensures SplitNetloc("//" + host + path) == (host, path)
  {
    var s := "//" + host + path;
    assert StartsWith(s, "//");
    var rest := s[2..];
    assert rest == host + [path[0]] + path[1..];
    FirstIndexAfter(host, path[0], path[1..], {'/', '?', '#'});
    assert rest[..|host|] == host;
    assert rest[|host|..] == path;
  }

  /** A URL that stripping and removal leave alone, with a balanced network location
      and no fragment: its parts are those of the splits in turn. */
  lemma UrlParseSteps(url: string, afterScheme: string, afterNetloc: string, path: string, query: string)
    requires RemoveUnsafe(StripLeading(url)) == url
    requires SplitScheme(url).1 == afterScheme
    requires SplitNetloc(afterScheme).1 == afterNetloc
    requires !UnbalancedBrackets(SplitNetloc(afterScheme).0)
    requires '#' !in afterNetloc
    requires SplitAtOptional(afterNetloc, '?') == (path, query)
    ensures var pp := PathParams(SplitScheme(url).0, path);
      UrlParse(url) == Ok(UrlParts(SplitScheme(url).0, SplitNetloc(afterScheme).0, pp.0, pp.1, query, ""))
  {
  }

  /** Leading C0 controls and spaces make no difference to the parse. */
  lemma UrlParseIgnoresLeading(c: char, url: string)
    requires IsC0OrSpace(c)
    ensures UrlParse([c] + url) == UrlParse(url)
  {
    assert ([c] + url)[1..] == url;
  }

  /** A path free of `?` and `#`, optionally followed by `?query`, splits into the two. */
  lemma SplitPathQuery(path: string, query: Option<string>)
    requires '?' !in path && '#' !in path
    requires query.Some? ==> '#' !in query.value
    ensures '#' !in path + QuerySuffix(query)
    ensures SplitAtOptional(path + QuerySuffix(query), '?') == (path, if query.Some? then query.value else "")
  {
    if query.Some? {
      assert path + QuerySuffix(query) == path + ['?'] + query.value;
      SplitOnceAt(path, '?', query.value);
    } else {
      assert path + QuerySuffix(query) == path;
    }
  }

  /** A URL that starts with a scheme name and holds no tab, carriage return or line
      feed is left alone by the stripping and the removal. */
  lemma CleanUrl(scheme: string, rest: string)
    requires IsSchemeName(scheme) && NoUnsafe(rest)
    ensures RemoveUnsafe(StripLeading(scheme + rest)) == scheme + rest
  {
    assert NoUnsafe(scheme) by {
      forall j | 0 <= j < |scheme| ensures scheme[j] !in {'\t', '\r', '\n'} { assert IsSchemeChar(scheme[j]); }
    }
    assert (scheme + rest)[0] == scheme[0];
  }

  /** The URL `scheme://host` + `tail` is left alone by the stripping and the removal. */
  lemma HttpUrlClean(scheme: string, host: string, tail: string)
    requires IsSchemeName(scheme)
    requires NoUnsafe(host) && NoUnsafe(tail)
    ensures RemoveUnsafe(StripLeading(scheme + ":" + ("//" + host + tail))) == scheme + ":" + ("//" + host + tail)
  {
    var rest := ":" + ("//" + host + tail);
    assert NoUnsafe(rest);
    CleanUrl(scheme, rest);
    assert scheme + ":" + ("//" + host + tail) == scheme + rest;
  }

  /** A host free of `/`, `?`, `#` and square brackets is split off whole and is no
      bracket fault. */
  lemma HostBalanced(host: string)
    requires forall j :: 0 <= j < |host| ==> host[j] !in {'/', '?', '#', '[', ']'}
    ensures forall j :: 0 <= j < |host| ==> host[j] !in {'/', '?', '#'}
    ensures !UnbalancedBrackets(host)
  {
    assert '[' !in host && ']' !in host;
  }

  /** An `https://host/path?query` URL parses into its host, path, params and query. */
  lemma UrlParseHttp(scheme: string, host: string, path: string, query: Option<string>)
    requires IsSchemeName(scheme)
    requires forall j :: 0 <= j < |host| ==> host[j] !in {'/', '?', '#', '[', ']'}
    requires |path| >= 1 && path[0] == '/' && '?' !in path && '#' !in path
    requires query.Some? ==> '#' !in query.value
    requires NoUnsafe(host) && NoUnsafe(path) && (query.Some? ==> NoUnsafe(query.value))
    ensures var pp := PathParams(LowerAscii(scheme), path);
      UrlParse(scheme + "://" + host + path + QuerySuffix(query))
        == Ok(UrlParts(LowerAscii(scheme), host, pp.0, pp.1, if query.Some? then query.value else "", ""))
  {
    var tail := path + QuerySuffix(query);
    var afterScheme := "//" + host + tail;
    assert scheme + "://" + host + path + QuerySuffix(query) == scheme + ":" + afterScheme;
    assert NoUnsafe(QuerySuffix(query));
    HttpUrlClean(scheme, host, tail);
    SplitSchemeOf(scheme, afterScheme);
    HostBalanced(host);
    SplitNetlocOf(host, tail);
    SplitPathQuery(path, query);
    UrlParseSteps(scheme + ":" + afterScheme, afterScheme, tail, path, if query.Some? then query.value else "");
  }

  /** `rfind` lands on the only `c` with none after it. */
  lemma LastIndexOfAt(s: string, c: char, i: nat)
    requires i < |s| && s[i] == c && forall j :: i < j < |s| ==> s[j] != c
    ensures c in s && LastIndexOf(s, c) == i
  {
    assert s[i] in s;
  }

  /** A path without `;` keeps no params. */
  lemma SplitParamsNone(path: string)
    requires ';' !in path
    ensures SplitParams(path) == (path, "")
  {
  }

  /** In a path `/bucket/key`, the params come off the key's last segment only. */
  lemma SplitParamsUnder(bucket: string, key: string)
    requires '/' !in bucket
    ensures SplitParams("/" + bucket + "/" + key).0 == "/" + bucket + "/" + SplitParams(key).0
  {
    var pre := "/" + bucket + "/";
    assert "/" + bucket + "/" + key == pre + key;
    if '/' in key {
      SplitParamsUnderDirs(pre, key);
    } else {
      SplitParamsUnderName(pre, key);
    }
  }

  /** A key with a `/`: its own last `/` is the path's. */
  lemma SplitParamsUnderDirs(pre: string, key: string)
    requires '/' in key
    ensures SplitParams(pre + key).0 == pre + SplitParams(key).0
  {
    LastIndexOfAppend(pre, key, '/');
    assert ParamsStart(pre + key) == |pre| + ParamsStart(key);
    CutParamsShift(pre, key, ParamsStart(key));
  }

  /** A key without `/` after a prefix ending in `/`: the params come off the key. */
  lemma SplitParamsUnderName(pre: string, key: string)
    requires pre != [] && pre[|pre| - 1] == '/' && '/' !in key
    ensures SplitParams(pre + key).0 == pre + SplitParams(key).0
  {
    assert forall j :: 0 <= j < |key| ==> key[j] != '/';
    LastIndexOfAfter(pre, key, '/');
    assert SplitParams(pre + key) == CutParams(pre + key, |pre| - 1);
    assert SplitParams(key) == CutParams(key, 0);
    CutParamsSkip(pre + key, |pre| - 1);
    CutParamsShift(pre, key, 0);
    assert |pre| - 1 + 1 == |pre| + 0;
  }

  /** Looking from a character that is not `;` is looking from the next one. */
  lemma CutParamsSkip(path: string, from: nat)
    requires from < |path| && path[from] != ';'
    ensures CutParams(path, from) == CutParams(path, from + 1)
  {
    assert path[from..][1..] == path[from + 1..];
  }

  /** Cutting `pre + s` from inside `s` is cutting `s`. */
  lemma CutParamsShift(pre: string, s: string, from: nat)
    requires from <= |s|
    ensures CutParams(pre + s, |pre| + from).0 == pre + CutParams(s, from).0
  {
    assert (pre + s)[|pre| + from..] == s[from..];
    var i := from + FirstIndexIn(s[from..], {';'});
    if i < |s| {
      assert (pre + s)[..|pre| + i] == pre + s[..i];
    }
  }

  /** The last `c` of `pre + s`, when `s` holds one, is the last `c` of `s`. */
  lemma LastIndexOfAppend(pre: string, s: string, c: char)
    requires c in s
    ensures c in pre + s && LastIndexOf(pre + s, c) == |pre| + LastIndexOf(s, c)
  {
    var f := LastIndexOf(s, c);
    assert forall j :: |pre| + f < j < |pre + s| ==> (pre + s)[j] == s[j - |pre|];
    LastIndexOfAt(pre + s, c, |pre| + f);
  }

  /** The last `c` of `pre + s`, when only `pre` ends in one, is that one. */
  lemma LastIndexOfAfter(pre: string, s: string, c: char)
    requires pre != [] && pre[|pre| - 1] == c && forall j :: 0 <= j < |s| ==> s[j] != c
    ensures c in pre + s && LastIndexOf(pre + s, c) == |pre| - 1
  {
    assert forall j :: |pre| - 1 < j < |pre + s| ==> (pre + s)[j] == s[j - |pre|];
    LastIndexOfAt(pre + s, c, |pre| - 1);
  }

  /** The path `/bucket/key` as `urlparse` reports it: for a scheme that uses params,
      with the params of the key's last segment cut off. */
  lemma PathParamsUnder(scheme: string, bucket: string, key: string)
    requires '/' !in bucket
    ensures PathParams(scheme, "/" + bucket + "/" + key).0
         == "/" + bucket + "/" + (if scheme in UsesParams then SplitParams(key).0 else key)
  {
    var path := "/" + bucket + "/" + key;
    if scheme in UsesParams {
      if ';' in path {
        SplitParamsUnder(bucket, key);
      } else {
        assert ';' !in key;
        SplitParamsNone(key);
      }
    }
  }

  /** The result of `find_bucket_key`: an `s3://` URI gives a bucket and a key, any other
      URL a bucket, a key and the query string. */
  datatype BucketKey =
    | S3Location(bucket: string, key: string)
    | HttpLocation(bucket: string, key: string, query: string)

  /** `find_bucket_key`. For a string holding `s3://` anywhere, every `s3://` is removed
      and the rest split at `/`: the first piece is the bucket, the others rejoined with
      `/` the key. Otherwise the URL path is split at `/`; its second piece is the bucket
      (`IndexError` when there is none) and the remaining pieces the key. */
  function FindBucketKey(url: string): Result<BucketKey>
  {
    if Contains(url, "s3://") then
      var parts := Split(ReplaceAll(url, "s3://", ""), '/');
      Ok(S3Location(parts[0], Join(parts[1..], '/')))
    else
      var u :- UrlParse(url);
      var components := Split(u.path, '/');
      if |components| < 2 then Err(IndexError)
      else Ok(HttpLocation(components[1], Join(components[2..], '/'), u.query))
  }

  /** The first `/`-separated piece of a string, and the rest rejoined, put the string
      back together; there is a rest exactly when the string holds a `/`. */
  lemma {:induction false} FirstPieceAndRest(s: string)
    ensures '/' !in Split(s, '/')[0]
    ensures |Split(s, '/')| > 1 <==> '/' in s
    ensures |Split(s, '/')| > 1 ==> s == Split(s, '/')[0] + "/" + Join(Split(s, '/')[1..], '/')
    ensures |Split(s, '/')| == 1 ==> s == Split(s, '/')[0]
  {
    var parts := Split(s, '/');
    JoinSplit(s, '/');
    if |parts| > 1 {
      assert parts == [parts[0]] + parts[1..];
      JoinCons(parts[0], parts[1..], '/');
      assert s[|parts[0]|] == '/';
    } else {
      assert s == parts[0];
    }
  }

  /** For an `s3://` URI the bucket holds no `/` and bucket and key rebuild the location
      with the scheme removed; the key is empty when there is no `/` after the bucket. */
  lemma FindBucketKeyS3(url: string)
    requires Contains(url, "s3://")
    ensures FindBucketKey(url).Ok? && FindBucketKey(url).value.S3Location?
    ensures var loc := FindBucketKey(url).value;
            var stripped := ReplaceAll(url, "s3://", "");
            && '/' !in loc.bucket
            && (if '/' in stripped then stripped == loc.bucket + "/" + loc.key
                else stripped == loc.bucket && loc.key == "")
  {
    FirstPieceAndRest(ReplaceAll(url, "s3://", ""));
  }

  /** `s3://` does not start at position `i` of a string whose only `:` follows a
      prefix not ending in `s3`. */
  lemma NoS3SchemeAt(scheme: string, rest: string, i: int)
    requires ':' !in scheme && ':' !in rest
    requires |scheme| >= 2 ==> scheme[|scheme| - 2..] != "s3"
    ensures !OccursAt(scheme + ":" + rest, "s3://", i)
  {
    var url := scheme + ":" + rest;
    if 0 <= i && i + 5 <= |url| {
      var window := url[i..i + 5];
      var m := i + 2;
      assert window[2] == url[m];
      if m < |scheme| {
        assert url[m] == scheme[m];
        assert window[2] != "s3://"[2];
      } else if m > |scheme| {
        assert url[m] == rest[m - |scheme| - 1];
        assert window[2] != "s3://"[2];
      } else {
        assert window[..2] == scheme[|scheme| - 2..];
        assert window[..2] != "s3://"[..2];
      }
    }
  }

  /** No `s3://` occurs in a string whose only `:` follows a prefix not ending in `s3`. */
  lemma NoS3Scheme(scheme: string, rest: string)
    requires ':' !in scheme && ':' !in rest
    requires |scheme| >= 2 ==> scheme[|scheme| - 2..] != "s3"
    ensures !Contains(scheme + ":" + rest, "s3://")
  {
    ContainsIffOccurs(scheme + ":" + rest, "s3://");
    forall i ensures !OccursAt(scheme + ":" + rest, "s3://", i) {
      NoS3SchemeAt(scheme, rest, i);
    }
  }

  /** The path `/bucket/key` splits into an empty piece, the bucket and the key's pieces. */
  lemma SplitBucketPath(bucket: string, key: string)
    requires '/' !in bucket
    ensures |Split("/" + bucket + "/" + key, '/')| >= 2
    ensures Split("/" + bucket + "/" + key, '/')[1] == bucket
    ensures Join(Split("/" + bucket + "/" + key, '/')[2..], '/') == key
  {
    var path := "/" + bucket + "/" + key;
    assert path == [] + ['/'] + (bucket + ['/'] + key);
    SplitAtFirst([], '/', bucket + ['/'] + key);
    SplitAtFirst(bucket, '/', key);
    var components := Split(path, '/');
    assert components == [[], bucket] + Split(key, '/');
    assert components[2..] == Split(key, '/');
    JoinSplit(key, '/');
  }

  /** Neither the host nor anything after it holds `:`, nor does the scheme. */
  lemma NoColonInHttpUrl(scheme: string, host: string, path: string, query: Option<string>)
    requires IsSchemeName(scheme)
    requires forall j :: 0 <= j < |host| ==> host[j] !in {'/', '?', '#', ':'}
    requires ':' !in path
    requires query.Some? ==> ':' !in query.value
    ensures ':' !in scheme
    ensures ':' !in "//" + host + path + QuerySuffix(query)
  {
    assert ':' !in scheme by {
      forall j | 0 <= j < |scheme| ensures scheme[j] != ':' { assert IsSchemeChar(scheme[j]); }
    }
    assert ':' !in host by {
      forall j | 0 <= j < |host| ensures host[j] != ':' { assert host[j] !in {'/', '?', '#', ':'}; }
    }
    assert ':' !in QuerySuffix(query);
  }

  /** The key `find_bucket_key` reports for the path key `key` under a scheme: for a
      scheme that uses params, `key` with the params of its last segment cut off. */
  function HttpKey(scheme: string, key: string): string
  {
    if scheme in UsesParams then SplitParams(key).0 else key
  }

  /** For a `scheme://host/bucket/key?query` URL the bucket is the first path segment, the
      key the rest of the path less the params of its last segment when the scheme uses
      them, and the query string is kept apart from the key. */
  lemma FindBucketKeyHttp(scheme: string, host: string, bucket: string, key: string, query: Option<string>)
    requires IsSchemeName(scheme) && (|scheme| >= 2 ==> scheme[|scheme| - 2..] != "s3")
    requires forall j :: 0 <= j < |host| ==> host[j] !in {'/', '?', '#', ':', '[', ']'}
    requires '/' !in bucket && '?' !in bucket && '#' !in bucket && ':' !in bucket
    requires '?' !in key && '#' !in key && ':' !in key
    requires query.Some? ==> '#' !in query.value && ':' !in query.value
    requires NoUnsafe(host) && NoUnsafe(bucket) && NoUnsafe(key) && (query.Some? ==> NoUnsafe(query.value))
    ensures FindBucketKey(scheme + "://" + host + "/" + bucket + "/" + key + QuerySuffix(query))
         == Ok(HttpLocation(bucket, HttpKey(LowerAscii(scheme), key), if query.Some? then query.value else ""))
  {
    HttpUrlParts(scheme, host, bucket, key, query);
    SplitBucketPath(bucket, HttpKey(LowerAscii(scheme), key));
  }

  /** A URL with a scheme other than `s3`, a host and the path `/bucket/key` holds no
      `s3://` and parses into that path, less the key's params, and that query. */
  lemma HttpUrlParts(scheme: string, host: string, bucket: string, key: string, query: Option<string>)
    requires IsSchemeName(scheme) && (|scheme| >= 2 ==> scheme[|scheme| - 2..] != "s3")
    requires forall j :: 0 <= j < |host| ==> host[j] !in {'/', '?', '#', ':', '[', ']'}
    requires '/' !in bucket && '?' !in bucket && '#' !in bucket && ':' !in bucket
    requires '?' !in key && '#' !in key && ':' !in key
    requires query.Some? ==> '#' !in query.value && ':' !in query.value
    requires NoUnsafe(host) && NoUnsafe(bucket) && NoUnsafe(key) && (query.Some? ==> NoUnsafe(query.value))
    ensures var url := scheme + "://" + host + "/" + bucket + "/" + key + QuerySuffix(query);
      && !Contains(url, "s3://")
      && UrlParse(url).Ok?
      && UrlParse(url).value.path == "/" + bucket + "/" + HttpKey(LowerAscii(scheme), key)
      && UrlParse(url).value.query == (if query.Some? then query.value else "")
  {
    var path := "/" + bucket + "/" + key;
    var rest := "//" + host + path + QuerySuffix(query);
    HttpUrlRegroup(scheme, host, bucket, key, QuerySuffix(query));
    assert forall j :: 0 <= j < |host| ==> host[j] !in {'/', '?', '#', ':'};
    NoColonInHttpUrl(scheme, host, path, query);
    NoS3Scheme(scheme, rest);
    assert forall j :: 0 <= j < |host| ==> host[j] !in {'/', '?', '#', '[', ']'};
    UrlParseHttp(scheme, host, path, query);
    PathParamsUnder(LowerAscii(scheme), bucket, key);
  }

  /** The same URL read as scheme, `:` and the rest, or as scheme, `://`, host and
      path. */
  lemma HttpUrlRegroup(scheme: string, host: string, bucket: string, key: string, qs: string)
    ensures var url := scheme + "://" + host + "/" + bucket + "/" + key + qs;
      var path := "/" + bucket + "/" + key;
      && url == scheme + ":" + ("//" + host + path + qs)
      && url == scheme + "://" + host + path + qs
  {
  }

  /** `https://host/bucket/key` without a query string: the key less the params of its
      last segment. */
  lemma FindBucketKeyHttps(host: string, bucket: string, key: string)
    requires forall j :: 0 <= j < |host| ==> host[j] !in {'/', '?', '#', ':', '[', ']'}
    requires '/' !in bucket && '?' !in bucket && '#' !in bucket && ':' !in bucket
    requires '?' !in key && '#' !in key && ':' !in key
    requires NoUnsafe(host) && NoUnsafe(bucket) && NoUnsafe(key)
    ensures FindBucketKey("https://" + host + "/" + bucket + "/" + key) == Ok(HttpLocation(bucket, SplitParams(key).0, ""))
  {
    var url := "https://" + host + "/" + bucket + "/" + key;
    assert IsSchemeName("https") && "https"[3..] == "ps";
    assert LowerAscii("https") == "https";
    assert "https" + "://" == "https://";
    FindBucketKeyHttp("https", host, bucket, key, None);
    assert QuerySuffix(None) == "" && url + "" == url;
  }

  /** A letter, digit, `-` or `.`, as in host names and plain bucket names and keys. */
  predicate IsNameChar(c: char) { IsAsciiLetter(c) || IsDigit(c) || c == '-' || c == '.' }

  /** A name made of letters, digits, `-` and `.` holds none of the characters that
      steer the URL parse. */
  lemma PlainName(s: string)
    requires forall j :: 0 <= j < |s| ==> IsNameChar(s[j])
    ensures forall j :: 0 <= j < |s| ==> s[j] !in {'/', '?', '#', ':', '[', ']'}
    ensures NoUnsafe(s) && '/' !in s && '?' !in s && '#' !in s && ':' !in s && ';' !in s
  {
  }

  /** `s3://bucket/key` with a plain bucket and key gives that bucket and key. */
  lemma FindBucketKeyS3Plain(bucket: string, key: string)
    requires ':' !in bucket && ':' !in key && '/' !in bucket
    ensures FindBucketKey("s3://" + bucket + "/" + key) == Ok(S3Location(bucket, key))
  {
    var rest := bucket + "/" + key;
    var url := "s3://" + rest;
    assert "s3://" + bucket + "/" + key == url;
    assert rest == bucket + ['/'] + key;
    assert ':' !in rest;
    MissingCharNotContained(rest, "s3://", 2);
    ReplaceLeading("s3://", rest, "");
    assert "" + rest == rest;
    SplitAtFirst(bucket, '/', key);
    JoinSplit(key, '/');
    assert StartsWith(url, "s3://");
  }
}
