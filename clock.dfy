/** The `HH:MM:SS` rendering of a second within a day, shared by `convert_timestamp`
    (via `timedelta.seconds`) and the speech-to-text `timestamp` helper (via
    `time.gmtime` and `strftime("%H:%M:%S")`). */
module Clock {
  import opened Strings

  const SecondsPerDay: nat := 86400

  /** The second within its day of a count of seconds since midnight (or the epoch);
      negative counts fall on the previous day, as for `timedelta` and `gmtime`. */
  function SecondOfDay(n: int): (r: nat)
    ensures r < SecondsPerDay
    ensures 0 <= n < SecondsPerDay ==> r == n
  {
    n % SecondsPerDay
  }

  /** A string of the form `HH:MM:SS` with hours below 24 and minutes and seconds
      below 60. */
  predicate WellFormedClock(r: string)
  {
    && |r| == 8 && r[2] == ':' && r[5] == ':'
    && AllDigits(r[0..2]) && AllDigits(r[3..5]) && AllDigits(r[6..8])
    && DigitsValue(r[0..2]) < 24 && DigitsValue(r[3..5]) < 60 && DigitsValue(r[6..8]) < 60
  }

  /** The number of seconds a well-formed `HH:MM:SS` string denotes. */
  function ClockValue(r: string): nat
    requires WellFormedClock(r)
  {
    DigitsValue(r[0..2]) * 3600 + DigitsValue(r[3..5]) * 60 + DigitsValue(r[6..8])
  }

  /** Zero-padded `HH:MM:SS` of a second within a day; reading it back gives the
      second again. */
  function HhMmSs(secs: nat): (r: string)
    requires secs < SecondsPerDay
    ensures WellFormedClock(r) && ClockValue(r) == secs
  {
    var h, m, s := secs / 3600, secs % 3600 / 60, secs % 60;
    var r := [DigitChar(h / 10), DigitChar(h % 10), ':', DigitChar(m / 10), DigitChar(m % 10), ':', DigitChar(s / 10), DigitChar(s % 10)];
    assert r[0..2] == Pad2(h) && r[3..5] == Pad2(m) && r[6..8] == Pad2(s);
    SplitSeconds(secs);
    r
  }

  /** Hours, minutes and seconds add back up to the second of the day. */
  lemma SplitSeconds(secs: nat)
    requires secs < SecondsPerDay
    ensures secs / 3600 < 24 && secs % 3600 / 60 < 60
    ensures (secs / 3600) * 3600 + (secs % 3600 / 60) * 60 + secs % 60 == secs
  {
  }

  /** The clock of `h` hours, `m` minutes and `s` seconds shows those digits. */
  lemma HhMmSsOf(h: nat, m: nat, s: nat)
    requires h < 24 && m < 60 && s < 60
    ensures HhMmSs(h * 3600 + m * 60 + s)
         == [DigitChar(h / 10), DigitChar(h % 10), ':', DigitChar(m / 10), DigitChar(m % 10), ':', DigitChar(s / 10), DigitChar(s % 10)]
  {
    var secs := h * 3600 + m * 60 + s;
    assert secs / 3600 == h;
    assert secs % 3600 == m * 60 + s;
    assert secs % 3600 / 60 == m;
    assert secs % 60 == s;
  }
}
