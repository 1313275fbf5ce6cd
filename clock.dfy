/**
  The part of PHP's `gmdate("H:i:s", $t)` that the ETA uses: the time of day
  of a Unix timestamp in UTC, as zero-padded hours, minutes and seconds. The
  date is dropped, so a duration of a day or more wraps around, and a
  negative timestamp reads as a time on the previous day.
 */
module Clock {
  import opened Options
  import opened Arith
  import opened Decimal

  const SecondsPerDay: nat := 86400

  /** Two decimal digits, the first one possibly a padding zero. */
  function TwoDigits(n: nat): (s: string)
    requires n < 100
    ensures |s| == 2 && AllDigits(s) && Value(s) == n
  {
    var s := [DigitChar(n / 10), DigitChar(n % 10)];
    assert s[..1][..0] == [];
    assert Value(s[..1]) == n / 10;
    s
  }

  function FormatClock(t: int): (s: string)
    ensures |s| == 8 && s[2] == ':' && s[5] == ':'
    ensures AllDigits(s[..2]) && AllDigits(s[3..5]) && AllDigits(s[6..])
  {
    var d := t % SecondsPerDay;
    TwoDigits(d / 3600) + ":" + TwoDigits(d / 60 % 60) + ":" + TwoDigits(d % 60)
  }

  /** Reads `HH:MM:SS` (hours below 24, minutes and seconds below 60) as seconds since midnight. */
  function ParseClock(s: string): Option<nat>
  {
    if |s| == 8 && s[2] == ':' && s[5] == ':'
       && AllDigits(s[..2]) && AllDigits(s[3..5]) && AllDigits(s[6..])
       && Value(s[..2]) < 24 && Value(s[3..5]) < 60 && Value(s[6..]) < 60
    then Some(Value(s[..2]) * 3600 + Value(s[3..5]) * 60 + Value(s[6..]))
    else None
  }

  /** The clock text determines the timestamp's time of day. */
  lemma ClockRoundTrip(t: int)
    ensures ParseClock(FormatClock(t)) == Some(t % SecondsPerDay)
  {
    var d := t % SecondsPerDay;
    var s := FormatClock(t);
    assert s[..2] == TwoDigits(d / 3600);
    assert s[3..5] == TwoDigits(d / 60 % 60);
    assert s[6..] == TwoDigits(d % 60);
    TimeOfDay(d);
  }

  /** Hours, minutes and seconds of a time of day put back together. */
  lemma TimeOfDay(d: int)
    requires 0 <= d < SecondsPerDay
    ensures d / 3600 < 24 && d / 60 % 60 < 60
    ensures d == d / 3600 * 3600 + d / 60 % 60 * 60 + d % 60
  {
    var a, s := d / 60, d % 60;
    var h, m := a / 60, a % 60;
    assert a == 60 * h + m;
    assert d == 3600 * h + (60 * m + s);
    DivModUnique(d, 3600, h, 60 * m + s);
  }

  /** Two timestamps print alike exactly when they fall at the same time of day. */
  lemma FormatClockSameDay(t: int, u: int)
    ensures FormatClock(t) == FormatClock(u) <==> t % SecondsPerDay == u % SecondsPerDay
  {
    if FormatClock(t) == FormatClock(u) {
      ClockRoundTrip(t);
      ClockRoundTrip(u);
    }
  }
}
