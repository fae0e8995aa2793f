/**
 * `format_time`: a clock reading shown as minutes and seconds. Clock values
 * are held in milliseconds; Python's `int()` keeps the whole seconds,
 * truncating toward zero, and `//` and `%` by 60 then floor.
 */
module ClockFace {
  import opened Wrappers

  /** `int(seconds)` for a reading of `ms` milliseconds. */
  function WholeSeconds(ms: int): (s: int)
    ensures ms >= 0 ==> 0 <= s * 1000 <= ms < s * 1000 + 1000
    ensures ms < 0 ==> s * 1000 - 1000 < ms <= s * 1000 <= 0
  {
    if ms >= 0 then ms / 1000 else -((-ms) / 1000)
  }

  /** The minutes and seconds fields that `format_time` prints. */
  function Fields(ms: int): (f: (int, int))
    ensures 0 <= f.1 < 60
    ensures f.0 * 60 + f.1 == WholeSeconds(ms)
    ensures ms >= 0 ==> 0 <= f.0 && (f.0 * 60 + f.1) * 1000 <= ms < (f.0 * 60 + f.1) * 1000 + 1000
  {
    var whole := WholeSeconds(ms);
    (whole / 60, whole % 60)
  }

  predicate IsDigit(c: char)
  {
    '0' <= c <= '9'
  }

  function DigitChar(d: int): (c: char)
    requires 0 <= d < 10
    ensures IsDigit(c) && DigitValue(c) == d
  {
    (48 + d) as char
  }

  function DigitValue(c: char): int
  {
    c as int - 48
  }

  /** The decimal digits of `n`, without leading zeros. */
  function Decimal(n: nat): (r: string)
    ensures 1 <= |r|
    ensures forall i :: 0 <= i < |r| ==> IsDigit(r[i])
    decreases n
  {
    if n < 10 then [DigitChar(n)] else Decimal(n / 10) + [DigitChar(n % 10)]
  }

  /** Python's `f"{n:02d}"`: at least two characters, zero-filled after any sign. */
  function Pad2(n: int): (r: string)
    ensures 2 <= |r|
  {
    if n < 0 then "-" + Decimal(-n)
    else if n < 10 then "0" + Decimal(n)
    else Decimal(n)
  }

  /** `format_time`. */
  function FormatTime(ms: int): (r: string)
    ensures |r| >= 5 && r[|r| - 3] == ':'
    ensures IsDigit(r[|r| - 2]) && IsDigit(r[|r| - 1])
    ensures DigitValue(r[|r| - 2]) * 10 + DigitValue(r[|r| - 1]) == Fields(ms).1
  {
    var f := Fields(ms);
    Pad2TwoDigits(f.1);
    Pad2(f.0) + ":" + Pad2(f.1)
  }

  /** An `MM:SS` display: two digits, a colon, and seconds from 00 to 59. */
  predicate IsClockDisplay(s: string)
  {
    |s| == 5 && s[2] == ':' && IsDigit(s[0]) && IsDigit(s[1]) && '0' <= s[3] <= '5' && IsDigit(s[4])
  }

  /** Reads an `MM:SS` display back as a number of seconds. */
  function ParseClock(s: string): (r: Option<int>)
    ensures r.Some? <==> IsClockDisplay(s)
    ensures r.Some? ==> 0 <= r.value < 6000
  {
    if IsClockDisplay(s) then
      Some((DigitValue(s[0]) * 10 + DigitValue(s[1])) * 60 + DigitValue(s[3]) * 10 + DigitValue(s[4]))
    else
      None
  }

  lemma Pad2TwoDigits(n: int)
    requires 0 <= n < 100
    ensures Pad2(n) == [DigitChar(n / 10), DigitChar(n % 10)]
  {
    if n >= 10 {
      assert Decimal(n / 10) == [DigitChar(n / 10)];
    }
  }

  lemma Pad2Long(n: int)
    requires n >= 100
    ensures |Pad2(n)| >= 3
  {
    assert Decimal(n) == Decimal(n / 10) + [DigitChar(n % 10)];
    assert Decimal(n / 10) == Decimal(n / 100) + [DigitChar((n / 10) % 10)];
  }

  /**
   * Below 100 minutes the display is exactly `MM:SS`: two digits of
   * minutes, a colon, two digits of seconds.
   */
  lemma FormatTimeShape(ms: int)
    requires 0 <= ms < 6_000_000
    ensures IsClockDisplay(FormatTime(ms))
  {
    var f := Fields(ms);
    assert f.0 < 100;
    Pad2TwoDigits(f.0);
    Pad2TwoDigits(f.1);
  }

  /** For a non-negative reading, the display is five characters exactly when it is under 100 minutes. */
  lemma FormatTimeLength(ms: int)
    requires 0 <= ms
    ensures |FormatTime(ms)| == 5 <==> ms < 6_000_000
  {
    var f := Fields(ms);
    if ms < 6_000_000 {
      FormatTimeShape(ms);
    } else {
      assert f.0 >= 100;
      Pad2Long(f.0);
    }
  }

  /** Reading the display back gives the whole seconds it was made from. */
  lemma FormatTimeRoundTrip(ms: int)
    requires 0 <= ms < 6_000_000
    ensures ParseClock(FormatTime(ms)) == Some(ms / 1000)
  {
    var f := Fields(ms);
    assert f.0 < 100;
    Pad2TwoDigits(f.0);
    Pad2TwoDigits(f.1);
    var r := FormatTime(ms);
    assert r == [DigitChar(f.0 / 10), DigitChar(f.0 % 10), ':', DigitChar(f.1 / 10), DigitChar(f.1 % 10)];
    assert DigitValue(r[0]) * 10 + DigitValue(r[1]) == f.0;
    assert DigitValue(r[3]) * 10 + DigitValue(r[4]) == f.1;
  }

  /** Every `MM:SS` display is what `format_time` shows for the seconds it reads as. */
  lemma ParseClockRoundTrip(s: string)
    requires IsClockDisplay(s)
    ensures FormatTime(ParseClock(s).value * 1000) == s
  {
    var t := ParseClock(s).value;
    var m := DigitValue(s[0]) * 10 + DigitValue(s[1]);
    var sec := DigitValue(s[3]) * 10 + DigitValue(s[4]);
    assert t == m * 60 + sec && 0 <= sec < 60 && 0 <= m < 100;
    var f := Fields(t * 1000);
    assert WholeSeconds(t * 1000) == t;
    assert f == (m, sec);
    Pad2TwoDigits(m);
    Pad2TwoDigits(sec);
    assert DigitChar(m / 10) == s[0] && DigitChar(m % 10) == s[1];
    assert DigitChar(sec / 10) == s[3] && DigitChar(sec % 10) == s[4];
  }
}
