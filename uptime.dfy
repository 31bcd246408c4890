/**
 * The uptime text published with every snapshot: an elapsed number of seconds
 * broken into whole days, hours and minutes, the leftover seconds dropped.
 *
 * Elapsed time is a whole number of seconds here. Python's `//` and `%` with a
 * positive divisor round towards minus infinity, which is what Dafny's
 * Euclidean `/` and `%` do for a positive divisor, so a negative elapsed time
 * (a clock set back) is decomposed exactly as the program does it.
 */
module Uptime {
  import opened Wrappers

  /** The no-break space that joins each number to its unit and pads the gaps between groups. */
  const NoBreakSpace: char := '\U{00A0}'

  /** The units of the three groups; the first two carry the three no-break spaces that separate the groups. */
  const DayUnit: string := ['d', NoBreakSpace, NoBreakSpace, NoBreakSpace]
  const HourUnit: string := ['h', NoBreakSpace, NoBreakSpace, NoBreakSpace]
  const MinuteUnit: string := "min"

  datatype Duration = Duration(days: int, hours: int, minutes: int)

  /** The number of seconds a duration stands for. */
  function Seconds(d: Duration): int
  {
    d.days * 86400 + d.hours * 3600 + d.minutes * 60
  }

  /**
   * Whole days, hours within the day and minutes within the hour: the
   * duration covers `seconds` up to less than one minute.
   */
  function Decompose(seconds: int): (d: Duration)
    ensures 0 <= d.hours < 24 && 0 <= d.minutes < 60
    ensures Seconds(d) <= seconds < Seconds(d) + 60
  {
    var days := seconds / 86400;
    var hours := (seconds % 86400) / 3600;
    var minutes := (seconds % 3600) / 60;
    HourRemainder(seconds);
    Duration(days, hours, minutes)
  }

  /** Taking the remainder by a day first does not change the remainder by an hour. */
  lemma HourRemainder(seconds: int)
    ensures seconds % 3600 == (seconds % 86400) % 3600
    ensures seconds == 86400 * (seconds / 86400) + 3600 * ((seconds % 86400) / 3600) + seconds % 3600
  {
    var q, r := seconds / 86400, seconds % 86400;
    var h, r2 := r / 3600, r % 3600;
    assert seconds == 3600 * (24 * q + h) + r2;
  }

  /** The decomposition is the only one with hours below 24 and minutes below 60. */
  lemma DecomposeUnique(seconds: int, d: Duration)
    requires 0 <= d.hours < 24 && 0 <= d.minutes < 60
    requires Seconds(d) <= seconds < Seconds(d) + 60
    ensures Decompose(seconds) == d
  {
    var e := Decompose(seconds);
    MinuteMultiple(seconds, MinutesOf(d), MinutesOf(e));
    assert 3600 * d.hours + 60 * d.minutes < 86400;
    assert 3600 * e.hours + 60 * e.minutes < 86400;
    assert d.days == e.days;
    assert d.hours == e.hours;
  }

  /** The whole minutes a duration stands for. */
  function MinutesOf(d: Duration): (m: int)
    ensures Seconds(d) == 60 * m
  {
    d.days * 1440 + d.hours * 60 + d.minutes
  }

  /** Only one whole minute count puts `seconds` within its minute. */
  lemma MinuteMultiple(seconds: int, a: int, b: int)
    requires 60 * a <= seconds < 60 * a + 60 && 60 * b <= seconds < 60 * b + 60
    ensures a == b
  {
  }

  /** The decomposition stands for the start of the minute that `seconds` falls in. */
  lemma DecomposeMinuteStart(seconds: int)
    ensures Seconds(Decompose(seconds)) == 60 * (seconds / 60)
  {
    MinuteMultiple(seconds, MinutesOf(Decompose(seconds)), seconds / 60);
  }

  /** Two elapsed times decompose alike exactly when they fall in the same minute. */
  lemma DecomposeSameMinute(s: int, t: int)
    ensures Decompose(s) == Decompose(t) <==> s / 60 == t / 60
  {
    DecomposeMinuteStart(s);
    DecomposeMinuteStart(t);
    if s / 60 == t / 60 {
      DecomposeUnique(t, Decompose(s));
    }
  }

  // Decimal text of an integer, as Python's `str` writes it.

  predicate IsDigit(c: char)
  {
    '0' <= c <= '9'
  }

  predicate AllDigits(s: string)
  {
    forall i :: 0 <= i < |s| ==> IsDigit(s[i])
  }

  function DigitChar(d: nat): (c: char)
    requires d < 10
    ensures IsDigit(c)
  {
    ('0' as int + d) as char
  }

  function DigitValue(c: char): (d: nat)
    requires IsDigit(c)
    ensures d < 10
  {
    c as int - '0' as int
  }

  /** The digits of `n`, most significant first, without leading zeros. */
  function NatToDecimal(n: nat): (r: string)
    ensures r != [] && AllDigits(r)
    ensures |r| > 1 ==> r[0] != '0'
  {
    if n < 10 then [DigitChar(n)] else NatToDecimal(n / 10) + [DigitChar(n % 10)]
  }

  function IntToDecimal(n: int): string
  {
    if n < 0 then "-" + NatToDecimal(-n) else NatToDecimal(n)
  }

  function DecimalToNat(s: string): nat
    requires AllDigits(s)
  {
    if s == [] then 0 else 10 * DecimalToNat(s[..|s| - 1]) + DigitValue(s[|s| - 1])
  }

  /** Reads an optionally negative decimal integer. */
  function ParseInt(s: string): Option<int>
  {
    if s != [] && s[0] == '-' then
      if |s| > 1 && AllDigits(s[1..]) then Some(-(DecimalToNat(s[1..]) as int)) else None
    else if s != [] && AllDigits(s) then Some(DecimalToNat(s))
    else None
  }

  lemma {:induction false} NatDecimalRoundTrip(n: nat)
    ensures DecimalToNat(NatToDecimal(n)) == n
  {
    if n >= 10 {
      var r := NatToDecimal(n);
      assert r[..|r| - 1] == NatToDecimal(n / 10);
      NatDecimalRoundTrip(n / 10);
    }
  }

  lemma IntDecimalRoundTrip(n: int)
    ensures ParseInt(IntToDecimal(n)) == Some(n)
  {
    if n < 0 {
      var r := IntToDecimal(n);
      assert r[1..] == NatToDecimal(-n);
      NatDecimalRoundTrip(-n);
    } else {
      NatDecimalRoundTrip(n);
    }
  }

  lemma IntDecimalHasNoSpace(n: int)
    ensures NoBreakSpace !in IntToDecimal(n)
  {
    var r := NatToDecimal(if n < 0 then -n else n);
    assert forall i :: 0 <= i < |r| ==> r[i] != NoBreakSpace;
  }

  // The uptime text and its reading.

  /** One group of the uptime text: a number, a no-break space, its unit. */
  function Group(n: int, unit: string): string
  {
    IntToDecimal(n) + [NoBreakSpace] + unit
  }

  /**
   * The days, hours and minutes, each followed by a no-break space and its
   * unit, with three more no-break spaces after the days and after the hours.
   */
  function FormatUptime(seconds: int): string
  {
    var d := Decompose(seconds);
    Group(d.days, DayUnit) + Group(d.hours, HourUnit) + Group(d.minutes, MinuteUnit)
  }

  /** The text before the first `c` and the text after it, if `c` occurs. */
  function SplitAtFirst(s: string, c: char): Option<(string, string)>
  {
    if s == [] then None
    else if s[0] == c then Some(([], s[1..]))
    else match SplitAtFirst(s[1..], c)
      case None => None
      case Some(parts) => Some(([s[0]] + parts.0, parts.1))
  }

  lemma {:induction false} SplitAtFirstOf(a: string, c: char, b: string)
    requires c !in a
    ensures SplitAtFirst(a + [c] + b, c) == Some((a, b))
  {
    if a == [] {
      assert a + [c] + b == [c] + b;
    } else {
      assert (a + [c] + b)[0] == a[0] != c;
      assert (a + [c] + b)[1..] == a[1..] + [c] + b;
      SplitAtFirstOf(a[1..], c, b);
      assert [a[0]] + a[1..] == a;
    }
  }

  /** Reads one group with the given unit and returns its number and the rest of the text. */
  function ParseGroup(s: string, unit: string): Option<(int, string)>
  {
    match SplitAtFirst(s, NoBreakSpace)
    case None => None
    case Some(parts) =>
      var (number, rest) := parts;
      if |unit| <= |rest| && rest[..|unit|] == unit then
        match ParseInt(number)
        case None => None
        case Some(n) => Some((n, rest[|unit|..]))
      else None
  }

  function ParseUptime(s: string): Option<Duration>
  {
    match ParseGroup(s, DayUnit)
    case None => None
    case Some(day) =>
      match ParseGroup(day.1, HourUnit)
      case None => None
      case Some(hour) =>
        match ParseGroup(hour.1, MinuteUnit)
        case None => None
        case Some(minute) =>
          if minute.1 == [] then Some(Duration(day.0, hour.0, minute.0)) else None
  }

  lemma GroupRoundTrip(n: int, unit: string, rest: string)
    ensures ParseGroup(Group(n, unit) + rest, unit) == Some((n, rest))
  {
    IntDecimalHasNoSpace(n);
    assert Group(n, unit) + rest == IntToDecimal(n) + [NoBreakSpace] + (unit + rest);
    SplitAtFirstOf(IntToDecimal(n), NoBreakSpace, unit + rest);
    assert (unit + rest)[..|unit|] == unit;
    assert (unit + rest)[|unit|..] == rest;
    IntDecimalRoundTrip(n);
  }

  /** The uptime text gives back the days, hours and minutes it was made from. */
  lemma UptimeRoundTrip(seconds: int)
    ensures ParseUptime(FormatUptime(seconds)) == Some(Decompose(seconds))
  {
    var d := Decompose(seconds);
    var g1, g2, g3 := Group(d.days, DayUnit), Group(d.hours, HourUnit), Group(d.minutes, MinuteUnit);
    assert FormatUptime(seconds) == g1 + (g2 + g3);
    GroupRoundTrip(d.days, DayUnit, g2 + g3);
    GroupRoundTrip(d.hours, HourUnit, g3);
    GroupRoundTrip(d.minutes, MinuteUnit, []);
    assert g3 + [] == g3;
  }

  /** Two uptime texts are equal exactly when the elapsed times fall in the same minute. */
  lemma UptimeTextSameMinute(s: int, t: int)
    ensures FormatUptime(s) == FormatUptime(t) <==> s / 60 == t / 60
  {
    DecomposeSameMinute(s, t);
    UptimeRoundTrip(s);
    UptimeRoundTrip(t);
  }

  /** 1 day, 1 hour, 1 minute and 1 second: the second is dropped. */
  lemma UptimeExample()
    ensures FormatUptime(90061) ==
      "1\U{00A0}d\U{00A0}\U{00A0}\U{00A0}1\U{00A0}h\U{00A0}\U{00A0}\U{00A0}1\U{00A0}min"
  {
    assert Decompose(90061) == Duration(1, 1, 1);
  }
}
