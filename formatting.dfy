/** The dashboard's display helpers for host statistics (public/script.js
    `formatUptime` and `formatMemorySize`). Numbers are exact reals: JavaScript's
    floating-point rounding is not modelled. */
module Formatting {
  import opened Text

  const SecondsPerDay: int := 3600 * 24
  const SecondsPerHour: int := 3600
  const SecondsPerMinute: int := 60

  /** An uptime split into whole days, hours and minutes and the seconds left. */
  datatype UptimeParts = UptimeParts(days: int, hours: nat, minutes: nat, rest: real)

  /** The decomposition `formatUptime` computes with `Math.floor` and
      subtraction: the parts add back up to the input, hours below 24, minutes
      below 60, and the seconds left in [0, 60). */
  function SplitUptime(seconds: real): (p: UptimeParts)
    ensures (p.days * SecondsPerDay + p.hours * SecondsPerHour + p.minutes * SecondsPerMinute) as real + p.rest == seconds
    ensures p.hours < 24 && p.minutes < 60 && 0.0 <= p.rest < 60.0
  {
    var days := (seconds / SecondsPerDay as real).Floor;
    var afterDays := seconds - (days * SecondsPerDay) as real;
    var hours := (afterDays / SecondsPerHour as real).Floor;
    var afterHours := afterDays - (hours * SecondsPerHour) as real;
    var minutes := (afterHours / SecondsPerMinute as real).Floor;
    UptimeParts(days, hours, minutes, afterHours - (minutes * SecondsPerMinute) as real)
  }

  /** The bounds determine the decomposition: any split of the same uptime with
      hours below 24, minutes below 60 and seconds left in [0, 60) is the one
      `formatUptime` computes. */
  lemma SplitUptimeUnique(seconds: real, q: UptimeParts)
    requires (q.days * SecondsPerDay + q.hours * SecondsPerHour + q.minutes * SecondsPerMinute) as real + q.rest == seconds
    requires q.hours < 24 && q.minutes < 60 && 0.0 <= q.rest < 60.0
    ensures SplitUptime(seconds) == q
  {
    var t := q.hours * SecondsPerHour + q.minutes * SecondsPerMinute;
    var afterDays := seconds - (q.days * SecondsPerDay) as real;
    var afterHours := afterDays - (q.hours * SecondsPerHour) as real;
    FloorOfWholePlusFraction(q.days, (t as real + q.rest) / SecondsPerDay as real);
    FloorOfWholePlusFraction(q.hours, ((q.minutes * SecondsPerMinute) as real + q.rest) / SecondsPerHour as real);
    FloorOfWholePlusFraction(q.minutes, q.rest / SecondsPerMinute as real);
  }

  /** A whole number plus a fraction in [0, 1) floors to the whole number. */
  lemma FloorOfWholePlusFraction(n: int, f: real)
    requires 0.0 <= f < 1.0
    ensures (n as real + f).Floor == n
  {
  }

  /** For a whole number of seconds the seconds left are whole too, and days,
      hours, minutes and seconds add back up to the input exactly. */
  lemma WholeSecondsSplit(n: int)
    ensures var p := SplitUptime(n as real);
            && p.rest == p.rest.Floor as real
            && p.days * SecondsPerDay + p.hours * SecondsPerHour + p.minutes * SecondsPerMinute + p.rest.Floor == n
  {
  }

  /** `formatUptime(seconds)`: `<d>j <h>h <m>m <s>s`, leading units left out while
      they and every larger unit are zero; the seconds are always shown. */
  function FormatUptime(seconds: real): (text: string)
    ensures var p := SplitUptime(seconds);
            && 0 <= p.rest.Floor < 60
            && EndsWith(text, NatToString(p.rest.Floor) + "s")
            && ('j' in text <==> p.days > 0)
            && ('h' in text <==> p.days > 0 || p.hours > 0)
            && ('m' in text <==> p.days > 0 || p.hours > 0 || p.minutes > 0)
  {
    var p := SplitUptime(seconds);
    var secs: nat := p.rest.Floor;
    LettersNotDigits(p.hours);
    LettersNotDigits(p.minutes);
    LettersNotDigits(secs);
    var dayPart := if p.days > 0 then LettersNotDigits(p.days); NatToString(p.days) + "j " else "";
    var hourPart := if p.hours > 0 || p.days > 0 then NatToString(p.hours) + "h " else "";
    var minutePart := if p.minutes > 0 || p.hours > 0 || p.days > 0 then NatToString(p.minutes) + "m " else "";
    dayPart + hourPart + minutePart + NatToString(secs) + "s"
  }

  predicate EndsWith(s: string, suffix: string) {
    |suffix| <= |s| && s[|s| - |suffix|..] == suffix
  }

  /** The unit letters never occur inside a rendered number. */
  lemma LettersNotDigits(n: nat)
    ensures 'j' !in NatToString(n) && 'h' !in NatToString(n) && 'm' !in NatToString(n) && 's' !in NatToString(n)
  {
    var s := NatToString(n);
    assert forall c :: c in s ==> IsDigit(c);
  }

  /** The labels `formatMemorySize` can append. */
  const Units: seq<string> := ["B", "KB", "MB", "GB", "TB"]

  function Power1024(k: nat): (p: real)
    ensures p >= 1.0
  {
    if k == 0 then 1.0 else 1024.0 * Power1024(k - 1)
  }

  /** The unit-selection loop of `formatMemorySize`: divide by 1024 while the
      size is at least 1024 and a larger unit is left. The label is
      `Units[unitIndex]`, always in range; the unit is the largest one (up to TB)
      that `bytes` reaches, and the scaled size times that unit is `bytes`. */
  method FormatMemorySize(bytes: real) returns (size: real, unitIndex: nat)
    ensures unitIndex < |Units|
    ensures size * Power1024(unitIndex) == bytes
    ensures unitIndex < |Units| - 1 ==> size < 1024.0 && bytes < Power1024(unitIndex + 1)
    ensures unitIndex > 0 ==> 1.0 <= size && Power1024(unitIndex) <= bytes
  {
    size, unitIndex := bytes, 0;
    while size >= 1024.0 && unitIndex < |Units| - 1
      invariant unitIndex < |Units|
      invariant size * Power1024(unitIndex) == bytes
      invariant unitIndex > 0 ==> 1.0 <= size
    {
      DivideByUnit(size, unitIndex);
      size, unitIndex := size / 1024.0, unitIndex + 1;
    }
    UnitBounds(size, unitIndex);
  }

  /** Dividing by 1024 moves one unit up without changing the amount. */
  lemma DivideByUnit(size: real, k: nat)
    ensures (size / 1024.0) * Power1024(k + 1) == size * Power1024(k)
  {
    calc {
      (size / 1024.0) * Power1024(k + 1);
      (size / 1024.0) * (1024.0 * Power1024(k));
      size * Power1024(k);
    }
  }

  lemma UnitBounds(size: real, k: nat)
    ensures 1.0 <= size ==> Power1024(k) <= size * Power1024(k)
    ensures size < 1024.0 ==> size * Power1024(k) < Power1024(k + 1)
  {
    var p := Power1024(k);
    assert Power1024(k + 1) == 1024.0 * p;
    if 1.0 <= size {
      assert 1.0 * p <= size * p;
    }
    if size < 1024.0 {
      assert size * p < 1024.0 * p;
    }
  }
}
