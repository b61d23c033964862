/** `get_pretty_time` and its inner `totalDuration`: a divmod chain that
    breaks a duration in whole seconds into years, days, hours, minutes and
    seconds.

    Durations are whole-second values. For the positive divisors used here
    Dafny's `/` and `%` are Python's floor `divmod`, so negative whole-second
    durations behave as in run.py as well. */
module Duration {
  import opened Text

  const SecondsPerYear: int := 31536000
  const SecondsPerDay: int := 86400
  const SecondsPerHour: int := 3600
  const SecondsPerMinute: int := 60

  /** Hours, minutes and seconds within one day. */
  datatype Clock = Clock(hours: nat, minutes: nat, seconds: nat)

  predicate ValidClock(c: Clock) {
    c.hours < 24 && c.minutes < 60 && c.seconds < 60
  }

  function ClockSeconds(c: Clock): int {
    c.hours * SecondsPerHour + c.minutes * SecondsPerMinute + c.seconds
  }

  /** A year is a whole number of days, so taking the remainder by a year
      first does not change the remainder by a day. */
  lemma YearRemainderByDay(d: int)
    ensures (d % SecondsPerYear) % SecondsPerDay == d % SecondsPerDay
  {
  }

  /** `n` whole units of `unit` seconds fit in `x`, and `n + 1` do not. */
  predicate RoundsDown(n: int, x: int, unit: int) {
    n * unit <= x < (n + 1) * unit
  }

  /** `int(divmod(x, unit)[0])`: how many whole units fit in `x`, rounding
      down as Python's floor division does. */
  function WholeUnits(x: int, unit: int): (n: int)
    requires unit > 0
    ensures RoundsDown(n, x, unit)
  {
    assert x == (x / unit) * unit + x % unit;
    assert (x / unit + 1) * unit == (x / unit) * unit + unit;
    x / unit
  }

  /** The remainders kept by `totalDuration`: `y = divmod(d, year)`,
      `d = divmod(y[1], day)`, `h = divmod(d[1], hour)`,
      `m = divmod(h[1], minute)`, `s = divmod(m[1], 1)`, keeping the
      quotients of the last three. */
  function Decompose(duration: int): (c: Clock)
    ensures ValidClock(c)
    ensures ClockSeconds(c) == duration % SecondsPerDay
  {
    var yearRem := duration % SecondsPerYear;
    var dayRem := yearRem % SecondsPerDay;
    var hours := dayRem / SecondsPerHour;
    var hourRem := dayRem % SecondsPerHour;
    var minutes := hourRem / SecondsPerMinute;
    var minuteRem := hourRem % SecondsPerMinute;
    var seconds := minuteRem / 1;
    YearRemainderByDay(duration);
    Clock(hours, minutes, seconds)
  }

  /** `"{}h {}m {}s".format(h, m, s)` for one clock. */
  function ClockText(c: Clock): string {
    NatToString(c.hours) + "h " + NatToString(c.minutes) + "m " + NatToString(c.seconds) + "s"
  }

  /** `totalDuration`: days and years are dropped. The text is the one
      string the reader accepts for the decomposed clock. */
  function TotalDuration(duration: int): (r: string)
    ensures ParseTotalDuration(r) == Some(Decompose(duration))
  {
    TotalDurationParses(Decompose(duration));
    ClockText(Decompose(duration))
  }

  /** Reads a `"{h}h {m}m {s}s"` string back into its three numbers. Each
      number must be written as `str()` writes it: digits only, with no
      leading zero. */
  function ParseTotalDuration(s: string): Option<Clock> {
    match SplitAt(s, 'h')
    case None => None
    case Some((h, rest1)) =>
      if !(" " <= rest1) then None else
      match SplitAt(rest1[1..], 'm')
      case None => None
      case Some((m, rest2)) =>
        if !(" " <= rest2) then None else
        match SplitAt(rest2[1..], 's')
        case None => None
        case Some((sec, rest3)) =>
          if rest3 == [] && Canonical(h) && Canonical(m) && Canonical(sec)
          then Some(Clock(DigitsValue(h), DigitsValue(m), DigitsValue(sec)))
          else None
  }

  /** A number printed by `str()` ends at the first non-digit after it. */
  lemma NumberThen(n: nat, c: char, rest: string)
    requires !IsDigit(c)
    ensures SplitAt(NatToString(n) + ([c] + rest), c) == Some((NatToString(n), rest))
  {
    assert c !in NatToString(n);
    assert NatToString(n) + ([c] + rest) == NatToString(n) + [c] + rest;
    SplitAtFirst(NatToString(n), c, rest);
  }

  lemma DropSpace(x: string)
    ensures " " <= [' '] + x && ([' '] + x)[1..] == x
  {
  }

  lemma TotalDurationParses(c: Clock)
    ensures ParseTotalDuration(ClockText(c)) == Some(c)
  {
    var hs, ms, ss := NatToString(c.hours), NatToString(c.minutes), NatToString(c.seconds);
    var rest2 := [' '] + (ss + (['s'] + []));
    var rest1 := [' '] + (ms + (['m'] + rest2));
    assert ClockText(c) == hs + (['h'] + rest1);
    NumberThen(c.hours, 'h', rest1);
    DropSpace(ms + (['m'] + rest2));
    NumberThen(c.minutes, 'm', rest2);
    DropSpace(ss + (['s'] + []));
    NumberThen(c.seconds, 's', []);
    DigitsValueOfNatToString(c.hours);
    DigitsValueOfNatToString(c.minutes);
    DigitsValueOfNatToString(c.seconds);
  }

  /** The reader accepts exactly the printed texts: whatever it reads as a
      clock is the text `totalDuration` prints for that clock, so no other
      spelling (a leading zero, a missing space) is taken for it. */
  lemma ParsedIsPrinted(s: string)
    ensures ParseTotalDuration(s).Some? ==> s == ClockText(ParseTotalDuration(s).value)
  {
    if ParseTotalDuration(s).Some? {
      var c := ParseTotalDuration(s).value;
      var (h, rest1) := SplitAt(s, 'h').value;
      var (m, rest2) := SplitAt(rest1[1..], 'm').value;
      var (sec, rest3) := SplitAt(rest2[1..], 's').value;
      assert rest3 == [] && Canonical(h) && Canonical(m) && Canonical(sec);
      assert c == Clock(DigitsValue(h), DigitsValue(m), DigitsValue(sec));
      NatToStringOfDigits(h);
      NatToStringOfDigits(m);
      NatToStringOfDigits(sec);
      Reassemble(s, h, rest1, m, rest2, sec);
    }
  }

  /** The pieces the reader cut `s` into, put back together. */
  lemma Reassemble(s: string, h: string, rest1: string, m: string, rest2: string, sec: string)
    requires s == h + ['h'] + rest1
    requires " " <= rest1 && rest1[1..] == m + ['m'] + rest2
    requires " " <= rest2 && rest2[1..] == sec + ['s'] + []
    ensures s == h + "h " + m + "m " + sec + "s"
  {
    assert rest2 == [' '] + rest2[1..];
    assert rest1 == [' '] + rest1[1..];
  }

  /** The keys of the dictionary `get_pretty_time` indexes by `interval`. */
  datatype Interval = Years | Days | Hours | Minutes | Seconds | Default

  datatype PrettyTime = Amount(n: int) | Phrase(s: string)

  function UnitSeconds(interval: Interval): int
    requires interval !in {Seconds, Default}
  {
    match interval
    case Years => SecondsPerYear
    case Days => SecondsPerDay
    case Hours => SecondsPerHour
    case Minutes => SecondsPerMinute
  }

  /** `get_pretty_time(since, now, interval)`: the duration `now - since` as a
      whole count of the chosen unit (rounded down), as the raw number of
      seconds, or as the `"{h}h {m}m {s}s"` text. */
  function GetPrettyTime(since: Timestamp, now: Timestamp, interval: Interval): (r: PrettyTime)
    ensures interval == Default <==> r.Phrase?
    ensures interval == Default ==> ParseTotalDuration(r.s) == Some(Decompose(now - since))
    ensures interval == Seconds ==> r == Amount(now - since)
    ensures interval !in {Seconds, Default} ==>
              r.Amount? && RoundsDown(r.n, now - since, UnitSeconds(interval))
  {
    var duration := now - since;
    match interval
    case Years => Amount(WholeUnits(duration, SecondsPerYear))
    case Days => Amount(WholeUnits(duration, SecondsPerDay))
    case Hours => Amount(WholeUnits(duration, SecondsPerHour))
    case Minutes => Amount(WholeUnits(duration, SecondsPerMinute))
    case Seconds => Amount(duration)
    case Default => Phrase(TotalDuration(duration))
  }
}
