/** UTC calendar arithmetic. Instants are whole seconds since 1970-01-01T00:00:00Z; dates
    are day numbers (day 0 is 1970-01-01, a Thursday). */
module Calendar {

  const SecondsPerDay: int := 86400

  /** The date an instant falls on (Time#to_date in UTC). */
  function DayOf(t: int): int { t / SecondsPerDay }

  /** Date#beginning_of_day in UTC. */
  function BeginningOfDay(d: int): int { d * SecondsPerDay }

  /** Date#end_of_day in UTC, truncated to the last whole second. */
  function EndOfDay(d: int): int { d * SecondsPerDay + SecondsPerDay - 1 }

  /** An instant lies between the first and last second of a day exactly when it falls on it. */
  lemma WithinDay(t: int, d: int)
    ensures BeginningOfDay(d) <= t <= EndOfDay(d) <==> DayOf(t) == d
  {
  }

  lemma DayBoundariesOrdered(a: int, b: int)
    requires a <= b
    ensures BeginningOfDay(a) <= BeginningOfDay(b) && EndOfDay(a) <= EndOfDay(b)
    ensures BeginningOfDay(a) < EndOfDay(b)
  {
    assert a * SecondsPerDay <= b * SecondsPerDay;
  }

  /** An instant lies between the first second of day a and the last second of day b exactly
      when it falls on a day from a to b. */
  lemma DaySpan(t: int, a: int, b: int)
    ensures BeginningOfDay(a) <= t <= EndOfDay(b) <==> a <= DayOf(t) <= b
  {
    var d := DayOf(t);
    WithinDay(t, d);
    if a <= d { DayBoundariesOrdered(a, d); } else { DayBoundariesOrdered(d + 1, a); }
    if d <= b { DayBoundariesOrdered(d, b); } else { DayBoundariesOrdered(b + 1, d); }
  }

  /** Date#wday: 0 is Sunday, ..., 6 is Saturday. */
  function WeekDay(d: int): (w: int)
    ensures 0 <= w < 7
  {
    (d + 4) % 7
  }

  lemma {:induction false} WeekDayPeriodic(d: int, k: nat)
    ensures WeekDay(d + 7 * k) == WeekDay(d)
  {
    if k > 0 {
      WeekDayPeriodic(d, k - 1);
      assert d + 7 * k == (d + 7 * (k - 1)) + 7;
    }
  }

  predicate IsLeapYear(y: int) { (y % 4 == 0 && y % 100 != 0) || y % 400 == 0 }

  function DaysInMonth(y: int, m: int): (n: int)
    requires 1 <= m <= 12
    ensures 28 <= n <= 31
  {
    if m == 2 then (if IsLeapYear(y) then 29 else 28)
    else if m == 4 || m == 6 || m == 9 || m == 11 then 30
    else 31
  }

  /** Day number of the proleptic Gregorian date y-m-d (the "days from civil" formula). */
  function DaysFromCivil(y: int, m: int, d: int): int
    requires 1 <= m <= 12
  {
    var y' := if m <= 2 then y - 1 else y;
    var era := y' / 400;
    var yoe := y' - era * 400;
    var mp := if m > 2 then m - 3 else m + 9;
    var doy := (153 * mp + 2) / 5 + d - 1;
    var doe := yoe * 365 + yoe / 4 - yoe / 100 + doy;
    era * 146097 + doe - 719468
  }

  /** Date.new(year, month, 1) accepts months 1..12 and, counting from December, -12..-1;
      any other month raises. */
  function CivilMonth(month: int): (r: int)
    ensures -12 <= month <= 12 && month != 0 ==> 1 <= r <= 12
  {
    if 1 <= month <= 12 then month else if -12 <= month <= -1 then month + 13 else 0
  }

  predicate ValidCivilMonth(month: int) { -12 <= month <= 12 && month != 0 }

  lemma CivilExamples()
    ensures DaysFromCivil(1970, 1, 1) == 0
    ensures DaysFromCivil(2024, 1, 1) == 19723 && WeekDay(19723) == 1
  {
    assert 1969 / 400 == 4 && 369 / 4 == 92 && 369 / 100 == 3 && (153 * 10 + 2) / 5 == 306;
    assert 2023 / 400 == 5 && 23 / 4 == 5 && 23 / 100 == 0;
    assert 19727 % 7 == 1;
  }

  /** March 2024 starts 29 days after February, and month -1 is December. */
  lemma LeapFebruaryExample()
    ensures DaysInMonth(2024, 2) == 29
    ensures DaysFromCivil(2024, 3, 1) == DaysFromCivil(2024, 2, 1) + DaysInMonth(2024, 2)
    ensures CivilMonth(-1) == 12
  {
    assert 2023 / 400 == 5 && 23 / 4 == 5 && 23 / 100 == 0 && (153 * 11 + 2) / 5 == 337;
    assert DaysFromCivil(2024, 2, 1) == 19754;
    assert 2024 / 400 == 5 && 24 / 4 == 6 && 24 / 100 == 0 && (153 * 0 + 2) / 5 == 0;
    assert DaysFromCivil(2024, 3, 1) == 19783;
  }
}
