/** Calendar time as the backtester uses it: Gregorian dates, month-clamped offsets, a linear order. */
module Timestamps {

  const NANOS_PER_DAY: int := 86_400_000_000_000

  predicate LeapYear(year: int) {
    year % 4 == 0 && (year % 100 != 0 || year % 400 == 0)
  }

  function DaysInMonth(year: int, month: int): (days: int)
    ensures 28 <= days <= 31
  {
    if month == 2 then (if LeapYear(year) then 29 else 28)
    else if month == 4 || month == 6 || month == 9 || month == 11 then 30
    else 31
  }

  datatype CalendarTime = CalendarTime(year: int, month: int, day: int, nanos: int) {
    predicate Valid() {
      && 1 <= month <= 12
      && 1 <= day <= DaysInMonth(year, month)
      && 0 <= nanos < NANOS_PER_DAY
    }

    /** Months since year 0. */
    function MonthIndex(): int {
      year * 12 + month - 1
    }

    /** A strictly increasing encoding of calendar order. */
    function Key(): int {
      (MonthIndex() * 31 + day - 1) * NANOS_PER_DAY + nanos
    }
  }

  type Timestamp = t: CalendarTime | t.Valid() witness CalendarTime(1970, 1, 1, 0)

  predicate Before(a: Timestamp, b: Timestamp) {
    a.Key() < b.Key()
  }

  function MinInt(a: int, b: int): int {
    if a < b then a else b
  }

  /** `t + DateOffset(months=k)`: the day is clamped to the length of the target month. */
  function AddMonths(t: Timestamp, k: int): (r: Timestamp)
    ensures r.MonthIndex() == t.MonthIndex() + k
    ensures r.nanos == t.nanos
    ensures r.day == MinInt(t.day, DaysInMonth(r.year, r.month))
  {
    var m := t.MonthIndex() + k;
    var year, month := m / 12, m % 12 + 1;
    CalendarTime(year, month, MinInt(t.day, DaysInMonth(year, month)), t.nanos)
  }

  /** `t + DateOffset(years=n)`: 29 February becomes 28 February in a common year. */
  function AddYears(t: Timestamp, n: int): (r: Timestamp)
    ensures r.MonthIndex() == t.MonthIndex() + 12 * n
    ensures r.nanos == t.nanos
    ensures r.day == MinInt(t.day, DaysInMonth(r.year, r.month))
  {
    CalendarTime(t.year + n, t.month, MinInt(t.day, DaysInMonth(t.year + n, t.month)), t.nanos)
  }

  /** The encoding loses nothing: equal keys mean equal times. */
  lemma KeyIsInjective(a: Timestamp, b: Timestamp)
    requires a.Key() == b.Key()
    ensures a == b
  {
    var x, y := a.MonthIndex() * 31 + a.day - 1, b.MonthIndex() * 31 + b.day - 1;
    assert (x - y) * NANOS_PER_DAY == b.nanos - a.nanos;
    assert x == y;
  }

  /** A later month is a later time, whatever the days are. */
  lemma LaterMonthIsLater(a: Timestamp, b: Timestamp)
    requires a.MonthIndex() < b.MonthIndex()
    ensures Before(a, b)
  {
    var x, y := a.MonthIndex() * 31 + a.day - 1, b.MonthIndex() * 31 + b.day - 1;
    assert x < y;
  }

  /** Up to day 28 no month clamps, so month offsets compose and commute with year offsets. */
  lemma OffsetsCommuteUpToDay28(t: Timestamp, years: int, months: int)
    requires t.day <= 28
    ensures AddYears(AddMonths(t, months), years) == AddMonths(AddYears(t, years), months)
    ensures AddMonths(t, months).day == t.day
  {
  }

  /** Times are ordered by year, month, day and time of day, in that order. */
  lemma OrderIsLexicographic(a: Timestamp, b: Timestamp)
    ensures Before(a, b) <==>
              || a.year < b.year
              || (a.year == b.year && a.month < b.month)
              || (a.year == b.year && a.month == b.month && a.day < b.day)
              || (a.year == b.year && a.month == b.month && a.day == b.day && a.nanos < b.nanos)
  {
    if a.MonthIndex() < b.MonthIndex() {
      LaterMonthIsLater(a, b);
    } else if b.MonthIndex() < a.MonthIndex() {
      LaterMonthIsLater(b, a);
    }
  }

  /** The months of the calendar but February have lengths of their own. */
  lemma MonthsAreGregorian(year: int, month: int)
    requires 1 <= month <= 12 && month != 2
    ensures DaysInMonth(year, month) == [31, 28, 31, 30, 31, 30, 31, 31, 30, 31, 30, 31][month - 1]
  {
  }

  /** February has a 29th every fourth year, but in a century year only every fourth century. */
  lemma LeapDaysAreGregorian(century: int, year: int)
    requires 0 <= year < 100
    ensures DaysInMonth(100 * century + year, 2)
              == if (year != 0 && year % 4 == 0) || (year == 0 && century % 4 == 0) then 29 else 28
  {
    CenturyRemainders(century, year);
  }

  lemma CenturyRemainders(century: int, year: int)
    requires 0 <= year < 100
    ensures (100 * century + year) % 100 == year
    ensures (100 * century + year) % 4 == year % 4
    ensures (100 * century) % 400 == 0 <==> century % 4 == 0
  {
    assert 100 * century + year == 4 * (25 * century) + year;
    var q := century / 4;
    assert century == 4 * q + century % 4;
    assert 100 * century == 400 * q + 100 * (century % 4);
  }
}
