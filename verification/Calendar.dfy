/**
  The proleptic Gregorian calendar that both `chrono::NaiveDate` and
  PostgreSQL's `date` implement.

  A date is kept as year, month and day. `Before` compares dates the way
  chrono does, field by field; `DayNumber` counts days the way PostgreSQL's
  `date` does. `DayNumberOrdersDates` and `NextDayAddsOne` show that the two
  views are one calendar.
 */
module Calendar {
  import opened Wrappers

  datatype Date = Date(year: int, month: int, day: int)

  predicate IsLeap(year: int) {
    year % 4 == 0 && (year % 100 != 0 || year % 400 == 0)
  }

  /** Zero for a number that is not a month. */
  function DaysInMonth(month: int, leap: bool): int {
    if month == 2 then (if leap then 29 else 28)
    else if month in {4, 6, 9, 11} then 30
    else if month in {1, 3, 5, 7, 8, 10, 12} then 31
    else 0
  }

  predicate RealDate(d: Date) {
    && 1 <= d.month <= 12
    && 1 <= d.day <= DaysInMonth(d.month, IsLeap(d.year))
  }

  /** Chronological order, field by field. */
  predicate Before(a: Date, b: Date) {
    || a.year < b.year
    || (a.year == b.year && a.month < b.month)
    || (a.year == b.year && a.month == b.month && a.day < b.day)
  }

  function DaysBeforeYear(year: int): int {
    365 * (year - 1) + (year - 1) / 4 - (year - 1) / 100 + (year - 1) / 400
  }

  function DaysBeforeMonth(month: int, leap: bool): int
    requires 1 <= month <= 13
  {
    if month == 1 then 0
    else DaysBeforeMonth(month - 1, leap) + DaysInMonth(month - 1, leap)
  }

  /** Day 1 is 1 January of year 1, a Monday. */
  function DayNumber(d: Date): int
    requires RealDate(d)
  {
    DaysBeforeYear(d.year) + DaysBeforeMonth(d.month, IsLeap(d.year)) + d.day
  }

  /** `a - b` of two SQL dates, and `(a - b).num_days()` of two chrono dates. */
  function DaysBetween(a: Date, b: Date): int
    requires RealDate(a) && RealDate(b)
  {
    DayNumber(a) - DayNumber(b)
  }

  function NextDay(d: Date): Date
    requires RealDate(d)
  {
    if d.day < DaysInMonth(d.month, IsLeap(d.year)) then Date(d.year, d.month, d.day + 1)
    else if d.month < 12 then Date(d.year, d.month + 1, 1)
    else Date(d.year + 1, 1, 1)
  }

  /** Thirty days hath September, April, June and November. */
  lemma MonthLengths(month: int)
    requires 1 <= month <= 12
    ensures DaysInMonth(month, false) == [31, 28, 31, 30, 31, 30, 31, 31, 30, 31, 30, 31][month - 1]
    ensures DaysInMonth(month, true) == [31, 29, 31, 30, 31, 30, 31, 31, 30, 31, 30, 31][month - 1]
  {
  }

  function YearLength(year: int): int {
    if IsLeap(year) then 366 else 365
  }

  lemma MonthsFillTheYear(leap: bool)
    ensures DaysBeforeMonth(13, leap) == if leap then 366 else 365
  {
    var feb := if leap then 29 else 28;
    assert DaysBeforeMonth(2, leap) == 31;
    assert DaysBeforeMonth(3, leap) == 31 + feb;
    assert DaysBeforeMonth(5, leap) == 92 + feb;
    assert DaysBeforeMonth(7, leap) == 153 + feb;
    assert DaysBeforeMonth(9, leap) == 215 + feb;
    assert DaysBeforeMonth(11, leap) == 276 + feb;
  }

  lemma {:induction false} MonthsAreOrdered(m: int, n: int, leap: bool)
    requires 1 <= m < n <= 13
    ensures DaysBeforeMonth(m, leap) + DaysInMonth(m, leap) <= DaysBeforeMonth(n, leap)
    decreases n - m
  {
    if m + 1 < n {
      MonthsAreOrdered(m, n - 1, leap);
    }
  }

  lemma YearStep(year: int)
    ensures DaysBeforeYear(year + 1) == DaysBeforeYear(year) + YearLength(year)
  {
    assert year / 4 - (year - 1) / 4 == if year % 4 == 0 then 1 else 0;
    assert year / 100 - (year - 1) / 100 == if year % 100 == 0 then 1 else 0;
    assert year / 400 - (year - 1) / 400 == if year % 400 == 0 then 1 else 0;
  }

  lemma {:induction false} YearsAreOrdered(y: int, z: int)
    requires y < z
    ensures DaysBeforeYear(y) + YearLength(y) <= DaysBeforeYear(z)
    decreases z - y
  {
    YearStep(z - 1);
    if y + 1 < z {
      YearsAreOrdered(y, z - 1);
    }
  }

  lemma DayWithinYear(d: Date)
    requires RealDate(d)
    ensures DaysBeforeYear(d.year) < DayNumber(d) <= DaysBeforeYear(d.year) + YearLength(d.year)
  {
    var leap := IsLeap(d.year);
    MonthsFillTheYear(leap);
    MonthsAreOrdered(d.month, 13, leap);
    if 1 < d.month {
      MonthsAreOrdered(1, d.month, leap);
    }
  }

  lemma EarlierDateHasSmallerNumber(a: Date, b: Date)
    requires RealDate(a) && RealDate(b) && Before(a, b)
    ensures DayNumber(a) < DayNumber(b)
  {
    if a.year < b.year {
      DayWithinYear(a);
      DayWithinYear(b);
      YearsAreOrdered(a.year, b.year);
    } else if a.month < b.month {
      MonthsAreOrdered(a.month, b.month, IsLeap(a.year));
    }
  }

  /** chrono's field order and PostgreSQL's day numbers order dates alike. */
  lemma DayNumberOrdersDates(a: Date, b: Date)
    requires RealDate(a) && RealDate(b)
    ensures Before(a, b) <==> DayNumber(a) < DayNumber(b)
    ensures a == b <==> DayNumber(a) == DayNumber(b)
  {
    if Before(a, b) {
      EarlierDateHasSmallerNumber(a, b);
    } else if a != b {
      EarlierDateHasSmallerNumber(b, a);
    }
  }

  /** The day number counts days: nothing is skipped at a month or year end. */
  lemma NextDayAddsOne(d: Date)
    requires RealDate(d)
    ensures RealDate(NextDay(d))
    ensures DayNumber(NextDay(d)) == DayNumber(d) + 1
  {
    var leap := IsLeap(d.year);
    if d.day == DaysInMonth(d.month, leap) {
      if d.month == 12 {
        MonthsFillTheYear(leap);
        YearStep(d.year);
      } else {
        assert DaysBeforeMonth(d.month + 1, leap) == DaysBeforeMonth(d.month, leap) + DaysInMonth(d.month, leap);
      }
    }
  }

  // --- library constructors ---------------------------------------------------

  /** The years `chrono::NaiveDate` can hold. */
  const CHRONO_MIN_YEAR := -262143
  const CHRONO_MAX_YEAR := 262142

  /** The year of a chrono date. */
  type ChronoYearNumber = y: int | CHRONO_MIN_YEAR <= y <= CHRONO_MAX_YEAR

  /** `NaiveDate::from_ymd_opt`. */
  function FromYmd(year: int, month: int, day: int): Option<Date> {
    var d := Date(year, month, day);
    if CHRONO_MIN_YEAR <= year <= CHRONO_MAX_YEAR && RealDate(d) then Some(d) else None
  }

  /** The largest year of a PostgreSQL date. */
  const POSTGRES_MAX_YEAR := 5874897

  /** `make_date`, for years of the common era; `None` is an SQL error. */
  function MakeDate(year: int, month: int, day: int): Option<Date> {
    var d := Date(year, month, day);
    if 1 <= year <= POSTGRES_MAX_YEAR && RealDate(d) then Some(d) else None
  }

  /**
    A day that can be "today" for both libraries: of the common era, with the
    following year still representable, since both look one year ahead.
   */
  predicate UsableToday(d: Date) {
    RealDate(d) && 1 <= d.year < CHRONO_MAX_YEAR
  }
}
