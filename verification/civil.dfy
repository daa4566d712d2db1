/** The proleptic Gregorian calendar that Python's `datetime` uses for the
    date fields of an instant: conversion between a day number (days since
    1970-01-01) and a (year, month, day) triple, proved to be a bijection on
    valid dates. */
module Civil {

  datatype Date = Date(year: int, month: int, day: int)

  predicate IsLeapYear(y: int) {
    y % 4 == 0 && (y % 100 != 0 || y % 400 == 0)
  }

  function DaysInYear(y: int): int {
    if IsLeapYear(y) then 366 else 365
  }

  function DaysInMonth(y: int, m: int): int
    requires 1 <= m <= 12
  {
    if m == 2 then (if IsLeapYear(y) then 29 else 28)
    else if m == 4 || m == 6 || m == 9 || m == 11 then 30
    else 31
  }

  /** Days in year `y` before the first of month `m`. */
  function DaysBeforeMonth(y: int, m: int): int
    requires 1 <= m <= 12
  {
    var leap := if IsLeapYear(y) then 1 else 0;
    match m
    case 1 => 0
    case 2 => 31
    case 3 => 59 + leap
    case 4 => 90 + leap
    case 5 => 120 + leap
    case 6 => 151 + leap
    case 7 => 181 + leap
    case 8 => 212 + leap
    case 9 => 243 + leap
    case 10 => 273 + leap
    case 11 => 304 + leap
    case _ => 334 + leap
  }

  predicate ValidDate(d: Date) {
    1 <= d.month <= 12 && 1 <= d.day <= DaysInMonth(d.year, d.month)
  }

  /** Day number of January 1st of year `y`. */
  function YearStart(y: int): int
    decreases if y >= 1970 then y - 1970 else 1970 - y
  {
    if y == 1970 then 0
    else if y > 1970 then YearStart(y - 1) + DaysInYear(y - 1)
    else YearStart(y + 1) - DaysInYear(y)
  }

  lemma YearStartStep(y: int)
    ensures YearStart(y + 1) == YearStart(y) + DaysInYear(y)
  {
  }

  /** Years are laid end to end: a later year starts after an earlier one ends. */
  lemma {:induction false} YearStartMonotone(y: int, z: int)
    requires y < z
    ensures YearStart(y) + DaysInYear(y) <= YearStart(z)
    decreases z - y
  {
    YearStartStep(y);
    if y + 1 < z {
      YearStartMonotone(y + 1, z);
      YearStartStep(y + 1);
    }
  }

  /** Days before January 1st of year `y` counted from January 1st of year
      1, by the closed formula of Python's `datetime` ordinal: 365 days a
      year plus one for every fourth year, less the centuries, plus every
      fourth century. */
  function OrdinalDaysBeforeYear(y: int): int {
    var p := y - 1;
    p * 365 + p / 4 - p / 100 + p / 400
  }

  /** Going back one year lowers the count of multiples of `k` exactly
      when `y` is one. */
  lemma FloorStep(y: int, k: int)
    requires k == 4 || k == 100 || k == 400
    ensures (y - 1) / k == (if y % k == 0 then y / k - 1 else y / k)
  {
    var q, r := y / k, y % k;
    assert y == k * q + r;
    if r == 0 {
      assert y - 1 == k * (q - 1) + (k - 1);
    } else {
      assert y - 1 == k * q + (r - 1);
    }
  }

  /** A multiple of 400 is a multiple of 100, which is a multiple of 4. */
  lemma Divisibility(y: int)
    ensures y % 400 == 0 ==> y % 100 == 0
    ensures y % 100 == 0 ==> y % 4 == 0
  {
    var q400, q100 := y / 400, y / 100;
    MultipleOf(100, 4 * q400);
    MultipleOf(4, 25 * q100);
  }

  lemma MultipleOf(k: int, m: int)
    requires k == 4 || k == 100
    ensures (k * m) % k == 0
  {
  }

  /** Passing year `y` adds one day more than 365 exactly in a leap year. */
  lemma OrdinalYearStep(y: int)
    ensures OrdinalDaysBeforeYear(y + 1) == OrdinalDaysBeforeYear(y) + DaysInYear(y)
  {
    FloorStep(y, 4);
    FloorStep(y, 100);
    FloorStep(y, 400);
    Divisibility(y);
    var a4, a100, a400 := y / 4 - (y - 1) / 4, y / 100 - (y - 1) / 100, y / 400 - (y - 1) / 400;
    assert a4 - a100 + a400 == (if IsLeapYear(y) then 1 else 0);
  }

  /** The year walk agrees with the closed formula in every year, before
      1970 as well as after. */
  lemma {:induction false} YearStartIsOrdinal(y: int)
    ensures YearStart(y) == OrdinalDaysBeforeYear(y) - OrdinalDaysBeforeYear(1970)
    decreases if y >= 1970 then y - 1970 else 1970 - y
  {
    if y > 1970 {
      YearStartIsOrdinal(y - 1);
      OrdinalYearStep(y - 1);
    } else if y < 1970 {
      YearStartIsOrdinal(y + 1);
      OrdinalYearStep(y);
    }
  }

  /** Days since 1970-01-01 of a valid date. */
  function DayNumber(d: Date): int
    requires ValidDate(d)
  {
    YearStart(d.year) + DaysBeforeMonth(d.year, d.month) + d.day - 1
  }

  /** Walks from year `y` to the year holding the day that lies `offset`
      days after January 1st of `y`; returns that year and the day's
      zero-based position inside it. */
  function LocateYear(y: int, offset: int): (r: (int, int))
    ensures 0 <= r.1 < DaysInYear(r.0)
    ensures YearStart(r.0) + r.1 == YearStart(y) + offset
    decreases if offset < 0 then 1 else 0, if offset < 0 then -offset else offset
  {
    if offset < 0 then
      YearStartStep(y - 1);
      LocateYear(y - 1, offset + DaysInYear(y - 1))
    else if offset >= DaysInYear(y) then
      YearStartStep(y);
      LocateYear(y + 1, offset - DaysInYear(y))
    else
      (y, offset)
  }

  /** The month of year `y` holding zero-based day-of-year `k`, searched from
      month `m` upward; returns the month and the one-based day in it. */
  function LocateMonth(y: int, m: int, k: int): (r: (int, int))
    requires 1 <= m <= 12
    requires DaysBeforeMonth(y, m) <= k < DaysInYear(y)
    ensures 1 <= r.0 <= 12
    ensures 1 <= r.1 <= DaysInMonth(y, r.0)
    ensures DaysBeforeMonth(y, r.0) + r.1 - 1 == k
    decreases 12 - m
  {
    if k < DaysBeforeMonth(y, m) + DaysInMonth(y, m) then (m, k - DaysBeforeMonth(y, m) + 1)
    else LocateMonth(y, m + 1, k)
  }

  /** The calendar date of day number `n`. */
  function DateOfDay(n: int): (d: Date)
    ensures ValidDate(d)
    ensures DayNumber(d) == n
  {
    var (y, k) := LocateYear(1970, n);
    var (m, day) := LocateMonth(y, 1, k);
    Date(y, m, day)
  }

  /** Two valid dates with the same day number are the same date. */
  lemma DayNumberInjective(a: Date, b: Date)
    requires ValidDate(a) && ValidDate(b)
    requires DayNumber(a) == DayNumber(b)
    ensures a == b
  {
    if a.year < b.year {
      YearStartMonotone(a.year, b.year);
    } else if b.year < a.year {
      YearStartMonotone(b.year, a.year);
    }
    assert a.year == b.year;
  }

  /** `date.toordinal()`: 1 for January 1st of year 1. */
  function Ordinal(d: Date): int
    requires ValidDate(d)
  {
    OrdinalDaysBeforeYear(d.year) + DaysBeforeMonth(d.year, d.month) + d.day
  }

  /** The day number is the ordinal shifted so that 1970-01-01 is day 0;
      that date has ordinal 719163. */
  lemma DayNumberIsOrdinal(d: Date)
    requires ValidDate(d)
    ensures DayNumber(d) == Ordinal(d) - 719163
  {
    YearStartIsOrdinal(d.year);
  }

  lemma FirstDayAnchor()
    ensures DayNumber(Date(1, 1, 1)) == -719162
  {
    DayNumberIsOrdinal(Date(1, 1, 1));
  }

  lemma TodayAnchor()
    ensures DayNumber(Date(2026, 10, 9)) == 20735
  {
    DayNumberIsOrdinal(Date(2026, 10, 9));
  }

  lemma LastDayAnchor()
    ensures DayNumber(Date(9999, 12, 31)) == 2932896
  {
    DayNumberIsOrdinal(Date(9999, 12, 31));
  }

  /** Fixed points of the calendar: the first and last dates `datetime` can
      hold, the epoch, and 2026-10-09, against their ordinals less 719163. */
  lemma CalendarAnchors()
    ensures DayNumber(Date(1, 1, 1)) == -719162
    ensures DayNumber(Date(1970, 1, 1)) == 0
    ensures DayNumber(Date(2026, 10, 9)) == 20735
    ensures DayNumber(Date(9999, 12, 31)) == 2932896
    ensures DateOfDay(20735) == Date(2026, 10, 9)
  {
    FirstDayAnchor();
    TodayAnchor();
    LastDayAnchor();
    DateRoundTrip(Date(2026, 10, 9));
  }

  /** Reading a day number back as a date and numbering it again are inverse. */
  lemma DateRoundTrip(d: Date)
    requires ValidDate(d)
    ensures DateOfDay(DayNumber(d)) == d
  {
    DayNumberInjective(DateOfDay(DayNumber(d)), d);
  }
}
