// Proleptic Gregorian dates as Python's `datetime.date` has them: years 1 to
// 9999, ordinals counted from 0001-01-01, Monday as weekday 0.
module Calendar {
  import opened Prelude

  datatype Date = Date(year: int, month: int, day: int)

  const MAX_YEAR := 9999

  predicate IsLeap(y: int) { y % 4 == 0 && (y % 100 != 0 || y % 400 == 0) }

  function DaysInMonth(y: int, m: int): int {
    if m == 2 then (if IsLeap(y) then 29 else 28)
    else if m == 4 || m == 6 || m == 9 || m == 11 then 30
    else 31
  }

  /** Dates the `date` constructor accepts; anything else is a ValueError. */
  predicate Valid(d: Date) {
    1 <= d.year <= MAX_YEAR && 1 <= d.month <= 12 && 1 <= d.day <= DaysInMonth(d.year, d.month)
  }

  function MakeDate(y: int, m: int, d: int): Option<Date> {
    if Valid(Date(y, m, d)) then Some(Date(y, m, d)) else None
  }

  function DaysBeforeYear(y: int): int {
    var p := y - 1;
    p * 365 + p / 4 - p / 100 + p / 400
  }

  function DaysBeforeMonth(y: int, m: int): int {
    (if m <= 1 then 0 else if m == 2 then 31 else if m == 3 then 59 else if m == 4 then 90
     else if m == 5 then 120 else if m == 6 then 151 else if m == 7 then 181 else if m == 8 then 212
     else if m == 9 then 243 else if m == 10 then 273 else if m == 11 then 304 else if m == 12 then 334
     else 365)
    + (if m > 2 && IsLeap(y) then 1 else 0)
  }

  function Ordinal(d: Date): int {
    DaysBeforeYear(d.year) + DaysBeforeMonth(d.year, d.month) + d.day
  }

  function Weekday(d: Date): int { (Ordinal(d) + 6) % 7 }

  /** Later in the calendar, field by field. */
  predicate Before(a: Date, b: Date) {
    a.year < b.year
    || (a.year == b.year && (a.month < b.month || (a.month == b.month && a.day < b.day)))
  }

  lemma FourthYear(y: int)
    ensures y / 4 == (y - 1) / 4 + (if y % 4 == 0 then 1 else 0)
  {
  }

  lemma HundredthYear(y: int)
    ensures y / 100 == (y - 1) / 100 + (if y % 100 == 0 then 1 else 0)
  {
  }

  lemma CenturyIsFourthYear(y: int)
    requires y % 100 == 0
    ensures y % 4 == 0
  {
    var k := 25 * (y / 100);
    assert y == 4 * k;
  }

  lemma FourHundredthYear(y: int)
    ensures y / 400 == (y - 1) / 400 + (if y % 400 == 0 then 1 else 0)
    ensures y % 400 == 0 ==> y % 100 == 0
  {
    var q := y / 400;
    assert y == 100 * (4 * q) + y % 400;
  }

  lemma YearLength(y: int)
    requires 1 <= y
    ensures DaysBeforeYear(y + 1) == DaysBeforeYear(y) + 365 + (if IsLeap(y) then 1 else 0)
  {
    FourthYear(y);
    HundredthYear(y);
    if y % 100 == 0 {
      CenturyIsFourthYear(y);
    }
    FourHundredthYear(y);
  }

  lemma {:induction false} YearsGrow(a: int, b: int)
    requires 1 <= a < b
    ensures DaysBeforeYear(a) + 365 + (if IsLeap(a) then 1 else 0) <= DaysBeforeYear(b)
    decreases b - a
  {
    YearLength(a);
    if a + 1 < b {
      YearsGrow(a + 1, b);
    }
  }

  lemma MonthsGrow(y: int, m: int, n: int)
    requires 1 <= m < n <= 13
    ensures DaysBeforeMonth(y, m) + DaysInMonth(y, m) <= DaysBeforeMonth(y, n)
    ensures n == m + 1 ==> DaysBeforeMonth(y, m) + DaysInMonth(y, m) == DaysBeforeMonth(y, n)
  {
  }

  lemma OrdinalGrows(a: Date, b: Date)
    requires Valid(a) && Valid(b) && Before(a, b)
    ensures Ordinal(a) < Ordinal(b)
  {
    if a.year < b.year {
      YearsGrow(a.year, b.year);
      MonthsGrow(a.year, a.month, 13);
    } else if a.month < b.month {
      MonthsGrow(a.year, a.month, b.month);
    }
  }

  /** Ordinals order dates as the calendar does, so they tell dates apart. */
  lemma OrdinalIsCalendarOrder(a: Date, b: Date)
    requires Valid(a) && Valid(b)
    ensures Before(a, b) <==> Ordinal(a) < Ordinal(b)
    ensures a == b <==> Ordinal(a) == Ordinal(b)
  {
    if Before(a, b) {
      OrdinalGrows(a, b);
    } else if Before(b, a) {
      OrdinalGrows(b, a);
    } else {
      assert a == b;
    }
  }

  // -- timedelta arithmetic ---------------------------------------------------------

  const LAST_DATE := Date(9999, 12, 31)

  function NextDay(d: Date): Option<Date> {
    if d.day < DaysInMonth(d.year, d.month) then Some(Date(d.year, d.month, d.day + 1))
    else if d.month < 12 then Some(Date(d.year, d.month + 1, 1))
    else if d.year < MAX_YEAR then Some(Date(d.year + 1, 1, 1))
    else None
  }

  function PrevDay(d: Date): Option<Date> {
    if d.day > 1 then Some(Date(d.year, d.month, d.day - 1))
    else if d.month > 1 then Some(Date(d.year, d.month - 1, DaysInMonth(d.year, d.month - 1)))
    else if d.year > 1 then Some(Date(d.year - 1, 12, 31))
    else None
  }

  /** `d + timedelta(days=n)`; None is an OverflowError. */
  function AddDays(d: Date, n: nat): Option<Date>
    decreases n
  {
    if n == 0 then Some(d)
    else
      match NextDay(d)
      case None => None
      case Some(e) => AddDays(e, n - 1)
  }

  lemma NextDayOrdinal(d: Date)
    requires Valid(d)
    ensures NextDay(d).None? <==> d == LAST_DATE
    ensures NextDay(d).Some? ==> Valid(NextDay(d).value) && Ordinal(NextDay(d).value) == Ordinal(d) + 1
  {
    if d.day == DaysInMonth(d.year, d.month) {
      if d.month < 12 {
        MonthsGrow(d.year, d.month, d.month + 1);
      } else {
        YearLength(d.year);
      }
    }
  }

  /** Adding days adds that many to the ordinal, and overflows exactly past 9999-12-31. */
  lemma {:induction false} AddDaysOrdinal(d: Date, n: nat)
    requires Valid(d)
    ensures AddDays(d, n).Some? ==> Valid(AddDays(d, n).value) && Ordinal(AddDays(d, n).value) == Ordinal(d) + n
    ensures AddDays(d, n).None? <==> Ordinal(d) + n > Ordinal(LAST_DATE)
    decreases n
  {
    NextDayOrdinal(d);
    OrdinalIsCalendarOrder(d, LAST_DATE);
    if n > 0 && d != LAST_DATE {
      AddDaysOrdinal(NextDay(d).value, n - 1);
    }
  }

  /** The calendar is anchored: 5 January 2026 is a Monday, so every other weekday follows. */
  lemma KnownMonday()
    ensures Weekday(Date(2026, 1, 5)) == 0
  {
    assert Ordinal(Date(2026, 1, 5)) == 739621;
  }

  /** A century is a leap year only every fourth time. */
  lemma KnownLeapYears()
    ensures IsLeap(2000) && IsLeap(2024) && !IsLeap(1900) && !IsLeap(2023)
  {
  }
}
