/**
 * Gregorian calendar dates as Python's `datetime.date` holds them: years 1 to 9999,
 * comparison by (year, month, day), `date + timedelta(days=n)` and `date.replace(year=y)`.
 */
module Calendar {
  import opened Wrappers

  const MinYear := 1
  const MaxYear := 9999

  datatype Date = Date(day: int, month: int, year: int)

  predicate IsLeap(y: int) {
    y % 4 == 0 && (y % 100 != 0 || y % 400 == 0)
  }

  function DaysInMonth(m: int, y: int): (n: int)
    requires 1 <= m <= 12
    ensures 28 <= n <= 31
    ensures n == 29 <==> m == 2 && IsLeap(y)
  {
    if m == 2 then (if IsLeap(y) then 29 else 28)
    else if m == 4 || m == 6 || m == 9 || m == 11 then 30
    else 31
  }

  function DaysInYear(y: int): int {
    if IsLeap(y) then 366 else 365
  }

  /** A date that exists: Python's `date` constructor rejects every other one with ValueError. */
  predicate ValidDate(d: Date) {
    && MinYear <= d.year <= MaxYear
    && 1 <= d.month <= 12
    && 1 <= d.day <= DaysInMonth(d.month, d.year)
  }

  type CalendarDate = d: Date | ValidDate(d) witness Date(1, 1, 1)

  const LastDate: CalendarDate := Date(31, 12, MaxYear)

  /** The ordinal of 31.12.9999, Python's `date.max.toordinal()`. */
  const MaxOrdinal := 3652059

  /** Python's `a <= b` on dates: by year, then month, then day. */
  predicate NotAfter(a: Date, b: Date) {
    || a.year < b.year
    || (a.year == b.year && (a.month < b.month || (a.month == b.month && a.day <= b.day)))
  }

  /** The following day; None after 31.12.9999, where Python raises OverflowError. */
  function NextDay(d: CalendarDate): Option<CalendarDate> {
    if d.day < DaysInMonth(d.month, d.year) then Some(Date(d.day + 1, d.month, d.year))
    else if d.month < 12 then Some(Date(1, d.month + 1, d.year))
    else if d.year < MaxYear then Some(Date(1, 1, d.year + 1))
    else None
  }

  /** `d + timedelta(days=n)`; None when the result would pass 31.12.9999. */
  function AddDays(d: CalendarDate, n: nat): (r: Option<CalendarDate>)
    ensures r.Some? ==> Ordinal(r.value) == Ordinal(d) + n
    ensures r.None? <==> Ordinal(d) + n > MaxOrdinal
    decreases n
  {
    LastOrdinal();
    if n == 0 then
      OrdinalOrder(d, LastDate);
      Some(d)
    else
      OrdinalNextDay(d);
      match NextDay(d)
      case None => None
      case Some(e) => AddDays(e, n - 1)
  }

  /** `d.replace(year=y)`: the same day and month in year `y`; None (ValueError) when that day does not exist. */
  function ReplaceYear(d: CalendarDate, y: int): (r: Option<CalendarDate>)
    requires MinYear <= y <= MaxYear
    ensures r.None? <==> d.day == 29 && d.month == 2 && !IsLeap(y)
    ensures r.Some? ==> r.value == Date(d.day, d.month, y)
  {
    if d.day <= DaysInMonth(d.month, y) then Some(Date(d.day, d.month, y)) else None
  }

  /** Days in the years before year `y`. */
  function DaysBeforeYear(y: int): nat
    requires y >= 1
    decreases y
  {
    if y == 1 then 0 else DaysBeforeYear(y - 1) + DaysInYear(y - 1)
  }

  /** Days in the months of year `y` before month `m`. */
  function DaysBeforeMonth(m: int, y: int): nat
    requires 1 <= m <= 13
    decreases m
  {
    if m == 1 then 0 else DaysBeforeMonth(m - 1, y) + DaysInMonth(m - 1, y)
  }

  /** Python's `date.toordinal()`: the day number counted from 01.01.0001, which is day 1. */
  function Ordinal(d: CalendarDate): int {
    DaysBeforeYear(d.year) + DaysBeforeMonth(d.month, d.year) + d.day
  }

  lemma YearEnd(y: int)
    ensures DaysBeforeMonth(13, y) == DaysInYear(y)
  {
    assert DaysBeforeMonth(3, y) == 31 + DaysInMonth(2, y);
    assert DaysBeforeMonth(5, y) == DaysBeforeMonth(3, y) + 61;
    assert DaysBeforeMonth(7, y) == DaysBeforeMonth(5, y) + 61;
    assert DaysBeforeMonth(9, y) == DaysBeforeMonth(7, y) + 62;
    assert DaysBeforeMonth(11, y) == DaysBeforeMonth(9, y) + 61;
    assert DaysBeforeMonth(13, y) == DaysBeforeMonth(11, y) + 61;
  }

  lemma {:induction false} MonthsGrow(m1: int, m2: int, y: int)
    requires 1 <= m1 < m2 <= 13
    ensures DaysBeforeMonth(m1, y) + DaysInMonth(m1, y) <= DaysBeforeMonth(m2, y)
    decreases m2
  {
    if m2 > m1 + 1 {
      MonthsGrow(m1, m2 - 1, y);
    }
  }

  lemma {:induction false} YearsGrow(y1: int, y2: int)
    requires 1 <= y1 < y2
    ensures DaysBeforeYear(y1) + DaysInYear(y1) <= DaysBeforeYear(y2)
    decreases y2
  {
    if y2 > y1 + 1 {
      YearsGrow(y1, y2 - 1);
    }
  }

  /** A date's day within its year never exceeds the length of the year. */
  lemma DayOfYearBound(d: CalendarDate)
    ensures DaysBeforeMonth(d.month, d.year) + d.day <= DaysInYear(d.year)
  {
    MonthsGrow(d.month, 13, d.year);
    YearEnd(d.year);
  }

  /** A date strictly before another has a strictly smaller ordinal. */
  lemma OrdinalStrict(a: CalendarDate, b: CalendarDate)
    requires NotAfter(a, b) && a != b
    ensures Ordinal(a) < Ordinal(b)
  {
    if a.year < b.year {
      DayOfYearBound(a);
      YearsGrow(a.year, b.year);
    } else if a.month < b.month {
      MonthsGrow(a.month, b.month, a.year);
    }
  }

  /** Comparing dates is comparing their ordinals. */
  lemma OrdinalOrder(a: CalendarDate, b: CalendarDate)
    ensures NotAfter(a, b) <==> Ordinal(a) <= Ordinal(b)
  {
    if a != b {
      if NotAfter(a, b) {
        OrdinalStrict(a, b);
      } else {
        OrdinalStrict(b, a);
      }
    }
  }

  /** Different dates have different ordinals. */
  lemma OrdinalInjective(a: CalendarDate, b: CalendarDate)
    requires Ordinal(a) == Ordinal(b)
    ensures a == b
  {
    if a != b {
      if NotAfter(a, b) { OrdinalStrict(a, b); } else { OrdinalStrict(b, a); }
    }
  }

  /** The next day is one ordinal further; only the last representable date has none. */
  lemma OrdinalNextDay(d: CalendarDate)
    ensures NextDay(d).None? <==> d == LastDate
    ensures NextDay(d).Some? ==> Ordinal(NextDay(d).value) == Ordinal(d) + 1
  {
    if d.day < DaysInMonth(d.month, d.year) {
      NextInMonth(d);
    } else if d.month < 12 {
      NextMonth(d);
    } else if d.year < MaxYear {
      NextYear(d);
    }
  }

  lemma NextInMonth(d: CalendarDate)
    requires d.day < DaysInMonth(d.month, d.year)
    ensures NextDay(d) == Some(Date(d.day + 1, d.month, d.year))
    ensures Ordinal(Date(d.day + 1, d.month, d.year)) == Ordinal(d) + 1
  {
  }

  lemma NextMonth(d: CalendarDate)
    requires d.day == DaysInMonth(d.month, d.year) && d.month < 12
    ensures NextDay(d) == Some(Date(1, d.month + 1, d.year))
    ensures Ordinal(Date(1, d.month + 1, d.year)) == Ordinal(d) + 1
  {
    assert DaysBeforeMonth(d.month + 1, d.year) == DaysBeforeMonth(d.month, d.year) + d.day;
  }

  lemma NextYear(d: CalendarDate)
    requires d.day == DaysInMonth(d.month, d.year) && d.month == 12 && d.year < MaxYear
    ensures NextDay(d) == Some(Date(1, 1, d.year + 1))
    ensures Ordinal(Date(1, 1, d.year + 1)) == Ordinal(d) + 1
  {
    YearEnd(d.year);
    assert DaysBeforeYear(d.year + 1) == DaysBeforeYear(d.year) + DaysInYear(d.year);
    assert DaysBeforeMonth(13, d.year) == DaysBeforeMonth(12, d.year) + d.day;
  }

  /** 31.12.9999 is day 3652059, counted from 01.01.0001 as day 1. */
  lemma LastOrdinal()
    ensures Ordinal(LastDate) == MaxOrdinal
  {
    DaysBeforeYearClosedForm(MaxYear);
    YearEnd(MaxYear);
    assert DaysBeforeMonth(13, MaxYear) == DaysBeforeMonth(12, MaxYear) + 31;
  }

  /** The recursive day count agrees with the closed form Python's `datetime` module uses for the days before a year. */
  lemma {:induction false} DaysBeforeYearClosedForm(y: int)
    requires y >= 1
    ensures DaysBeforeYear(y) == 365 * (y - 1) + (y - 1) / 4 - (y - 1) / 100 + (y - 1) / 400
    decreases y
  {
    if y > 1 {
      DaysBeforeYearClosedForm(y - 1);
      DaysInYearByDivision(y - 2);
    }
  }

  /** The length of year `p + 1` is the step of the closed form from `p` to `p + 1`. */
  lemma DaysInYearByDivision(p: nat)
    ensures DaysInYear(p + 1) == 365 + ((p + 1) / 4 - p / 4) - ((p + 1) / 100 - p / 100) + ((p + 1) / 400 - p / 400)
  {
    DivStep4(p);
    DivStep100(p);
    DivStep400(p);
    ModChain(p + 1);
  }

  lemma DivStep4(p: nat)
    ensures (p + 1) / 4 == p / 4 + (if (p + 1) % 4 == 0 then 1 else 0)
  {
  }

  lemma DivStep100(p: nat)
    ensures (p + 1) / 100 == p / 100 + (if (p + 1) % 100 == 0 then 1 else 0)
  {
  }

  lemma DivStep400(p: nat)
    ensures (p + 1) / 400 == p / 400 + (if (p + 1) % 400 == 0 then 1 else 0)
  {
  }

  lemma ModChain(n: nat)
    ensures n % 400 == 0 ==> n % 100 == 0
    ensures n % 100 == 0 ==> n % 4 == 0
  {
    if n % 400 == 0 { assert n == 400 * (n / 400) == 100 * (4 * (n / 400)); }
    if n % 100 == 0 { assert n == 100 * (n / 100) == 4 * (25 * (n / 100)); }
  }
}
