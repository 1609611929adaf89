/** The proleptic Gregorian calendar, as Python's datetime.date counts it. */
module Calendar {

  datatype Date = Date(year: int, month: int, day: int)

  predicate Leap(y: int) {
    y % 4 == 0 && (y % 100 != 0 || y % 400 == 0)
  }

  function DaysInMonth(y: int, m: int): int {
    if m == 2 then (if Leap(y) then 29 else 28)
    else if m == 4 || m == 6 || m == 9 || m == 11 then 30 else 31
  }

  predicate Valid(d: Date) {
    1 <= d.year && 1 <= d.month <= 12 && 1 <= d.day <= DaysInMonth(d.year, d.month)
  }

  predicate AtMost(a: Date, b: Date) {
    a.year < b.year || (a.year == b.year &&
      (a.month < b.month || (a.month == b.month && a.day <= b.day)))
  }

  function FirstOfMonth(d: Date): Date { Date(d.year, d.month, 1) }

  /** Months counted from January of year 1. */
  function MonthIndex(d: Date): int { (d.year - 1) * 12 + d.month - 1 }

  /** d - timedelta(days=1); Python has no day before 1 January of year 1. */
  function DayBefore(d: Date): Date
    requires Valid(d) && d != Date(1, 1, 1)
  {
    if d.day > 1 then Date(d.year, d.month, d.day - 1)
    else if d.month > 1 then Date(d.year, d.month - 1, DaysInMonth(d.year, d.month - 1))
    else Date(d.year - 1, 12, 31)
  }

  function LastDayOfMonth(d: Date): Date
    requires Valid(d)
  {
    var firstNext := if d.month == 12 then Date(d.year + 1, 1, 1) else Date(d.year, d.month + 1, 1);
    DayBefore(firstNext)
  }

  function DaysBeforeMonth(y: int, m: int): int
    requires 1 <= m <= 13
  {
    if m == 1 then 0 else DaysBeforeMonth(y, m - 1) + DaysInMonth(y, m - 1)
  }

  function DaysBeforeYear(y: int): int {
    365 * (y - 1) + (y - 1) / 4 - (y - 1) / 100 + (y - 1) / 400
  }

  /** date.toordinal: 1 January of year 1 is day 1. */
  function Ordinal(d: Date): int
    requires 1 <= d.month <= 12
  {
    DaysBeforeYear(d.year) + DaysBeforeMonth(d.year, d.month) + d.day
  }

  /** date.weekday: 0 is Monday. */
  function Weekday(d: Date): int
    requires 1 <= d.month <= 12
  {
    (Ordinal(d) + 6) % 7
  }

  lemma YearLength(y: int)
    ensures DaysBeforeYear(y + 1) == DaysBeforeYear(y) + (if Leap(y) then 366 else 365)
    ensures DaysBeforeMonth(y, 13) == if Leap(y) then 366 else 365
  {
    assert y / 4 - (y - 1) / 4 == if y % 4 == 0 then 1 else 0;
    assert y / 100 - (y - 1) / 100 == if y % 100 == 0 then 1 else 0;
    assert y / 400 - (y - 1) / 400 == if y % 400 == 0 then 1 else 0;
    assert DaysBeforeMonth(y, 2) == 31;
    assert DaysBeforeMonth(y, 3) == 31 + DaysInMonth(y, 2);
    assert DaysBeforeMonth(y, 5) == DaysBeforeMonth(y, 3) + 61;
    assert DaysBeforeMonth(y, 7) == DaysBeforeMonth(y, 5) + 61;
    assert DaysBeforeMonth(y, 9) == DaysBeforeMonth(y, 7) + 62;
    assert DaysBeforeMonth(y, 11) == DaysBeforeMonth(y, 9) + 61;
  }

  /** Going back one day goes back exactly one day, over month ends, leap days and year ends. */
  lemma DayBeforeIsOneDayEarlier(d: Date)
    requires Valid(d) && d != Date(1, 1, 1)
    ensures Valid(DayBefore(d)) && Ordinal(DayBefore(d)) == Ordinal(d) - 1
  {
    YearLength(d.year - 1);
  }

  /** The day before a month's first is the last day of the month before it. */
  lemma PreviousMonthEnd(d: Date)
    requires Valid(d) && MonthIndex(d) > 0
    ensures var e := DayBefore(FirstOfMonth(d));
      && Valid(e) && e == LastDayOfMonth(e) && MonthIndex(e) == MonthIndex(d) - 1
      && AtMost(e, d) && !AtMost(FirstOfMonth(d), e)
  {
  }

  lemma {:induction false} MonthsAddUp(y: int, m: int, n: int)
    requires 1 <= m <= n <= 13
    ensures DaysBeforeMonth(y, n) >= DaysBeforeMonth(y, m) + (n - m) * 28
    decreases n - m
  {
    if m < n { MonthsAddUp(y, m, n - 1); }
  }

  lemma {:induction false} YearsAddUp(y: int, z: int)
    requires y <= z
    ensures DaysBeforeYear(z) >= DaysBeforeYear(y) + (z - y) * 365
    decreases z - y
  {
    if y < z { YearsAddUp(y, z - 1); YearLength(z - 1); }
  }

  lemma OrdinalGrows(a: Date, b: Date)
    requires Valid(a) && Valid(b) && AtMost(a, b) && a != b
    ensures Ordinal(a) < Ordinal(b)
  {
    YearLength(a.year);
    if a.year == b.year {
      if a.month < b.month { MonthsAddUp(a.year, a.month + 1, b.month); }
    } else {
      YearsAddUp(a.year + 1, b.year);
      MonthsAddUp(a.year, a.month + 1, 13);
      MonthsAddUp(b.year, 1, b.month);
    }
  }

  /** The ordinal numbers days in calendar order and never numbers two days alike. */
  lemma OrdinalKeepsOrder(a: Date, b: Date)
    requires Valid(a) && Valid(b)
    ensures AtMost(a, b) <==> Ordinal(a) <= Ordinal(b)
    ensures Ordinal(a) == Ordinal(b) ==> a == b
  {
    if a != b {
      if AtMost(a, b) { OrdinalGrows(a, b); } else { OrdinalGrows(b, a); }
    }
  }

  /** The arithmetic in _last_day_of_month lands on the last valid day of the same month. */
  lemma LastDayIsLast(d: Date)
    requires Valid(d)
    ensures LastDayOfMonth(d) == Date(d.year, d.month, DaysInMonth(d.year, d.month))
    ensures forall e :: Valid(e) && e.year == d.year && e.month == d.month ==> AtMost(e, LastDayOfMonth(d))
  {
  }
}
