/** Calendar dates as the dashboard reads them from a parsed JavaScript `Date`:
    the full year, the zero-based month (January is 0, as `getMonth` returns it)
    and the day of the month.  The day number counts whole days since
    1 January 1970 in the proleptic Gregorian calendar, which is what
    `getTime()` counts in milliseconds once the time of day is dropped. */
module Calendar {

  datatype Date = Date(year: int, month: int, day: int)

  predicate IsLeapYear(y: int) {
    y % 4 == 0 && (y % 100 != 0 || y % 400 == 0)
  }

  /** Days before month `m` (0..12) of a common year. */
  const CommonDaysBefore: seq<int> := [0, 31, 59, 90, 120, 151, 181, 212, 243, 273, 304, 334, 365]

  /** Days of year `y` that lie before the first of month `m`; m == 12 gives the whole year. */
  function DaysBeforeMonth(y: int, m: int): int
    requires 0 <= m <= 12
  {
    CommonDaysBefore[m] + (if m >= 2 && IsLeapYear(y) then 1 else 0)
  }

  function DaysInYear(y: int): int {
    DaysBeforeMonth(y, 12)
  }

  function DaysInMonth(y: int, m: int): int
    requires 0 <= m < 12
  {
    if m == 1 then (if IsLeapYear(y) then 29 else 28)
    else if m == 3 || m == 5 || m == 8 || m == 10 then 30
    else 31
  }

  predicate IsValid(d: Date) {
    0 <= d.month < 12 && 1 <= d.day <= DaysInMonth(d.year, d.month)
  }

  /** The dates a successful `new Date(...)` can denote, at day granularity. */
  type CalendarDate = d: Date | IsValid(d) witness Date(1970, 0, 1)

  /** Days from 1 January 1970 to 1 January of year `y` (negative before 1970). */
  function DaysBeforeYear(y: int): int
    decreases if y < 1970 then 1970 - y else y - 1970
  {
    if y == 1970 then 0
    else if y > 1970 then DaysBeforeYear(y - 1) + DaysInYear(y - 1)
    else DaysBeforeYear(y + 1) - DaysInYear(y)
  }

  function DayNumber(d: CalendarDate): int {
    DaysBeforeYear(d.year) + DaysBeforeMonth(d.year, d.month) + d.day - 1
  }

  /** Calendar order: year first, then month, then day. */
  predicate OnOrBefore(a: Date, b: Date) {
    a.year < b.year ||
    (a.year == b.year && (a.month < b.month || (a.month == b.month && a.day <= b.day)))
  }

  /** Strict calendar order. */
  predicate Precedes(a: Date, b: Date) {
    a.year < b.year ||
    (a.year == b.year && (a.month < b.month || (a.month == b.month && a.day < b.day)))
  }

  /** Inclusive number of calendar months from `e` to `l`, as computed at
      SpendingDashboard.tsx lines 69-70. */
  function MonthSpan(e: Date, l: Date): int {
    (l.year - e.year) * 12 + (l.month - e.month) + 1
  }

  /** Inclusive number of days from `e` to `l` (line 68, without the
      fractional-day effect of daylight-saving changes). */
  function DaySpan(e: CalendarDate, l: CalendarDate): int {
    DayNumber(l) - DayNumber(e) + 1
  }

  lemma DaysBeforeYearStep(y: int)
    ensures DaysBeforeYear(y + 1) == DaysBeforeYear(y) + DaysInYear(y)
  {
  }

  /** Whole years lie one after another on the day line. */
  lemma {:induction false} DaysBeforeYearIncreasing(a: int, b: int)
    requires a < b
    ensures DaysBeforeYear(a) + DaysInYear(a) <= DaysBeforeYear(b)
    decreases b - a
  {
    DaysBeforeYearStep(a);
    if a + 1 < b {
      DaysBeforeYearIncreasing(a + 1, b);
      DaysBeforeYearStep(a + 1);
    }
  }

  lemma DaysBeforeMonthIncreasing(y: int, m: int, n: int)
    requires 0 <= m <= n <= 12
    ensures DaysBeforeMonth(y, m) <= DaysBeforeMonth(y, n)
  {
  }

  /** A date's day number falls inside its own year and its own month. */
  lemma DayNumberWithin(d: CalendarDate)
    ensures DaysBeforeYear(d.year) + DaysBeforeMonth(d.year, d.month) <= DayNumber(d)
    ensures DayNumber(d) < DaysBeforeYear(d.year) + DaysBeforeMonth(d.year, d.month + 1)
    ensures DayNumber(d) < DaysBeforeYear(d.year) + DaysInYear(d.year)
  {
    DaysBeforeMonthIncreasing(d.year, d.month + 1, 12);
  }

  /** Comparing day numbers, as the source compares `Date` objects, is the
      calendar order. */
  lemma DayOrderIsCalendarOrder(a: CalendarDate, b: CalendarDate)
    ensures DayNumber(a) <= DayNumber(b) <==> OnOrBefore(a, b)
  {
    DayNumberWithin(a);
    DayNumberWithin(b);
    if a.year < b.year {
      DaysBeforeYearIncreasing(a.year, b.year);
    } else if b.year < a.year {
      DaysBeforeYearIncreasing(b.year, a.year);
    } else if a.month < b.month {
      DaysBeforeMonthIncreasing(a.year, a.month + 1, b.month);
    } else if b.month < a.month {
      DaysBeforeMonthIncreasing(a.year, b.month + 1, a.month);
    }
  }

  /** A date strictly precedes another in the calendar exactly when its
      day number is smaller. */
  lemma PrecedesIsEarlier(a: CalendarDate, b: CalendarDate)
    ensures Precedes(a, b) <==> DayNumber(a) < DayNumber(b)
  {
    DayOrderIsCalendarOrder(b, a);
  }

  /** Two dates with the same day number are the same date. */
  lemma DayNumberInjective(a: CalendarDate, b: CalendarDate)
    requires DayNumber(a) == DayNumber(b)
    ensures a == b
  {
    DayOrderIsCalendarOrder(a, b);
    DayOrderIsCalendarOrder(b, a);
  }

  /** The month span between an earliest and a latest date is at least 1,
      so the average monthly spend never divides by zero. */
  lemma MonthSpanPositive(e: CalendarDate, l: CalendarDate)
    requires DayNumber(e) <= DayNumber(l)
    ensures MonthSpan(e, l) >= 1
  {
    DayOrderIsCalendarOrder(e, l);
  }
}
