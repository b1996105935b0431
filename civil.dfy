/** Integer model of the civil (proleptic Gregorian) calendar that replaces
    JavaScript's `Date` in the booking app: a date is a year, a month 1..12 and a
    day of that month; time of day and time zones are not part of it. */
module Civil {

  datatype Date = Date(year: int, month: int, day: int)

  predicate IsLeapYear(y: int) {
    y % 4 == 0 && (y % 100 != 0 || y % 400 == 0)
  }

  function DaysInMonth(y: int, m: int): (n: int)
    requires 1 <= m <= 12
    ensures 28 <= n <= 31
    ensures m == 2 ==> (n == 29 <==> IsLeapYear(y))
  {
    if m == 2 then (if IsLeapYear(y) then 29 else 28)
    else if m == 4 || m == 6 || m == 9 || m == 11 then 30
    else 31
  }

  predicate ValidDate(d: Date) {
    1 <= d.month <= 12 && 1 <= d.day <= DaysInMonth(d.year, d.month)
  }

  /** A date that a JavaScript `Date` object can stand for (always a real calendar day). */
  type CalendarDate = d: Date | ValidDate(d) witness Date(1970, 1, 1)

  function DaysInYear(y: int): int {
    if IsLeapYear(y) then 366 else 365
  }

  /** Days of year y before the first day of month m (m = 13 gives the whole year). */
  function DaysBeforeMonth(y: int, m: int): (n: int)
    requires 1 <= m <= 13
    ensures 0 <= n <= DaysInYear(y)
  {
    var table := [0, 31, 59, 90, 120, 151, 181, 212, 243, 273, 304, 334, 365];
    table[m - 1] + (if m > 2 && IsLeapYear(y) then 1 else 0)
  }

  /** Days before January 1 of year y, counted from January 1 of year 1. Dafny's
      division by a positive constant rounds down, so this holds for every year. */
  function DaysBeforeYear(y: int): int {
    365 * (y - 1) + (y - 1) / 4 - (y - 1) / 100 + (y - 1) / 400
  }

  /** Serial day number: 0001-01-01 is day 0. Plays the part of `Date.getTime()`
      at midnight, divided by the length of a day. */
  function DayNumber(d: CalendarDate): int {
    DaysBeforeYear(d.year) + DaysBeforeMonth(d.year, d.month) + d.day - 1
  }

  /** `Date.getDay()`: 0 = Sunday .. 6 = Saturday. Day 0 (0001-01-01) was a Monday. */
  function DayOfWeek(d: CalendarDate): (w: int)
    ensures 0 <= w < 7
  {
    (DayNumber(d) + 1) % 7
  }

  /** `date.setDate(date.getDate() + 1)`: the following calendar day. */
  function NextDay(d: CalendarDate): (r: CalendarDate)
    ensures r.month == d.month ==> r.year == d.year && r.day == d.day + 1
    ensures r.month != d.month ==> r.day == 1 && d.day == DaysInMonth(d.year, d.month)
  {
    if d.day < DaysInMonth(d.year, d.month) then Date(d.year, d.month, d.day + 1)
    else if d.month < 12 then Date(d.year, d.month + 1, 1)
    else Date(d.year + 1, 1, 1)
  }

  /** `a < b` on two `Date`s taken at midnight. */
  predicate Before(a: CalendarDate, b: CalendarDate) {
    DayNumber(a) < DayNumber(b)
  }

  lemma Div4Step(y: int)
    ensures y / 4 - (y - 1) / 4 == if y % 4 == 0 then 1 else 0
  {
  }

  lemma Div100Step(y: int)
    ensures y / 100 - (y - 1) / 100 == if y % 100 == 0 then 1 else 0
  {
  }

  lemma Div400Step(y: int)
    ensures y / 400 - (y - 1) / 400 == if y % 400 == 0 then 1 else 0
  {
  }

  /** A year contributes exactly its length to the running day count. */
  lemma YearLength(y: int)
    ensures DaysBeforeYear(y + 1) == DaysBeforeYear(y) + DaysInYear(y)
  {
    Div4Step(y);
    Div100Step(y);
    Div400Step(y);
    Mod400Mod100(y);
    Mod100Mod4(y);
    var step := DaysBeforeYear(y + 1) - DaysBeforeYear(y);
    assert step == 365 + (y / 4 - (y - 1) / 4) - (y / 100 - (y - 1) / 100) + (y / 400 - (y - 1) / 400);
  }

  lemma Mod400Mod100(y: int)
    ensures y % 400 == 0 ==> y % 100 == 0
  {
    if y % 400 == 0 {
      var k := y / 400;
      assert y == 100 * (4 * k);
    }
  }

  lemma Mod100Mod4(y: int)
    ensures y % 100 == 0 ==> y % 4 == 0
  {
    if y % 100 == 0 {
      var k := y / 100;
      assert y == 4 * (25 * k);
    }
  }

  /** A month contributes exactly its length to the count within the year. */
  lemma MonthLength(y: int, m: int)
    requires 1 <= m <= 12
    ensures DaysBeforeMonth(y, m + 1) == DaysBeforeMonth(y, m) + DaysInMonth(y, m)
  {
  }

  /** The day after is exactly one day later. */
  lemma NextDayNumber(d: CalendarDate)
    ensures DayNumber(NextDay(d)) == DayNumber(d) + 1
  {
    if d.day == DaysInMonth(d.year, d.month) {
      MonthLength(d.year, d.month);
      if d.month == 12 {
        YearLength(d.year);
      }
    }
  }

  /** Walking forward one day moves the weekday forward by one, modulo 7. */
  lemma NextDayOfWeek(d: CalendarDate)
    ensures DayOfWeek(NextDay(d)) == (DayOfWeek(d) + 1) % 7
  {
    NextDayNumber(d);
    ModSeven(DayNumber(d) + 1);
  }

  lemma ModSeven(m: int)
    ensures (m + 1) % 7 == (m % 7 + 1) % 7
  {
  }

  /** Position of a date within its year: 0 for January 1. */
  lemma DayOfYearRange(d: CalendarDate)
    ensures 0 <= DaysBeforeMonth(d.year, d.month) + d.day - 1 < DaysInYear(d.year)
  {
    MonthLength(d.year, d.month);
  }

  lemma {:induction false} YearsApart(y1: int, y2: int)
    requires y1 < y2
    ensures DaysBeforeYear(y1) + DaysInYear(y1) <= DaysBeforeYear(y2)
    decreases y2 - y1
  {
    YearLength(y1);
    if y1 + 1 < y2 {
      YearsApart(y1 + 1, y2);
    }
  }

  lemma MonthsApart(y: int, m1: int, m2: int)
    requires 1 <= m1 < m2 <= 12
    ensures DaysBeforeMonth(y, m1) + DaysInMonth(y, m1) <= DaysBeforeMonth(y, m2)
  {
    MonthLength(y, m1);
  }

  /** An earlier year means an earlier day number. */
  lemma EarlierYear(a: CalendarDate, b: CalendarDate)
    requires a.year < b.year
    ensures DayNumber(a) < DayNumber(b)
  {
    DayOfYearRange(a);
    YearsApart(a.year, b.year);
  }

  /** Within a year, an earlier month means an earlier day number. */
  lemma EarlierMonth(a: CalendarDate, b: CalendarDate)
    requires a.year == b.year && a.month < b.month
    ensures DayNumber(a) < DayNumber(b)
  {
    MonthsApart(a.year, a.month, b.month);
  }

  /** The day-number order on valid dates is the lexicographic order on
      (year, month, day), so comparing midnights compares calendar days. */
  lemma BeforeIsLexicographic(a: CalendarDate, b: CalendarDate)
    ensures Before(a, b) <==>
      (a.year < b.year || (a.year == b.year && (a.month < b.month || (a.month == b.month && a.day < b.day))))
  {
    if a.year < b.year {
      EarlierYear(a, b);
    } else if b.year < a.year {
      EarlierYear(b, a);
    } else if a.month < b.month {
      EarlierMonth(a, b);
    } else if b.month < a.month {
      EarlierMonth(b, a);
    }
  }

  /** Two calendar dates with the same day number are the same date. */
  lemma DayNumberInjective(a: CalendarDate, b: CalendarDate)
    requires DayNumber(a) == DayNumber(b)
    ensures a == b
  {
    BeforeIsLexicographic(a, b);
    BeforeIsLexicographic(b, a);
  }
}
