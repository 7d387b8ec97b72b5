/** Proleptic Gregorian dates as day numbers, and the fiscal year a tenant starts with. */
module Calendar {

  datatype Date = Date(year: int, month: int, day: int)

  predicate Leap(year: int) {
    year % 4 == 0 && (year % 100 != 0 || year % 400 == 0)
  }

  function DaysInMonth(year: int, month: int): (n: int)
    ensures 28 <= n <= 31
  {
    if month == 2 then (if Leap(year) then 29 else 28)
    else if month in {4, 6, 9, 11} then 30
    else 31
  }

  predicate ValidDate(d: Date) {
    1 <= d.month <= 12 && 1 <= d.day <= DaysInMonth(d.year, d.month)
  }

  function DaysBeforeYear(year: int): (n: int) {
    var y := year - 1;
    y * 365 + y / 4 - y / 100 + y / 400
  }

  function DaysBeforeMonth(year: int, month: int): (n: int)
    requires 1 <= month <= 13
    decreases month
  {
    if month == 1 then 0 else DaysBeforeMonth(year, month - 1) + DaysInMonth(year, month - 1)
  }

  function DayNumber(d: Date): (n: int)
    requires 1 <= d.month <= 12
  {
    DaysBeforeYear(d.year) + DaysBeforeMonth(d.year, d.month) + d.day
  }

  /** The tenant's calendar at the moment of a call. */
  datatype Clock = Clock(today: Date, fiscalStartMonth: int)

  predicate ValidClock(c: Clock) {
    ValidDate(c.today) && 1 <= c.fiscalStartMonth <= 12
  }

  function FiscalYear(c: Clock): (year: int) {
    if c.today.month >= c.fiscalStartMonth then c.today.year else c.today.year - 1
  }

  function FiscalStart(c: Clock): (n: int)
    requires ValidClock(c)
  {
    DayNumber(Date(FiscalYear(c), c.fiscalStartMonth, 1))
  }

  function FiscalEnd(c: Clock): (n: int)
    requires ValidClock(c)
  {
    var endMonth := if c.fiscalStartMonth == 1 then 12 else c.fiscalStartMonth - 1;
    var endYear := if c.fiscalStartMonth > 1 then FiscalYear(c) + 1 else FiscalYear(c);
    DayNumber(Date(endYear, endMonth, DaysInMonth(endYear, endMonth)))
  }

  lemma {:induction false} MonthsIncrease(year: int, m: int, n: int)
    requires 1 <= m < n <= 13
    ensures DaysBeforeMonth(year, m) + DaysInMonth(year, m) <= DaysBeforeMonth(year, n)
    decreases n
  {
    if m + 1 < n {
      MonthsIncrease(year, m, n - 1);
    }
  }

  lemma DaysInYear(year: int)
    ensures DaysBeforeMonth(year, 13) == if Leap(year) then 366 else 365
  {
    assert DaysBeforeMonth(year, 3) == 59 + if Leap(year) then 1 else 0;
    assert DaysBeforeMonth(year, 5) == DaysBeforeMonth(year, 3) + 61;
    assert DaysBeforeMonth(year, 7) == DaysBeforeMonth(year, 5) + 61;
    assert DaysBeforeMonth(year, 9) == DaysBeforeMonth(year, 7) + 62;
    assert DaysBeforeMonth(year, 11) == DaysBeforeMonth(year, 9) + 61;
  }

  lemma FourthYear(y: int)
    ensures (y + 1) / 4 == y / 4 + if (y + 1) % 4 == 0 then 1 else 0
  {
  }

  lemma HundredthYear(y: int)
    ensures (y + 1) / 100 == y / 100 + if (y + 1) % 100 == 0 then 1 else 0
  {
  }

  lemma FourHundredthYear(y: int)
    ensures (y + 1) / 400 == y / 400 + if (y + 1) % 400 == 0 then 1 else 0
  {
  }

  lemma Hundreds(c: int)
    ensures (100 * c) % 4 == 0
  {
  }

  lemma FourHundreds(c: int)
    ensures (400 * c) % 100 == 0
  {
  }

  lemma Centuries(y: int)
    ensures y % 400 == 0 ==> y % 100 == 0
    ensures y % 100 == 0 ==> y % 4 == 0
  {
    if y % 400 == 0 {
      FourHundreds(y / 400);
    }
    if y % 100 == 0 {
      Hundreds(y / 100);
    }
  }

  /** The leap-day terms of a day count, kept apart from the year they are computed for. */
  lemma LeapTerms(year: int, f: int, h: int, q: int, f': int, h': int, q': int)
    requires f' == f + if year % 4 == 0 then 1 else 0
    requires h' == h + if year % 100 == 0 then 1 else 0
    requires q' == q + if year % 400 == 0 then 1 else 0
    ensures f' - h' + q' == f - h + q + if Leap(year) then 1 else 0
  {
    Centuries(year);
  }

  lemma LeapDays(year: int)
    ensures DaysBeforeYear(year + 1) == DaysBeforeYear(year) + if Leap(year) then 366 else 365
  {
    var y := year - 1;
    FourthYear(y);
    HundredthYear(y);
    FourHundredthYear(y);
    LeapTerms(year, y / 4, y / 100, y / 400, (y + 1) / 4, (y + 1) / 100, (y + 1) / 400);
  }

  lemma YearLength(year: int)
    ensures DaysBeforeYear(year + 1) == DaysBeforeYear(year) + DaysBeforeMonth(year, 13)
  {
    DaysInYear(year);
    LeapDays(year);
  }

  lemma {:induction false} MonthStartNonNegative(year: int, month: int)
    requires 1 <= month <= 13
    ensures 0 <= DaysBeforeMonth(year, month)
  {
    if month > 1 {
      MonthsIncrease(year, 1, month);
    }
  }

  lemma FiscalYearSpan(c: Clock)
    requires ValidClock(c)
    ensures FiscalEnd(c) + 1 == DayNumber(Date(FiscalYear(c) + 1, c.fiscalStartMonth, 1))
  {
    var year, m := FiscalYear(c), c.fiscalStartMonth;
    if m == 1 {
      YearLength(year);
      assert DaysBeforeMonth(year, 13) == DaysBeforeMonth(year, 12) + DaysInMonth(year, 12);
    }
  }

  lemma DayWithinYear(d: Date)
    requires ValidDate(d)
    ensures DaysBeforeYear(d.year) < DayNumber(d) <= DaysBeforeYear(d.year + 1)
  {
    YearLength(d.year);
    MonthStartNonNegative(d.year, d.month);
    MonthsIncrease(d.year, d.month, 13);
  }

  lemma FiscalStartPassed(c: Clock)
    requires ValidClock(c)
    ensures FiscalStart(c) <= DayNumber(c.today)
  {
    var m := c.fiscalStartMonth;
    if c.today.month < m {
      DayWithinYear(Date(c.today.year - 1, m, 1));
      DayWithinYear(c.today);
    } else if m < c.today.month {
      MonthsIncrease(c.today.year, m, c.today.month);
    }
  }

  lemma FiscalEndAhead(c: Clock)
    requires ValidClock(c)
    ensures DayNumber(c.today) < DayNumber(Date(FiscalYear(c) + 1, c.fiscalStartMonth, 1))
  {
    var m := c.fiscalStartMonth;
    if c.today.month < m {
      MonthsIncrease(c.today.year, c.today.month, m);
    } else {
      DayWithinYear(c.today);
      DayWithinYear(Date(c.today.year + 1, m, 1));
    }
  }

  /**
   The first fiscal period runs twelve whole months (the day after it ends is the same day of the
   next year) and contains the day it is created on.
   */
  lemma FirstFiscalYear(c: Clock)
    requires ValidClock(c)
    ensures FiscalEnd(c) + 1 == DayNumber(Date(FiscalYear(c) + 1, c.fiscalStartMonth, 1))
    ensures FiscalStart(c) <= DayNumber(c.today) <= FiscalEnd(c)
  {
    FiscalYearSpan(c);
    FiscalStartPassed(c);
    FiscalEndAhead(c);
  }
}
