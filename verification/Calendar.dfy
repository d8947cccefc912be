/**
 Civil dates of Go's `time` package in one time zone. A day is counted from 0001-01-01; a month is
 counted as `12 * year + month - 1`, so that `time.Date` with an overflowing month is plain addition.
 */
module Calendar {
  import opened Basics

  predicate IsLeap(year: int) {
    year % 4 == 0 && (year % 100 != 0 || year % 400 == 0)
  }

  function MonthLength(i: int): (days: int)
    ensures 28 <= days <= 31
  {
    match i % 12
    case 1 => if IsLeap(i / 12) then 29 else 28
    case 3 => 30
    case 5 => 30
    case 8 => 30
    case 10 => 30
    case _ => 31
  }

  // The first day of month i: the lengths of all months between January of year 1 and month i.
  function MonthStart(i: int): Day
    decreases if i >= 12 then i - 12 else 12 - i
  {
    if i == 12 then 0
    else if i > 12 then MonthStart(i - 1) + MonthLength(i - 1)
    else MonthStart(i + 1) - MonthLength(i)
  }

  lemma MonthStartNext(i: int)
    ensures MonthStart(i + 1) == MonthStart(i) + MonthLength(i)
  {
  }

  lemma {:induction false} MonthStartIncreases(i: int, j: int)
    requires i <= j
    ensures MonthStart(j) - MonthStart(i) >= 28 * (j - i)
    decreases j - i
  {
    if i < j {
      MonthStartIncreases(i, j - 1);
      assert MonthStart(j - 1) + MonthLength(j - 1) == MonthStart(j);
    }
  }

  // ---------- The Gregorian closed form ----------

  function DaysBeforeMonth(month0: int, leap: bool): int {
    var march := if leap then 60 else 59;
    match month0
    case 0 => 0
    case 1 => 31
    case 2 => march
    case 3 => march + 31
    case 4 => march + 61
    case 5 => march + 92
    case 6 => march + 122
    case 7 => march + 153
    case 8 => march + 184
    case 9 => march + 214
    case 10 => march + 245
    case _ => march + 275
  }

  // Days before the year that follows p whole years.
  function DaysBeforeYears(p: int): int {
    365 * p + Multiples(p, 4) - Multiples(p, 100) + Multiples(p, 400)
  }

  function Multiples(p: int, n: int): int
    requires n > 0
  {
    p / n
  }

  predicate Divides(n: int, y: int)
    requires n > 0
  {
    y % n == 0
  }

  function GregorianMonthStart(i: int): Day {
    DaysBeforeYears(i / 12 - 1) + DaysBeforeMonth(i % 12, IsLeap(i / 12))
  }

  lemma MultiplesStep(y: int, n: int)
    requires n == 4 || n == 100 || n == 400
    ensures Multiples(y, n) - Multiples(y - 1, n) == if Divides(n, y) then 1 else 0
  {
  }

  lemma LeapYear(y: int)
    ensures IsLeap(y) <==> Divides(4, y) && (!Divides(100, y) || Divides(400, y))
  {
  }

  lemma Centuries(y: int)
    ensures Divides(400, y) ==> Divides(100, y)
    ensures Divides(100, y) ==> Divides(4, y)
  {
    assert y == 400 * (y / 400) + y % 400 && y == 100 * (y / 100) + y % 100;
  }

  lemma YearLength(y: int)
    ensures DaysBeforeYears(y) - DaysBeforeYears(y - 1) == if IsLeap(y) then 366 else 365
  {
    hide Multiples, Divides, IsLeap;
    LeapYear(y);
    Centuries(y);
    MultiplesStep(y, 4);
    MultiplesStep(y, 100);
    MultiplesStep(y, 400);
  }

  lemma CycleDays(q: int)
    ensures DaysBeforeYears(400 * q) == 146097 * q
  {
  }

  lemma GregorianStep(i: int)
    ensures GregorianMonthStart(i + 1) == GregorianMonthStart(i) + MonthLength(i)
  {
    if i % 12 == 11 {
      assert (i + 1) / 12 == i / 12 + 1 && (i + 1) % 12 == 0;
      YearLength(i / 12);
    } else {
      assert (i + 1) / 12 == i / 12 && (i + 1) % 12 == i % 12 + 1;
    }
  }

  lemma {:induction false} MonthStartIsGregorian(i: int)
    ensures MonthStart(i) == GregorianMonthStart(i)
    decreases if i >= 12 then i - 12 else 12 - i
  {
    if i > 12 {
      MonthStartIsGregorian(i - 1);
      GregorianStep(i - 1);
    } else if i < 12 {
      MonthStartIsGregorian(i + 1);
      GregorianStep(i);
    }
  }

  // 400 years are 4800 months and 146097 days.
  lemma CycleStart(q: int)
    ensures MonthStart(4800 * q + 12) == 146097 * q
  {
    hide MonthStart, DaysBeforeYears, IsLeap;
    MonthStartIsGregorian(4800 * q + 12);
    assert (4800 * q + 12) / 12 == 400 * q + 1 && (4800 * q + 12) % 12 == 0;
    CycleDays(q);
  }

  // ---------- From days to civil dates and back ----------

  function MonthFrom(i: int, d: Day): (m: int)
    requires MonthStart(i) <= d
    ensures MonthStart(m) <= d < MonthStart(m + 1)
    decreases d - MonthStart(i)
  {
    if d < MonthStart(i + 1) then i else MonthFrom(i + 1, d)
  }

  // The month a day lies in.
  function MonthOf(d: Day): (m: int)
    ensures MonthStart(m) <= d < MonthStart(m + 1)
  {
    CycleStart(d / 146097);
    MonthFrom(4800 * (d / 146097) + 12, d)
  }

  lemma MonthOfUnique(d: Day, m: int)
    requires MonthStart(m) <= d < MonthStart(m + 1)
    ensures MonthOf(d) == m
  {
    if MonthOf(d) < m {
      MonthStartIncreases(MonthOf(d) + 1, m);
    } else if m < MonthOf(d) {
      MonthStartIncreases(m + 1, MonthOf(d));
    }
  }

  lemma MonthOfMonotone(c: Day, d: Day)
    requires c <= d
    ensures MonthOf(c) <= MonthOf(d)
  {
    if MonthOf(d) < MonthOf(c) {
      MonthStartIncreases(MonthOf(d) + 1, MonthOf(c));
    }
  }

  function Year(d: Day): int {
    MonthOf(d) / 12
  }

  function MonthNumber(d: Day): int {
    MonthOf(d) % 12 + 1
  }

  function DayOfMonth(d: Day): (n: int)
    ensures 1 <= n <= MonthLength(MonthOf(d))
  {
    d - MonthStart(MonthOf(d)) + 1
  }

  // `time.Date`: month and day may overflow and are carried over.
  function MakeDate(year: int, month: int, day: int): Day {
    MonthStart(12 * year + month - 1) + day - 1
  }

  lemma MakeDateOfCivil(d: Day)
    ensures MakeDate(Year(d), MonthNumber(d), DayOfMonth(d)) == d
  {
  }

  lemma CivilOfMakeDate(year: int, month: int, day: int)
    requires 1 <= month <= 12
    requires 1 <= day <= MonthLength(12 * year + month - 1)
    ensures var d := MakeDate(year, month, day);
            Year(d) == year && MonthNumber(d) == month && DayOfMonth(d) == day
  {
    var i := 12 * year + month - 1;
    MonthOfUnique(MakeDate(year, month, day), i);
    assert i / 12 == year && i % 12 == month - 1;
  }
}
