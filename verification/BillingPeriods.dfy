/**
 internal/domain/lease/billing.go: the calendar grids, the builders that expand a lease into billing
 periods, and the next payment date. Rent and monthly electricity are anchored to a day of the month,
 clamped where a month is short; bimonthly electricity uses the natural two-month windows.
 */
module BillingPeriods {
  import opened Basics
  import opened Calendar
  import opened Schedules

  datatype Cadence = Monthly | Bimonthly | Quarterly | Semiannual | Annual | OtherCadence(text: string)

  datatype BillingError =
    | InvalidDateRange
    | InvalidBillingAnchor
    | InvalidRentBillingCadence
    | InvalidElectricityBillingCadence

  // ---------- The grids ----------

  // Day `anchor` of month i, or the last day of a shorter month.
  function Clamp(i: int, anchor: int): Day {
    MonthStart(i) + Min(anchor, MonthLength(i)) - 1
  }

  lemma ClampInMonth(i: int, anchor: int)
    requires 1 <= anchor
    ensures MonthOf(Clamp(i, anchor)) == i
  {
    MonthStartNext(i);
    MonthOfUnique(Clamp(i, anchor), i);
  }

  // From a day to the anchor day `step` months later.
  function AnchoredNext(step: int, anchor: int, d: Day): Day {
    Clamp(MonthOf(d) + step, anchor)
  }

  // The two-month window a day lies in: Jan-Feb, Mar-Apr, ..., Nov-Dec.
  function Window(d: Day): int {
    MonthOf(d) / 2
  }

  function WindowNext(d: Day): Day {
    MonthStart(2 * Window(d) + 2)
  }

  function Anchored(step: int, anchor: int): Grid {
    d => AnchoredNext(step, anchor, d)
  }

  function Windows(): Grid {
    d => WindowNext(d)
  }

  function AtStart(): Day -> Day {
    d => d
  }

  function InMonth(anchor: int): Day -> Day {
    d => Clamp(MonthOf(d), anchor)
  }

  lemma AnchoredLater(step: int, anchor: int, d: Day)
    requires 1 <= step && 1 <= anchor
    ensures AnchoredNext(step, anchor, d) > d
  {
    hide MonthLength, MonthStart, MonthOf;
    MonthStartIncreases(MonthOf(d) + 1, MonthOf(d) + step);
  }

  lemma WindowLater(d: Day)
    ensures WindowNext(d) > d
  {
    hide MonthLength, MonthStart, MonthOf;
    MonthStartIncreases(MonthOf(d) + 1, 2 * Window(d) + 2);
  }

  lemma AnchoredAdvances(step: int, anchor: int)
    requires 1 <= step && 1 <= anchor
    ensures Advances(Anchored(step, anchor))
  {
    hide AnchoredNext;
    forall d {
      AnchoredLater(step, anchor, d);
    }
  }

  lemma WindowsAdvance()
    ensures Advances(Windows())
  {
    hide WindowNext;
    forall d {
      WindowLater(d);
    }
  }

  // ---------- Closed forms ----------

  // No drift: every later point is the original anchor day, clamped only in its own month.
  lemma {:induction false} AnchoredPoint(step: int, anchor: int, s: Day, k: nat)
    requires 1 <= step && 1 <= anchor
    ensures k >= 1 ==> Point(Anchored(step, anchor), s, k) == Clamp(MonthOf(s) + k * step, anchor)
    ensures MonthOf(Point(Anchored(step, anchor), s, k)) == MonthOf(s) + k * step
  {
    hide Clamp, MonthOf, MonthStart;
    if k >= 1 {
      AnchoredPoint(step, anchor, s, k - 1);
      assert (k - 1) * step + step == k * step;
      ClampInMonth(MonthOf(s) + k * step, anchor);
    }
  }

  // A cadence of m months visits every m-th monthly point.
  lemma Nesting(m: int, anchor: int, s: Day, k: nat)
    requires 1 <= m && 1 <= anchor
    ensures m * k >= 0
    ensures Point(Anchored(m, anchor), s, k) == Point(Anchored(1, anchor), s, m * k)
  {
    if k > 0 {
      NestedPoint(m, anchor, s, k, m * k);
    }
  }

  lemma NestedPoint(m: int, anchor: int, s: Day, k: nat, mk: nat)
    requires 1 <= m && 1 <= anchor
    requires k > 0 && mk > 0 && mk == k * m
    ensures Point(Anchored(m, anchor), s, k) == Point(Anchored(1, anchor), s, mk)
  {
    hide *;
    AnchoredPoint(m, anchor, s, k);
    AnchoredPoint(1, anchor, s, mk);
    assert mk * 1 == k * m;
  }

  lemma {:induction false} WindowPoint(s: Day, k: nat)
    ensures k >= 1 ==> Point(Windows(), s, k) == MonthStart(2 * (Window(s) + k))
    ensures Window(Point(Windows(), s, k)) == Window(s) + k
  {
    hide MonthStart, MonthLength, MonthOf;
    if k >= 1 {
      WindowPoint(s, k - 1);
      var i := 2 * (Window(s) + k);
      MonthStartNext(i);
      MonthOfUnique(MonthStart(i), i);
    }
  }

  // ---------- The natural two-month windows ----------

  lemma WindowOfDay(s: Day, d: Day, k: nat)
    requires s <= d
    ensures Point(Windows(), s, k) <= d < Point(Windows(), s, k + 1) <==> Window(d) == Window(s) + k
  {
    hide MonthStart, MonthOf, WindowNext;
    WindowPoint(s, k);
    WindowPoint(s, k + 1);
    MonthOfMonotone(s, d);
    var i := 2 * (Window(s) + k);
    if Window(d) == Window(s) + k {
      MonthStartIncreases(i, MonthOf(d));
      MonthStartIncreases(MonthOf(d) + 1, i + 2);
    } else if Window(d) < Window(s) + k {
      MonthStartIncreases(MonthOf(d) + 1, i);
    } else {
      MonthStartIncreases(i + 2, MonthOf(d));
    }
  }

  // A day of the lease lies in period k exactly when it lies k natural windows after the start.
  lemma BimonthlyPeriodIsWindow(due: Day -> Day, s: Day, e: Day, d: Day, k: nat)
    requires Advances(Windows())
    requires s <= d <= e
    requires k < |Cut(Windows(), due, s, e)|
    ensures Cut(Windows(), due, s, e)[k].first <= d <= Cut(Windows(), due, s, e)[k].last
            <==> Window(d) == Window(s) + k
  {
    hide Window;
    CutPeriod(Windows(), due, s, e, k);
    WindowOfDay(s, d, k);
  }

  // Two days of the lease share a period exactly when they share a natural window.
  lemma BimonthlyQuotient(due: Day -> Day, s: Day, e: Day, c: Day, d: Day)
    requires Advances(Windows())
    requires s <= c <= e && s <= d <= e
    ensures (exists p | p in Cut(Windows(), due, s, e) :: p.first <= c <= p.last && p.first <= d <= p.last)
            <==> Window(c) == Window(d)
  {
    var ps := Cut(Windows(), due, s, e);
    forall k: nat | k < |ps|
      ensures ps[k].first <= c <= ps[k].last <==> Window(c) == Window(s) + k
      ensures ps[k].first <= d <= ps[k].last <==> Window(d) == Window(s) + k
    {
      BimonthlyPeriodIsWindow(due, s, e, c, k);
      BimonthlyPeriodIsWindow(due, s, e, d, k);
    }
    if Window(c) == Window(d) {
      assert Window(c) >= Window(s) by {
        MonthOfMonotone(s, c);
      }
      hide Window;
      var k := Window(c) - Window(s);
      WindowOfDay(s, c, k);
      CutLength(Windows(), due, s, e, k);
      assert ps[k] in ps;
    }
  }

  // ---------- The dispatchers ----------

  // Zero stands for a cadence rent does not support.
  function RentCadenceMonths(cadence: Cadence): int {
    match cadence
    case Monthly => 1
    case Quarterly => 3
    case Semiannual => 6
    case Annual => 12
    case _ => 0
  }

  predicate IsRentCadence(cadence: Cadence) {
    cadence.Monthly? || cadence.Quarterly? || cadence.Semiannual? || cadence.Annual?
  }

  predicate IsElectricityCadence(cadence: Cadence) {
    cadence.Monthly? || cadence.Bimonthly?
  }

  function RentGrid(cadence: Cadence, anchor: int): Grid {
    Anchored(RentCadenceMonths(cadence), anchor)
  }

  function ElectricityGrid(cadence: Cadence, anchor: int): Grid {
    if cadence.Bimonthly? then Windows() else Anchored(1, anchor)
  }

  lemma GridsAdvance(rent: Cadence, electricity: Cadence, anchor: int)
    requires anchor >= 1
    ensures IsRentCadence(rent) ==> Advances(RentGrid(rent, anchor))
    ensures Advances(ElectricityGrid(electricity, anchor))
  {
    if IsRentCadence(rent) {
      AnchoredAdvances(RentCadenceMonths(rent), anchor);
    }
    AnchoredAdvances(1, anchor);
    WindowsAdvance();
  }

  function RentSchedule(s: Day, e: Day, cadence: Cadence, anchor: int): Result<seq<BillingPeriod>, BillingError> {
    if s > e then Failure(InvalidDateRange)
    else if anchor < 1 || anchor > 31 then Failure(InvalidBillingAnchor)
    else if !IsRentCadence(cadence) then Failure(InvalidRentBillingCadence)
    else
      GridsAdvance(cadence, Monthly, anchor);
      Success(Cut(RentGrid(cadence, anchor), AtStart(), s, e))
  }

  function ElectricitySchedule(s: Day, e: Day, cadence: Cadence): Result<seq<BillingPeriod>, BillingError> {
    if s > e then Failure(InvalidDateRange)
    else if !IsElectricityCadence(cadence) then Failure(InvalidElectricityBillingCadence)
    else
      GridsAdvance(Monthly, cadence, DayOfMonth(s));
      Success(Cut(ElectricityGrid(cadence, DayOfMonth(s)), InMonth(DayOfMonth(s)), s, e))
  }

  function MonthlyScheduleFromAnchor(s: Day, e: Day, anchor: int): Result<seq<BillingPeriod>, BillingError> {
    if s > e then Failure(InvalidDateRange)
    else if anchor < 1 || anchor > 31 then Failure(InvalidBillingAnchor)
    else
      AnchoredAdvances(1, anchor);
      Success(Cut(Anchored(1, anchor), InMonth(anchor), s, e))
  }

  // Monthly rent and monthly electricity agree, due dates included, exactly when the first day is
  // its own anchor day.
  lemma MonthlySchedulesAgree(s: Day, e: Day, anchor: int)
    requires s <= e && 1 <= anchor <= 31
    ensures RentSchedule(s, e, Monthly, anchor) == MonthlyScheduleFromAnchor(s, e, anchor)
            <==> s == Clamp(MonthOf(s), anchor)
  {
    hide Clamp;
    var g := Anchored(1, anchor);
    AnchoredAdvances(1, anchor);
    var rent, electricity := Cut(g, AtStart(), s, e), Cut(g, InMonth(anchor), s, e);
    CutPeriod(g, AtStart(), s, e, 0);
    CutPeriod(g, InMonth(anchor), s, e, 0);
    if s == Clamp(MonthOf(s), anchor) {
      CutLength(g, AtStart(), s, e, |electricity|);
      CutLength(g, InMonth(anchor), s, e, |electricity|);
      CutLength(g, AtStart(), s, e, |electricity| - 1);
      CutLength(g, InMonth(anchor), s, e, |electricity| - 1);
      forall k: nat | k < |rent|
        ensures rent[k] == electricity[k]
      {
        CutPeriod(g, AtStart(), s, e, k);
        CutPeriod(g, InMonth(anchor), s, e, k);
        AnchoredPoint(1, anchor, s, k);
      }
      assert rent == electricity;
    } else {
      assert rent[0].due != electricity[0].due;
    }
  }

  // A lease's own first day is its anchor day, so its monthly rent and electricity periods are the same.
  lemma MonthlyLeaseAgrees(s: Day, e: Day)
    requires s <= e
    ensures RentSchedule(s, e, Monthly, DayOfMonth(s)) == ElectricitySchedule(s, e, Monthly)
  {
    MonthlySchedulesAgree(s, e, DayOfMonth(s));
    assert s == Clamp(MonthOf(s), DayOfMonth(s));
    assert MonthlyScheduleFromAnchor(s, e, DayOfMonth(s)) == ElectricitySchedule(s, e, Monthly) by {
      hide Cut, AnchoredNext;
    }
    hide RentSchedule, ElectricitySchedule, MonthlyScheduleFromAnchor;
  }

  // Every schedule the builders return partitions the days of the lease.
  lemma SchedulesPartition(s: Day, e: Day, cadence: Cadence, anchor: int)
    ensures RentSchedule(s, e, cadence, anchor).Success? ==>
              Tiles(RentSchedule(s, e, cadence, anchor).value, s, e + 1)
    ensures ElectricitySchedule(s, e, cadence).Success? ==>
              Tiles(ElectricitySchedule(s, e, cadence).value, s, e + 1)
  {
    hide AnchoredNext, WindowNext, Cut, Tiles, DayOfMonth;
    if RentSchedule(s, e, cadence, anchor).Success? {
      GridsAdvance(cadence, Monthly, anchor);
      CutTiles(RentGrid(cadence, anchor), AtStart(), s, e);
    }
    if ElectricitySchedule(s, e, cadence).Success? {
      GridsAdvance(Monthly, cadence, DayOfMonth(s));
      CutTiles(ElectricityGrid(cadence, DayOfMonth(s)), InMonth(DayOfMonth(s)), s, e);
    }
  }

  // ---------- The builders ----------

  function ClampedMonthDate(year: int, month: int, day: int): (d: Day)
    ensures d == Clamp(12 * year + month - 1, day)
  {
    var firstOfNextMonth := MakeDate(year, month + 1, 1);
    MonthStartNext(12 * year + month - 1);
    MonthOfUnique(firstOfNextMonth - 1, 12 * year + month - 1);
    var lastDay := DayOfMonth(firstOfNextMonth - 1);
    MakeDate(year, month, if day > lastDay then lastDay else day)
  }

  // The civil arithmetic of the loops is the step of the grid.
  lemma ClampedStep(d: Day, months: int, anchor: int)
    ensures ClampedMonthDate(Year(d), MonthNumber(d) + months, anchor) == AnchoredNext(months, anchor, d)
    ensures ClampedMonthDate(Year(d), MonthNumber(d), anchor) == Clamp(MonthOf(d), anchor)
  {
    hide Clamp;
  }

  // One iteration of a builder moves the first period of the rest to the list.
  lemma CutGrows(periods: seq<BillingPeriod>, g: Grid, due: Day -> Day, s: Day, e: Day)
    requires Advances(g)
    requires s <= e
    ensures periods + Cut(g, due, s, e) == periods + [BillingPeriod(s, Min(g(s) - 1, e), due(s))] + Cut(g, due, g(s), e)
  {
    ConcatAssociative(periods, [BillingPeriod(s, Min(g(s) - 1, e), due(s))], Cut(g, due, g(s), e));
  }

  method BuildAnchoredPeriods(startDate: Day, endDate: Day, monthStep: int, anchorDay: int)
    returns (periods: seq<BillingPeriod>)
    requires 1 <= monthStep && 1 <= anchorDay
    requires Advances(Anchored(monthStep, anchorDay))
    ensures periods == Cut(Anchored(monthStep, anchorDay), AtStart(), startDate, endDate)
  {
    hide AnchoredNext, ClampedMonthDate, MonthNumber, Year, MonthOf, MonthStart, Cut;
    ghost var g := Anchored(monthStep, anchorDay);
    var currentStart := startDate;
    periods := [];
    while currentStart <= endDate
      invariant periods + Cut(g, AtStart(), currentStart, endDate) == Cut(g, AtStart(), startDate, endDate)
      decreases endDate - currentStart
    {
      var nextStart := ClampedMonthDate(Year(currentStart), MonthNumber(currentStart) + monthStep, anchorDay);
      ClampedStep(currentStart, monthStep, anchorDay);
      assert nextStart == g(currentStart);
      var periodEnd := nextStart - 1;
      if periodEnd > endDate {
        periodEnd := endDate;
      }
      CutGrows(periods, g, AtStart(), currentStart, endDate);
      periods := periods + [BillingPeriod(currentStart, periodEnd, currentStart)];
      currentStart := nextStart;
    }
  }

  method BuildMonthlyPeriods(startDate: Day, endDate: Day, anchorDay: int) returns (periods: seq<BillingPeriod>)
    requires 1 <= anchorDay
    requires Advances(Anchored(1, anchorDay))
    ensures periods == Cut(Anchored(1, anchorDay), InMonth(anchorDay), startDate, endDate)
  {
    hide AnchoredNext, ClampedMonthDate, Clamp, MonthNumber, Year, MonthOf, MonthStart, Cut;
    ghost var g, due := Anchored(1, anchorDay), InMonth(anchorDay);
    var currentStart := startDate;
    periods := [];
    while currentStart <= endDate
      invariant periods + Cut(g, due, currentStart, endDate) == Cut(g, due, startDate, endDate)
      decreases endDate - currentStart
    {
      var nextStart := ClampedMonthDate(Year(currentStart), MonthNumber(currentStart) + 1, anchorDay);
      ClampedStep(currentStart, 1, anchorDay);
      assert nextStart == g(currentStart);
      var periodEnd := nextStart - 1;
      if periodEnd > endDate {
        periodEnd := endDate;
      }
      var dueDate := ClampedMonthDate(Year(currentStart), MonthNumber(currentStart), anchorDay);
      assert dueDate == due(currentStart);
      CutGrows(periods, g, due, currentStart, endDate);
      periods := periods + [BillingPeriod(currentStart, periodEnd, dueDate)];
      currentStart := nextStart;
    }
  }

  function OddMonth(month: int): int {
    if month % 2 == 0 then month - 1 else month
  }

  lemma OddMonthIndex(i: int)
    ensures 12 * (i / 12) + OddMonth(i % 12 + 1) + 1 == 2 * (i / 2) + 2
    ensures 1 <= OddMonth(i % 12 + 1) <= 12
  {
    var y, m := i / 12, i % 12;
    assert i / 2 == 6 * y + m / 2;
    assert (m + 1) % 2 == 0 <==> m % 2 == 1;
  }

  // The window arithmetic of the loop is the step of the grid.
  lemma WindowStep(d: Day)
    ensures Year(MakeDate(Year(d), OddMonth(MonthNumber(d)), 1)) == Year(d)
    ensures ClampedMonthDate(Year(d), OddMonth(MonthNumber(d)) + 2, 1) == WindowNext(d)
  {
    hide MonthStart, MonthLength, OddMonth;
    OddMonthIndex(MonthOf(d));
    CivilOfMakeDate(Year(d), OddMonth(MonthNumber(d)), 1);
  }

  method BuildNaturalBimonthlyPeriods(startDate: Day, endDate: Day, anchorDay: int)
    returns (periods: seq<BillingPeriod>)
    requires Advances(Windows())
    ensures periods == Cut(Windows(), InMonth(anchorDay), startDate, endDate)
  {
    hide WindowNext, ClampedMonthDate, Clamp, MonthNumber, Year, MakeDate, MonthOf, MonthStart, Cut;
    ghost var g, due := Windows(), InMonth(anchorDay);
    var currentStart := startDate;
    periods := [];
    while currentStart <= endDate
      invariant periods + Cut(g, due, currentStart, endDate) == Cut(g, due, startDate, endDate)
      decreases endDate - currentStart
    {
      WindowStep(currentStart);
      var windowStartMonth := MonthNumber(currentStart);
      if windowStartMonth % 2 == 0 {
        windowStartMonth := windowStartMonth - 1;
      }
      var windowStart := MakeDate(Year(currentStart), windowStartMonth, 1);
      var windowEnd := ClampedMonthDate(Year(windowStart), windowStartMonth + 2, 1) - 1;
      assert windowEnd + 1 == g(currentStart);
      var periodEnd := windowEnd;
      if periodEnd > endDate {
        periodEnd := endDate;
      }
      var dueDate := ClampedMonthDate(Year(currentStart), MonthNumber(currentStart), anchorDay);
      ClampedStep(currentStart, 0, anchorDay);
      assert dueDate == due(currentStart);
      CutGrows(periods, g, due, currentStart, endDate);
      periods := periods + [BillingPeriod(currentStart, periodEnd, dueDate)];
      currentStart := windowEnd + 1;
    }
  }

  method BuildBillingPeriods(startDate: Day, endDate: Day, cadence: Cadence)
    returns (r: Result<seq<BillingPeriod>, BillingError>)
    ensures r == ElectricitySchedule(startDate, endDate, cadence)
  {
    hide AnchoredNext, WindowNext, Clamp;
    if startDate > endDate {
      return Failure(InvalidDateRange);
    }
    var anchorDay := DayOfMonth(startDate);
    GridsAdvance(Monthly, cadence, anchorDay);
    if cadence == Monthly {
      var periods := BuildMonthlyPeriods(startDate, endDate, anchorDay);
      r := Success(periods);
    } else if cadence == Bimonthly {
      var periods := BuildNaturalBimonthlyPeriods(startDate, endDate, anchorDay);
      r := Success(periods);
    } else {
      r := Failure(InvalidElectricityBillingCadence);
    }
  }

  method BuildRentBillingPeriodsFromAnchor(startDate: Day, endDate: Day, cadence: Cadence, anchorDay: int)
    returns (r: Result<seq<BillingPeriod>, BillingError>)
    ensures r == RentSchedule(startDate, endDate, cadence, anchorDay)
  {
    hide AnchoredNext, WindowNext;
    if startDate > endDate {
      return Failure(InvalidDateRange);
    }
    if anchorDay < 1 || anchorDay > 31 {
      return Failure(InvalidBillingAnchor);
    }
    var monthStep;
    match cadence {
      case Monthly => monthStep := 1;
      case Quarterly => monthStep := 3;
      case Semiannual => monthStep := 6;
      case Annual => monthStep := 12;
      case _ => return Failure(InvalidRentBillingCadence);
    }
    GridsAdvance(cadence, Monthly, anchorDay);
    var periods := BuildAnchoredPeriods(startDate, endDate, monthStep, anchorDay);
    r := Success(periods);
  }

  method BuildRentBillingPeriods(startDate: Day, endDate: Day, cadence: Cadence)
    returns (r: Result<seq<BillingPeriod>, BillingError>)
    ensures r == RentSchedule(startDate, endDate, cadence, DayOfMonth(startDate))
  {
    r := BuildRentBillingPeriodsFromAnchor(startDate, endDate, cadence, DayOfMonth(startDate));
  }

  method BuildMonthlyBillingPeriodsFromAnchor(startDate: Day, endDate: Day, anchorDay: int)
    returns (r: Result<seq<BillingPeriod>, BillingError>)
    ensures r == MonthlyScheduleFromAnchor(startDate, endDate, anchorDay)
  {
    hide AnchoredNext, Clamp;
    if startDate > endDate {
      return Failure(InvalidDateRange);
    }
    if anchorDay < 1 || anchorDay > 31 {
      return Failure(InvalidBillingAnchor);
    }
    AnchoredAdvances(1, anchorDay);
    var periods := BuildMonthlyPeriods(startDate, endDate, anchorDay);
    r := Success(periods);
  }

  // ---------- The next payment date ----------

  // The grid the next payment date is looked up on; an unsupported cadence counts single months.
  function PaymentGrid(leaseStart: Day, cadence: Cadence): (g: Grid)
    ensures Advances(g)
  {
    var months := if IsRentCadence(cadence) then RentCadenceMonths(cadence) else 1;
    AnchoredAdvances(months, DayOfMonth(leaseStart));
    Anchored(months, DayOfMonth(leaseStart))
  }

  method NextRentPaymentDateAfter(leaseStart: Day, operationDate: Day, cadence: Cadence) returns (candidate: Day)
    ensures candidate == FirstPointAfter(PaymentGrid(leaseStart, cadence), leaseStart, operationDate)
  {
    hide AnchoredNext, ClampedMonthDate, DayOfMonth;
    var months := RentCadenceMonths(cadence);
    if months == 0 {
      months := 1;
    }
    var anchorDay := DayOfMonth(leaseStart);
    ghost var g := PaymentGrid(leaseStart, cadence);
    candidate := leaseStart;
    while candidate <= operationDate
      invariant FirstPointAfter(g, candidate, operationDate) == FirstPointAfter(g, leaseStart, operationDate)
      decreases operationDate - candidate
    {
      ClampedStep(candidate, months, anchorDay);
      assert g(candidate) == ClampedMonthDate(Year(candidate), MonthNumber(candidate) + months, anchorDay);
      candidate := ClampedMonthDate(Year(candidate), MonthNumber(candidate) + months, anchorDay);
    }
  }
}
