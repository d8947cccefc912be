/**
 What the cadences mean in months (internal/domain/lease/billing.go, internal/domain/lease/aggregate.go):
 the starts and due dates of every schedule with the number of months written out, the points of the
 payment grid, the refusals of the builders, and the texts that name a cadence.
 */
module Cadences {
  import opened Basics
  import opened Calendar
  import opened Schedules
  import opened BillingPeriods
  import opened Leases

  // ---------- The clamped day ----------

  // The clamped day lies in its month, on the anchor day or else on the last day of a shorter month.
  lemma ClampIsCivil(year: int, month: int, anchor: int)
    requires 1 <= month <= 12 && anchor >= 1
    ensures var d := Clamp(12 * year + month - 1, anchor);
            && Year(d) == year && MonthNumber(d) == month
            && (DayOfMonth(d) == anchor || (DayOfMonth(d) < anchor && DayOfMonth(d + 1) == 1))
  {
    var i := 12 * year + month - 1;
    var d := Clamp(i, anchor);
    hide MonthOf, MonthLength, MonthStart;
    ClampInMonth(i, anchor);
    MonthStartNext(i);
    assert i / 12 == year && i % 12 == month - 1;
    if anchor >= MonthLength(i) {
      MonthStartIncreases(i + 1, i + 2);
      MonthOfUnique(d + 1, i + 1);
    }
  }

  // ---------- The starts of a rent list ----------

  // The list starts on the first day and then every so many months on the anchor day, due on that day.
  ghost predicate StartsEvery(months: int, periods: seq<BillingPeriod>, s: Day, e: Day, anchor: int) {
    && periods != [] && periods[0].first == periods[0].due == s
    && forall k: nat | k >= 1 ::
         && (k < |periods| <==> Clamp(MonthOf(s) + months * k, anchor) <= e)
         && (k < |periods| ==> periods[k].first == periods[k].due == Clamp(MonthOf(s) + months * k, anchor))
  }

  lemma CutStartsEvery(months: int, s: Day, e: Day, anchor: int)
    requires 1 <= months && 1 <= anchor && s <= e
    requires Advances(Anchored(months, anchor))
    ensures StartsEvery(months, Cut(Anchored(months, anchor), AtStart(), s, e), s, e, anchor)
  {
    hide Clamp, MonthOf, AnchoredNext, Cut;
    var g := Anchored(months, anchor);
    var periods := Cut(g, AtStart(), s, e);
    CutPeriod(g, AtStart(), s, e, 0);
    forall k: nat | k >= 1
      ensures k < |periods| <==> Clamp(MonthOf(s) + months * k, anchor) <= e
      ensures k < |periods| ==> periods[k].first == periods[k].due == Clamp(MonthOf(s) + months * k, anchor)
    {
      AnchoredPoint(months, anchor, s, k);
      assert k * months == months * k;
      CutLength(g, AtStart(), s, e, k);
      if k < |periods| {
        CutPeriod(g, AtStart(), s, e, k);
      }
    }
  }

  // A monthly, quarterly, semiannual and annual list has a start every 1, 3, 6 and 12 months.
  lemma RentStarts(s: Day, e: Day, anchor: int)
    requires s <= e && 1 <= anchor <= 31
    ensures var r := RentSchedule(s, e, Monthly, anchor); r.Success? && StartsEvery(1, r.value, s, e, anchor)
    ensures var r := RentSchedule(s, e, Quarterly, anchor); r.Success? && StartsEvery(3, r.value, s, e, anchor)
    ensures var r := RentSchedule(s, e, Semiannual, anchor); r.Success? && StartsEvery(6, r.value, s, e, anchor)
    ensures var r := RentSchedule(s, e, Annual, anchor); r.Success? && StartsEvery(12, r.value, s, e, anchor)
  {
    hide *;
    FourCadences();
    ListStartsEvery(Monthly, 1, s, e, anchor);
    ListStartsEvery(Quarterly, 3, s, e, anchor);
    ListStartsEvery(Semiannual, 6, s, e, anchor);
    ListStartsEvery(Annual, 12, s, e, anchor);
  }

  lemma FourCadences()
    ensures IsRentCadence(Monthly) && RentCadenceMonths(Monthly) == 1
    ensures IsRentCadence(Quarterly) && RentCadenceMonths(Quarterly) == 3
    ensures IsRentCadence(Semiannual) && RentCadenceMonths(Semiannual) == 6
    ensures IsRentCadence(Annual) && RentCadenceMonths(Annual) == 12
  {
  }

  lemma ListStartsEvery(cadence: Cadence, months: int, s: Day, e: Day, anchor: int)
    requires s <= e && 1 <= anchor <= 31
    requires IsRentCadence(cadence) && RentCadenceMonths(cadence) == months
    ensures var r := RentSchedule(s, e, cadence, anchor); r.Success? && StartsEvery(months, r.value, s, e, anchor)
  {
    AnchoredAdvances(months, anchor);
    hide StartsEvery, AnchoredNext, Cut;
    CutStartsEvery(months, s, e, anchor);
  }

  // The starts of the longer lists are starts of the monthly list.
  lemma StartsNest(s: Day, e: Day, anchor: int, k: nat)
    requires s <= e && 1 <= anchor <= 31
    ensures var monthly, quarterly := RentSchedule(s, e, Monthly, anchor).value,
            RentSchedule(s, e, Quarterly, anchor).value;
            k < |quarterly| ==> 3 * k < |monthly| && quarterly[k].first == monthly[3 * k].first
    ensures var monthly, semiannual := RentSchedule(s, e, Monthly, anchor).value,
            RentSchedule(s, e, Semiannual, anchor).value;
            k < |semiannual| ==> 6 * k < |monthly| && semiannual[k].first == monthly[6 * k].first
    ensures var monthly, annual := RentSchedule(s, e, Monthly, anchor).value, RentSchedule(s, e, Annual, anchor).value;
            k < |annual| ==> 12 * k < |monthly| && annual[k].first == monthly[12 * k].first
  {
    hide *;
    RentStarts(s, e, anchor);
    NestedStart(3, RentSchedule(s, e, Quarterly, anchor).value, RentSchedule(s, e, Monthly, anchor).value, s, e, anchor,
        k);
    NestedStart(6, RentSchedule(s, e, Semiannual, anchor).value, RentSchedule(s, e, Monthly, anchor).value, s, e,
        anchor, k);
    NestedStart(12, RentSchedule(s, e, Annual, anchor).value, RentSchedule(s, e, Monthly, anchor).value, s, e, anchor,
        k);
  }

  lemma NestedStart(months: nat, periods: seq<BillingPeriod>, monthly: seq<BillingPeriod>, s: Day, e: Day, anchor: int,
                    k: nat)
    requires months >= 1
    requires StartsEvery(months, periods, s, e, anchor) && StartsEvery(1, monthly, s, e, anchor)
    ensures k < |periods| ==> 0 <= months * k < |monthly| && periods[k].first == monthly[months * k].first
  {
    hide Clamp, MonthOf;
    var n := months * k;
    if k >= 1 {
      assert n >= 1;
      assert 1 * n == n;
    }
  }

  // ---------- The payment grid ----------

  // Payment dates after the first lie 1, 3, 6 and 12 months apart, and one month for any other cadence.
  lemma PaymentPoints(s: Day, cadence: Cadence, k: nat)
    requires k >= 1
    ensures Point(PaymentGrid(s, cadence), s, k)
            == match cadence
               case Quarterly => Clamp(MonthOf(s) + 3 * k, DayOfMonth(s))
               case Semiannual => Clamp(MonthOf(s) + 6 * k, DayOfMonth(s))
               case Annual => Clamp(MonthOf(s) + 12 * k, DayOfMonth(s))
               case _ => Clamp(MonthOf(s) + k, DayOfMonth(s))
  {
    hide Clamp, MonthOf, DayOfMonth, AnchoredNext;
    AnchoredPoint(1, DayOfMonth(s), s, k);
    AnchoredPoint(3, DayOfMonth(s), s, k);
    AnchoredPoint(6, DayOfMonth(s), s, k);
    AnchoredPoint(12, DayOfMonth(s), s, k);
  }

  // ---------- The electricity lists ----------

  // Monthly bills start every month on the lease's own day and are due then; bimonthly bills start with
  // each Jan-Feb, ..., Nov-Dec window and are due on the lease's own day of the month they start in.
  lemma ElectricityStarts(s: Day, e: Day, k: nat)
    requires s <= e
    ensures var r := ElectricitySchedule(s, e, Monthly);
            && r.Success?
            && (1 <= k ==> (k < |r.value| <==> Clamp(MonthOf(s) + k, DayOfMonth(s)) <= e))
            && (k < |r.value| ==> r.value[k].first == r.value[k].due == Clamp(MonthOf(s) + k, DayOfMonth(s)))
    ensures var r := ElectricitySchedule(s, e, Bimonthly);
            && r.Success? && r.value != [] && r.value[0].first == r.value[0].due == s
            && (1 <= k ==> (k < |r.value| <==> MonthStart(2 * (MonthOf(s) / 2 + k)) <= e))
            && (1 <= k < |r.value| ==>
                  && r.value[k].first == MonthStart(2 * (MonthOf(s) / 2 + k))
                  && r.value[k].due == Clamp(2 * (MonthOf(s) / 2 + k), DayOfMonth(s)))
  {
    hide ElectricitySchedule, Clamp, MonthOf, MonthStart, DayOfMonth;
    MonthlyStarts(s, e, k);
    WindowStarts(s, e, 0);
    WindowStarts(s, e, k);
  }

  lemma OwnDay(s: Day)
    ensures Clamp(MonthOf(s), DayOfMonth(s)) == s
  {
  }

  lemma MonthlyStarts(s: Day, e: Day, k: nat)
    requires s <= e
    ensures var r := ElectricitySchedule(s, e, Monthly);
            && r.Success?
            && (1 <= k ==> (k < |r.value| <==> Clamp(MonthOf(s) + k, DayOfMonth(s)) <= e))
            && (k < |r.value| ==> r.value[k].first == r.value[k].due == Clamp(MonthOf(s) + k, DayOfMonth(s)))
  {
    OwnDay(s);
    hide Clamp, MonthOf, DayOfMonth, AnchoredNext, Cut;
    var g, due := Anchored(1, DayOfMonth(s)), InMonth(DayOfMonth(s));
    AnchoredAdvances(1, DayOfMonth(s));
    AnchoredPoint(1, DayOfMonth(s), s, k);
    CutLength(g, due, s, e, k);
    if k < |Cut(g, due, s, e)| {
      CutPeriod(g, due, s, e, k);
    }
  }

  lemma WindowStarts(s: Day, e: Day, k: nat)
    requires s <= e
    ensures var r, i := ElectricitySchedule(s, e, Bimonthly), 2 * (Window(s) + k);
            && r.Success? && r.value != []
            && (1 <= k ==> (k < |r.value| <==> MonthStart(i) <= e))
            && (k < |r.value| ==>
                  && r.value[k].first == (if k == 0 then s else MonthStart(i))
                  && r.value[k].due == if k == 0 then s else Clamp(i, DayOfMonth(s)))
  {
    hide *;
    OwnDay(s);
    FirstOfMonthIn(2 * (Window(s) + k));
    WindowsAdvance();
    BimonthlyList(s, e);
    var due := InMonth(DayOfMonth(s));
    WindowPoint(s, k);
    PointZero(Windows(), s);
    CutLength(Windows(), due, s, e, k);
    CutLength(Windows(), due, s, e, 0);
    if k < |Cut(Windows(), due, s, e)| {
      CutPeriod(Windows(), due, s, e, k);
      PeriodStart(Cut(Windows(), due, s, e)[k], Windows(), DayOfMonth(s), s, e, k);
    }
  }

  lemma PointZero(g: Grid, s: Day)
    ensures Point(g, s, 0) == s
  {
  }

  lemma PeriodStart(p: BillingPeriod, g: Grid, anchor: int, s: Day, e: Day, k: nat)
    requires IsPeriodOf(p, g, InMonth(anchor), s, e, k)
    ensures p.first == Point(g, s, k) && p.due == Clamp(MonthOf(p.first), anchor)
  {
    hide Clamp, MonthOf;
  }

  lemma BimonthlyList(s: Day, e: Day)
    requires s <= e && Advances(Windows())
    ensures ElectricitySchedule(s, e, Bimonthly) == Success(Cut(Windows(), InMonth(DayOfMonth(s)), s, e))
  {
    hide Cut, WindowNext, DayOfMonth;
  }

  lemma FirstOfMonthIn(i: int)
    ensures MonthOf(MonthStart(i)) == i
  {
    hide MonthOf, MonthStart, MonthLength;
    MonthStartNext(i);
    MonthOfUnique(MonthStart(i), i);
  }

  // Electricity rebuilt from a later day, with the anchor of the lease.
  lemma RebuiltStarts(s: Day, e: Day, anchor: int, k: nat)
    requires s <= e && 1 <= anchor <= 31
    ensures var r := MonthlyScheduleFromAnchor(s, e, anchor);
            && r.Success? && r.value != [] && r.value[0].first == s
            && (1 <= k ==> (k < |r.value| <==> Clamp(MonthOf(s) + k, anchor) <= e))
            && (1 <= k < |r.value| ==> r.value[k].first == Clamp(MonthOf(s) + k, anchor))
            && (k < |r.value| ==> r.value[k].due == Clamp(MonthOf(s) + k, anchor))
  {
    hide Clamp, MonthOf, AnchoredNext, Cut;
    var g, due := Anchored(1, anchor), InMonth(anchor);
    AnchoredAdvances(1, anchor);
    AnchoredPoint(1, anchor, s, k);
    CutLength(g, due, s, e, k);
    CutPeriod(g, due, s, e, 0);
    if k < |Cut(g, due, s, e)| {
      CutPeriod(g, due, s, e, k);
    }
  }

  // ---------- The refusals ----------

  // A date range that ends before it starts is refused first, then the anchor, then the cadence.
  lemma RentRefusals(s: Day, e: Day, cadence: Cadence, anchor: int)
    ensures var r := RentSchedule(s, e, cadence, anchor);
            if s > e then r == Failure(InvalidDateRange)
            else if anchor < 1 || 31 < anchor then r == Failure(InvalidBillingAnchor)
            else if cadence.Bimonthly? || cadence.OtherCadence? then r == Failure(InvalidRentBillingCadence)
            else r.Success?
    ensures var r := MonthlyScheduleFromAnchor(s, e, anchor);
            if s > e then r == Failure(InvalidDateRange)
            else if anchor < 1 || 31 < anchor then r == Failure(InvalidBillingAnchor)
            else r.Success?
    ensures var r := ElectricitySchedule(s, e, cadence);
            if s > e then r == Failure(InvalidDateRange)
            else if cadence.Monthly? || cadence.Bimonthly? then r.Success?
            else r == Failure(InvalidElectricityBillingCadence)
  {
    hide AnchoredNext, WindowNext, Cut;
  }

  // ---------- Names ----------

  // Blanks around a text that neither starts nor ends with one are trimmed, and nothing else is.
  lemma TrimSpaceIsExact(before: string, core: string, after: string)
    requires forall c | c in before + after :: IsSpace(c)
    requires core != "" && !IsSpace(core[0]) && !IsSpace(core[|core| - 1])
    ensures TrimSpace(before + core + after) == core
  {
    hide IsSpace;
    assert forall c :: c in before ==> c in before + after;
    assert forall c :: c in after ==> c in before + after;
    assert before + core + after == before + (core + after);
    BlanksLeft(before, core + after);
    BlanksRight(core, after);
  }

  lemma {:induction false} BlanksLeft(blanks: string, rest: string)
    requires forall c | c in blanks :: IsSpace(c)
    requires rest != "" && !IsSpace(rest[0])
    ensures TrimLeft(blanks + rest) == rest
  {
    hide IsSpace;
    if blanks == "" {
      assert blanks + rest == rest;
    } else {
      assert blanks[0] in blanks;
      ConcatTail(blanks, rest);
      BlanksLeft(blanks[1..], rest);
    }
  }

  lemma {:induction false} BlanksRight(rest: string, blanks: string)
    requires forall c | c in blanks :: IsSpace(c)
    requires rest != "" && !IsSpace(rest[|rest| - 1])
    ensures TrimRight(rest + blanks) == rest
  {
    hide IsSpace;
    if blanks == "" {
      assert rest + blanks == rest;
    } else {
      var n := |blanks| - 1;
      assert blanks[n] in blanks;
      assert (rest + blanks)[..|rest| + n] == rest + blanks[..n];
      BlanksRight(rest, blanks[..n]);
    }
  }

  // A cadence text is read with the blanks around it dropped; a text that names none is kept as it is.
  lemma CadenceNames(before: string, core: string, after: string)
    requires forall c | c in before + after :: IsSpace(c)
    requires core != "" && !IsSpace(core[0]) && !IsSpace(core[|core| - 1])
    ensures var cadence := TrimCadence(OtherCadence(before + core + after));
            && (cadence == Monthly <==> core == "monthly")
            && (cadence == Bimonthly <==> core == "bimonthly")
            && (cadence == Quarterly <==> core == "quarterly")
            && (cadence == Semiannual <==> core == "semiannual")
            && (cadence == Annual <==> core == "annual")
            && (cadence.OtherCadence? ==> cadence.text == core)
  {
    hide TrimSpace, IsSpace;
    TrimSpaceIsExact(before, core, after);
  }
}
