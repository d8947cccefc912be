/**
 internal/application/lease/replace_lease.go: a lease is cut at a billing boundary and a successor
 takes over its tenant, room and deposit from that day on.
 */
module Replacement {
  import opened Basics
  import opened Calendar
  import opened Schedules
  import opened BillingPeriods
  import opened Leases
  import opened BillLists
  import opened LeaseStore
  import opened Books

  // ---------- The boundary test ----------

  // AddDate(2, 0, 0)
  function TwoYearsLater(d: Day): Day {
    MakeDate(Year(d) + 2, MonthNumber(d), DayOfMonth(d))
  }

  function RebuiltFrom(l: Lease, b: Bill): Result<seq<BillingPeriod>, BillingError> {
    var s := b.period.first;
    match b.kind
    case Rent => RentSchedule(s, TwoYearsLater(s), l.rentCadence, DayOfMonth(l.startDate))
    case Electricity =>
      if l.electricityCadence == Monthly
      then MonthlyScheduleFromAnchor(s, TwoYearsLater(s), DayOfMonth(l.startDate))
      else ElectricitySchedule(s, TwoYearsLater(s), l.electricityCadence)
  }

  predicate IsCompleteBoundaryBill(l: Lease, b: Bill) {
    var rebuilt := RebuiltFrom(l, b);
    rebuilt.Success? && rebuilt.value != [] && rebuilt.value[0].last == b.period.last
  }

  // The last bill of a kind that ends the day before decides.
  predicate BoundaryFlag(l: Lease, bills: seq<Bill>, kind: BillKind, effective: Day) {
    if bills == [] then false
    else
      var b := bills[|bills| - 1];
      if b.kind == kind && b.period.last + 1 == effective then IsCompleteBoundaryBill(l, b)
      else BoundaryFlag(l, bills[..|bills| - 1], kind, effective)
  }

  predicate IsBoundary(l: Lease, bills: seq<Bill>, effective: Day) {
    BoundaryFlag(l, bills, Rent, effective) && BoundaryFlag(l, bills, Electricity, effective)
  }

  method RebuildAndCompare(l: Lease, b: Bill) returns (complete: bool)
    ensures complete == IsCompleteBoundaryBill(l, b)
  {
    var rebuilt;
    var s := b.period.first;
    match b.kind {
      case Rent =>
        rebuilt := BuildRentBillingPeriodsFromAnchor(s, TwoYearsLater(s), l.rentCadence, DayOfMonth(l.startDate));
      case Electricity =>
        if l.electricityCadence == Monthly {
          rebuilt := BuildMonthlyBillingPeriodsFromAnchor(s, TwoYearsLater(s), DayOfMonth(l.startDate));
        } else {
          rebuilt := BuildBillingPeriods(s, TwoYearsLater(s), l.electricityCadence);
        }
    }
    if rebuilt.Failure? || |rebuilt.value| == 0 {
      return false;
    }
    return rebuilt.value[0].last == b.period.last;
  }

  method IsReplacementBoundary(l: Lease, bills: seq<Bill>, effective: Day) returns (boundary: bool)
    ensures boundary == IsBoundary(l, bills, effective)
  {
    hide IsCompleteBoundaryBill;
    var hasRentBoundary, hasElectricityBoundary := false, false;
    for i := 0 to |bills|
      invariant hasRentBoundary == BoundaryFlag(l, bills[..i], Rent, effective)
      invariant hasElectricityBoundary == BoundaryFlag(l, bills[..i], Electricity, effective)
    {
      assert bills[..i + 1][..i] == bills[..i];
      if bills[i].period.last + 1 == effective {
        var complete := RebuildAndCompare(l, bills[i]);
        match bills[i].kind {
          case Rent => hasRentBoundary := complete;
          case Electricity => hasElectricityBoundary := complete;
        }
      }
    }
    assert bills[..|bills|] == bills;
    return hasRentBoundary && hasElectricityBoundary;
  }

  // ---------- The boundary test is exact ----------

  lemma HorizonSuffices(s: Day, months: int, anchor: int)
    requires 1 <= months <= 12 && 1 <= anchor
    ensures AnchoredNext(months, anchor, s) <= TwoYearsLater(s)
    ensures WindowNext(s) <= TwoYearsLater(s)
  {
    hide MonthLength, MonthStart, MonthOf;
    MonthStartIncreases(MonthOf(s) + months + 1, MonthOf(s) + 24);
    MonthStartIncreases(2 * Window(s) + 2, MonthOf(s) + 24);
    MonthStartNext(MonthOf(s) + months);
  }

  ghost predicate IsLaterPoint(g: Grid, s: Day, d: Day) {
    exists k: nat :: k >= 1 && Point(g, s, k) == d
  }

  function GridOf(l: Lease, kind: BillKind): Grid {
    match kind
    case Rent => RentGrid(l.rentCadence, DayOfMonth(l.startDate))
    case Electricity => ElectricityGrid(l.electricityCadence, DayOfMonth(l.startDate))
  }

  // A bill counts as complete exactly when it runs up to the next grid point.
  lemma CompleteMeansFull(l: Lease, b: Bill)
    requires WellFormed(l)
    ensures IsCompleteBoundaryBill(l, b) <==> b.period.last + 1 == GridOf(l, b.kind)(b.period.first)
  {
    var s, anchor := b.period.first, DayOfMonth(l.startDate);
    GridsAdvance(l.rentCadence, l.electricityCadence, anchor);
    HorizonSuffices(s, RentCadenceMonths(l.rentCadence), anchor);
    HorizonSuffices(s, 1, anchor);
    assert GridOf(l, b.kind)(s) <= TwoYearsLater(s);
    hide AnchoredNext, WindowNext, TwoYearsLater;
    var g := GridOf(l, b.kind);
    assert Point(g, s, 1) == g(Point(g, s, 0));
    match b.kind
    case Rent =>
      CutPeriod(g, AtStart(), s, TwoYearsLater(s), 0);
    case Electricity =>
      var due := if l.electricityCadence == Monthly then InMonth(anchor) else InMonth(DayOfMonth(s));
      CutPeriod(g, due, s, TwoYearsLater(s), 0);
  }

  predicate EndsAt(b: Bill, kind: BillKind, effective: Day) {
    b.kind == kind && b.period.last + 1 == effective
  }

  // When the bills of a kind that end the day before agree, the flag is their common answer.
  lemma {:induction false} FlagOfAgreeingBills(l: Lease, bills: seq<Bill>, kind: BillKind, effective: Day,
                                               complete: bool)
    requires forall b | b in bills && EndsAt(b, kind, effective) :: IsCompleteBoundaryBill(l, b) == complete
    ensures BoundaryFlag(l, bills, kind, effective)
            <==> complete && exists b | b in bills :: EndsAt(b, kind, effective)
  {
    hide IsCompleteBoundaryBill;
    if bills != [] {
      var n := |bills| - 1;
      assert bills == bills[..n] + [bills[n]];
      FlagOfAgreeingBills(l, bills[..n], kind, effective, complete);
      if EndsAt(bills[n], kind, effective) {
        assert bills[n] in bills;
      }
    }
  }

  // The bills of a kind carry exactly the periods of a schedule.
  ghost predicate CarrySchedule(bills: seq<Bill>, kind: BillKind, periods: seq<BillingPeriod>) {
    && (forall b | b in bills && b.kind == kind :: b.period in periods)
    && (forall p | p in periods :: exists b | b in bills :: b.kind == kind && b.period == p)
  }

  // A scheduled period ends the day before a point exactly when it is the full period before it.
  lemma PeriodEndingAt(g: Grid, due: Day -> Day, s: Day, e: Day, j: nat, effective: Day)
    requires Advances(g)
    requires j < |Cut(g, due, s, e)| && Cut(g, due, s, e)[j].last + 1 == effective
    ensures effective == g(Cut(g, due, s, e)[j].first) <==> IsLaterPoint(g, s, effective)
    ensures effective <= e + 1
  {
    var p := Cut(g, due, s, e)[j];
    CutPeriod(g, due, s, e, j);
    assert Point(g, s, j + 1) == g(Point(g, s, j));
    if IsLaterPoint(g, s, effective) {
      var k: nat :| k >= 1 && Point(g, s, k) == effective;
      if k <= j {
        PointsIncrease(g, s, k, j);
        CutLength(g, due, s, e, j);
        assert false;
      }
      PointsIncrease(g, s, j + 1, k);
    }
  }

  lemma BillEndingAt(l: Lease, b: Bill, due: Day -> Day, effective: Day)
    requires WellFormed(l)
    requires Advances(GridOf(l, b.kind))
    requires b.period in Cut(GridOf(l, b.kind), due, l.startDate, l.endDate)
    requires b.period.last + 1 == effective
    ensures IsCompleteBoundaryBill(l, b) <==> IsLaterPoint(GridOf(l, b.kind), l.startDate, effective)
    ensures effective <= l.endDate + 1
  {
    var g := GridOf(l, b.kind);
    var periods := Cut(g, due, l.startDate, l.endDate);
    CompleteMeansFull(l, b);
    hide IsCompleteBoundaryBill, GridOf, IsLaterPoint;
    var j :| 0 <= j < |periods| && periods[j] == b.period;
    PeriodEndingAt(g, due, l.startDate, l.endDate, j, effective);
  }

  lemma SomeBillEndsAt(bills: seq<Bill>, kind: BillKind, g: Grid, due: Day -> Day, s: Day, e: Day, effective: Day)
    requires Advances(g)
    requires CarrySchedule(bills, kind, Cut(g, due, s, e))
    requires IsLaterPoint(g, s, effective) && effective <= e + 1
    ensures exists b | b in bills :: EndsAt(b, kind, effective)
  {
    var periods := Cut(g, due, s, e);
    var k: nat :| k >= 1 && Point(g, s, k) == effective;
    PointsIncrease(g, s, k - 1, k);
    CutLength(g, due, s, e, k - 1);
    CutPeriod(g, due, s, e, k - 1);
    assert periods[k - 1] in periods;
    var b :| b in bills && b.kind == kind && b.period == periods[k - 1];
    assert EndsAt(b, kind, effective);
  }

  lemma FlagIsExact(l: Lease, bills: seq<Bill>, kind: BillKind, due: Day -> Day, effective: Day)
    requires WellFormed(l)
    requires Advances(GridOf(l, kind))
    requires CarrySchedule(bills, kind, Cut(GridOf(l, kind), due, l.startDate, l.endDate))
    ensures BoundaryFlag(l, bills, kind, effective)
            <==> IsLaterPoint(GridOf(l, kind), l.startDate, effective) && effective <= l.endDate + 1
  {
    hide IsCompleteBoundaryBill, GridOf, WellFormed, IsLaterPoint, BoundaryFlag, Cut;
    forall b | b in bills && EndsAt(b, kind, effective)
      ensures IsCompleteBoundaryBill(l, b) == IsLaterPoint(GridOf(l, kind), l.startDate, effective)
      ensures effective <= l.endDate + 1
    {
      BillEndingAt(l, b, due, effective);
    }
    FlagOfAgreeingBills(l, bills, kind, effective, IsLaterPoint(GridOf(l, kind), l.startDate, effective));
    if IsLaterPoint(GridOf(l, kind), l.startDate, effective) && effective <= l.endDate + 1 {
      SomeBillEndsAt(bills, kind, GridOf(l, kind), due, l.startDate, l.endDate, effective);
    }
  }

  // ---------- The bills of a kept book carry the schedules ----------

  lemma {:induction false} LiveRentHasBill(bills: seq<Bill>, line: RentLine)
    requires line in LiveRent(bills)
    ensures exists b | b in bills :: IsLiveRent(b) && b.period == line.period && b.amount == line.amount
  {
    if line in LineOf(bills[0]) {
      assert bills[0] in bills;
    } else {
      LiveRentHasBill(bills[1..], line);
    }
  }

  lemma {:induction false} ElectricityHasBill(bills: seq<Bill>, p: BillingPeriod)
    ensures p in ElectricityPeriods(bills) <==> exists b | b in bills :: b.kind == Electricity && b.period == p
  {
    if bills != [] {
      ElectricityHasBill(bills[1..], p);
      assert bills == [bills[0]] + bills[1..];
    }
  }

  lemma BookCarriesSchedules(a: Account, original: int, changes: seq<RentChange>)
    requires InBook(a, original, changes)
    ensures CarrySchedule(a.bills, Rent, RentPeriods(a.lease))
    ensures CarrySchedule(a.bills, Electricity, ElectricitySpans(a.lease))
  {
    var rent, electricity := RentPeriods(a.lease), ElectricitySpans(a.lease);
    hide RentPeriods, ElectricitySpans, WellFormed;
    var lines := LiveRent(a.bills);
    forall p | p in rent
      ensures exists b | b in a.bills :: b.kind == Rent && b.period == p
    {
      var i :| 0 <= i < |rent| && rent[i] == p;
      assert lines[i] in lines && lines[i].period == p;
      LiveRentHasBill(a.bills, lines[i]);
    }
    forall p {
      ElectricityHasBill(a.bills, p);
    }
  }

  lemma SameBillsCarry(bills: seq<Bill>, listed: seq<Bill>, kind: BillKind, periods: seq<BillingPeriod>)
    requires CarrySchedule(bills, kind, periods)
    requires forall b :: b in listed <==> b in bills
    ensures CarrySchedule(listed, kind, periods)
  {
    forall p | p in periods
      ensures exists b | b in listed :: b.kind == kind && b.period == p
    {
      var b :| b in bills && b.kind == kind && b.period == p;
    }
  }

  // On the bills of a kept book, in whatever order they are listed, the boundary test accepts exactly the
  // days that are later points of both unbounded schedules and at most the day after the lease ends.
  lemma BoundaryIsExact(a: Account, original: int, changes: seq<RentChange>, listed: seq<Bill>, effective: Day)
    requires InBook(a, original, changes)
    requires forall b :: b in listed <==> b in a.bills
    ensures IsBoundary(a.lease, listed, effective)
            <==> && IsLaterPoint(GridOf(a.lease, Rent), a.lease.startDate, effective)
                 && IsLaterPoint(GridOf(a.lease, Electricity), a.lease.startDate, effective)
                 && effective <= a.lease.endDate + 1
  {
    var l := a.lease;
    BookCarriesSchedules(a, original, changes);
    SameBillsCarry(a.bills, listed, Rent, RentPeriods(l));
    SameBillsCarry(a.bills, listed, Electricity, ElectricitySpans(l));
    GridsAdvance(l.rentCadence, l.electricityCadence, DayOfMonth(l.startDate));
    assert RentPeriods(l) == Cut(GridOf(l, Rent), AtStart(), l.startDate, l.endDate);
    assert ElectricitySpans(l) == Cut(GridOf(l, Electricity), InMonth(DayOfMonth(l.startDate)), l.startDate, l.endDate);
    assert WellFormed(l);
    hide InBook, CarrySchedule, RentPeriods, ElectricitySpans, GridOf, WellFormed, BoundaryFlag;
    FlagIsExact(l, listed, Rent, AtStart(), effective);
    FlagIsExact(l, listed, Electricity, InMonth(DayOfMonth(l.startDate)), effective);
  }

  // ---------- The command ----------

  // Everything that ends before the boundary must be paid; voided bills count as not paid.
  function IsUnsettled(effective: Day): Bill -> bool {
    (b: Bill) => b.period.last < effective && b.status != Paid
  }

  method UnsettledBeforeBoundary(bills: seq<Bill>, effective: Day) returns (ids: seq<nat>)
    ensures ids == Positions(bills, IsUnsettled(effective))
  {
    ids := [];
    for i := 0 to |bills|
      invariant ids == Positions(bills[..i], IsUnsettled(effective))
    {
      assert bills[..i + 1][..i] == bills[..i];
      if bills[i].period.last < effective && bills[i].status != Paid {
        ids := ids + [i];
      }
    }
    assert bills[..|bills|] == bills;
  }

  datatype ReplaceInput = ReplaceInput(
    lease: nat,
    effectiveStart: Day,
    carryDepositOver: bool,
    reason: string,
    newEndDate: Day,
    newRentAmount: int,
    newRentCadence: Cadence,
    newElectricityCadence: Cadence)

  // The successor's meter starts at zero: no starting reading is passed on.
  function SuccessorOf(l: Lease, input: ReplaceInput): Lease {
    Lease(l.tenant, l.room, l.property, input.newRentAmount, input.effectiveStart, input.newEndDate,
          TrimCadence(input.newRentCadence), TrimCadence(input.newElectricityCadence), Some(0), Active, l.depositAmount,
          None, None, DepositHeld, None, None, 1)
  }

  predicate IsReplacementReason(reason: string) {
    reason == "cadence_change" || reason == "renewal" || reason == "contract_reissue" || reason == "other_exception"
  }

  function NamedIf(changed: bool, field: string): seq<string> {
    if changed then [field] else []
  }

  // The terms in which the successor differs.
  function ChangedFields(old': Lease, new': Lease): seq<string> {
    NamedIf(old'.rentAmount != new'.rentAmount, "rent_amount")
    + NamedIf(old'.endDate != new'.endDate, "end_date")
    + NamedIf(old'.electricityCadence != new'.electricityCadence, "electricity_billing_cadence")
    + NamedIf(old'.rentCadence != new'.rentCadence, "rent_billing_cadence")
  }

  method ReplacementChangedFields(oldLease: Lease, newLease: Lease) returns (fields: seq<string>)
    ensures fields == ChangedFields(oldLease, newLease)
  {
    fields := [];
    if oldLease.rentAmount != newLease.rentAmount {
      fields := fields + ["rent_amount"];
    }
    if oldLease.endDate != newLease.endDate {
      fields := fields + ["end_date"];
    }
    if oldLease.electricityCadence != newLease.electricityCadence {
      fields := fields + ["electricity_billing_cadence"];
    }
    if oldLease.rentCadence != newLease.rentCadence {
      fields := fields + ["rent_billing_cadence"];
    }
  }

  lemma SuccessorIsNormalized(l: Lease, input: ReplaceInput)
    requires TrimCadence(input.newRentCadence) != OtherCadence("")
    ensures NormalizeState(SuccessorOf(l, input)).Success? <==> WellFormed(SuccessorOf(l, input))
    ensures WellFormed(SuccessorOf(l, input)) ==>
            NormalizeState(SuccessorOf(l, input)) == Success(SuccessorOf(l, input))
  {
    hide TrimCadence;
    TrimCadenceIdempotent(input.newRentCadence);
    TrimCadenceIdempotent(input.newElectricityCadence);
  }

  function ReplaceLeaseOutcome(s: Store, input: ReplaceInput): Result<Outcome, LeaseError> {
    var effective := input.effectiveStart;
    if !input.carryDepositOver then Failure(UnsupportedDepositHandling)
    else if !IsReplacementReason(TrimSpace(input.reason)) then Failure(ReplacementReasonInvalid)
    else if TrimCadence(input.newRentCadence) == OtherCadence("") then Failure(RentCadenceRequired)
    else if input.lease >= |s.accounts| then Failure(LeaseNotFound)
    else
      var current, bills := s.accounts[input.lease].lease, s.accounts[input.lease].bills;
      var successor := SuccessorOf(current, input);
      if current.status != Active then Failure(LeaseNotActive)
      else if current.depositStatus != DepositHeld then Failure(UnsupportedDepositHandling)
      else if current.tenant !in s.tenants then Failure(TenantNotFound)
      else if current.room !in s.rooms then Failure(RoomNotFound)
      else if s.rooms[current.room].property != current.property then Failure(ScopeMismatch)
      else if !IsBoundary(current, bills, effective) then Failure(NotAtBillingBoundary)
      else if Positions(bills, IsUnsettled(effective)) != []
          then Failure(UnsettledBills(Positions(bills, IsUnsettled(effective))))
      else if NormalizeState(successor).Failure? then Failure(NormalizeState(successor).error)
      else if effective - 1 < current.startDate then Failure(NotAtBillingBoundary)
      else
        NormalizedIsWellFormed(successor);
        var terminated := current.(status := Terminated, endDate := effective - 1, version := current.version + 1,
                                   terminationReason := Some("lease replacement: " + TrimSpace(input.reason)));
        var accounts := s.accounts[input.lease := Account(terminated, VoidPendingFrom(bills, effective))];
        var state := NormalizeState(successor).value;
        Success(Outcome(s.(accounts := accounts + [NewAccount(state)]),
                        [LeaseTerminated(input.lease, current.room, current.tenant),
                         LeaseCreated(|s.accounts|, current.room, current.tenant),
                         LeaseReplaced(input.lease, |s.accounts|, TrimSpace(input.reason),
                             ChangedFields(current, state))]))
  }

  method ReplaceLease(db: LeaseDb, input: ReplaceInput) returns (r: Result<nat, LeaseError>)
    modifies db
    ensures var outcome := ReplaceLeaseOutcome(old(db.Contents()), input);
            && (r.Success? <==> outcome.Success?)
            && (r.Success? ==>
                  r.value == |old(db.accounts)|
                      && db.Contents() == Delivered(outcome.value.store, outcome.value.events))
            && (r.Failure? ==> outcome == Failure(r.error) && db.Contents() == old(db.Contents()))
  {
    hide IsBoundary, Delivered, VoidPendingFrom, Positions, RentSchedule, ElectricitySchedule, RentSeeds,
         ElectricitySeeds, TrimSpace, TrimCadence, IsReplacementReason, ChangedFields, NormalizeState, WellFormed;
    if !input.carryDepositOver {
      return Failure(UnsupportedDepositHandling);
    }
    var reason := TrimSpace(input.reason);
    if !IsReplacementReason(reason) {
      return Failure(ReplacementReasonInvalid);
    }
    if TrimCadence(input.newRentCadence) == OtherCadence("") {
      return Failure(RentCadenceRequired);
    }
    if input.lease >= |db.accounts| {
      return Failure(LeaseNotFound);
    }
    var current := db.accounts[input.lease].lease;
    var effective := input.effectiveStart;
    if current.status != Active {
      return Failure(LeaseNotActive);
    }
    if current.depositStatus != DepositHeld {
      return Failure(UnsupportedDepositHandling);
    }
    if current.tenant !in db.tenants {
      return Failure(TenantNotFound);
    }
    if current.room !in db.rooms {
      return Failure(RoomNotFound);
    }
    if db.rooms[current.room].property != current.property {
      return Failure(ScopeMismatch);
    }
    var bills := db.accounts[input.lease].bills;
    var boundary := IsReplacementBoundary(current, bills, effective);
    if !boundary {
      return Failure(NotAtBillingBoundary);
    }
    var unsettled := UnsettledBeforeBoundary(bills, effective);
    if |unsettled| > 0 {
      return Failure(UnsettledBills(unsettled));
    }
    var created := LeaseAggregate.New(SuccessorOf(current, input));
    if created.Failure? {
      return Failure(created.error);
    }
    var state := created.value.state;
    NormalizedIsWellFormed(SuccessorOf(current, input));
    var oldEndDate := effective - 1;
    if oldEndDate < current.startDate {
      return Failure(NotAtBillingBoundary);
    }
    db.SetLease(input.lease, current.(status := Terminated, endDate := oldEndDate, version := current.version + 1,
                                      terminationReason := Some("lease replacement: " + reason)));
    db.VoidBillsOverlappingOrAfter(input.lease, effective);
    var successor := db.CreateLease(state);
    var rentPeriods := BuildRentBillingPeriods(state.startDate, state.endDate, state.rentCadence);
    var electricityPeriods := BuildBillingPeriods(state.startDate, state.endDate, state.electricityCadence);
    SchedulesSucceed(state);
    var seeds := BuildBillSeeds(state.rentAmount, rentPeriods.value, electricityPeriods.value);
    db.CreateBills(successor, seeds);
    assert db.accounts[successor] == NewAccount(state);
    assert db.accounts == ReplaceLeaseOutcome(old(db.Contents()), input).value.store.accounts;
    var changedFields := ReplacementChangedFields(current, db.accounts[successor].lease);
    db.Publish([LeaseTerminated(input.lease, current.room, current.tenant),
                LeaseCreated(successor, current.room, current.tenant),
                LeaseReplaced(input.lease, successor, reason, changedFields)]);
    return Success(successor);
  }
}
