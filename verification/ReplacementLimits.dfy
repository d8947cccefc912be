/**
 Where a replacement falls short of what its rules ask for, each on accounts that runs reach: voided bills
 block it, settled bills of the later schedule stay live beside it, and its successor's meter starts anew.
 */
module ReplacementLimits {
  import opened Basics
  import opened Calendar
  import opened Schedules
  import opened BillingPeriods
  import opened Leases
  import opened Billing
  import opened BillLists
  import opened LeaseStore
  import opened RentUpdates
  import opened Books
  import opened Settling
  import opened Replacement
  import opened ReplacementTheorems

  // ---------- Voided bills block a replacement ----------

  // With every bill before the boundary that is not voided paid, and all else in order, a replacement
  // succeeds if and only if no voided bill ends before the boundary.
  lemma VoidedBillsBlock(s: Store, input: ReplaceInput, original: int, changes: seq<RentChange>)
    requires input.lease < |s.accounts|
    requires InBook(s.accounts[input.lease], original, changes)
    requires OtherwiseAcceptable(s, input)
    requires forall b | b in s.accounts[input.lease].bills && b.status != Voided
             && b.period.last < input.effectiveStart ::
               b.status == Paid
    ensures var bills, r := s.accounts[input.lease].bills, ReplaceLeaseOutcome(s, input);
            && (r.Success? <==> forall b | b in bills && b.status == Voided :: b.period.last >= input.effectiveStart)
            && (r.Failure? ==>
                  && r.error.UnsettledBills?
                  && forall i | i in r.error.bills :: i < |bills| && bills[i].status == Voided)
  {
    var bills, day := s.accounts[input.lease].bills, input.effectiveStart;
    ReplacementIsAccepted(s, input, original, changes);
    hide InBook, OtherwiseAcceptable, ReplaceLeaseOutcome, Positions;
    forall i: nat
      ensures i in Positions(bills, IsUnsettled(day)) ==> i < |bills| && bills[i].status == Voided
    {
      PositionsSelect(bills, IsUnsettled(day), i);
    }
  }

  lemma UpdateVoidsFrom(a: Account, rentAmount: int, operationDate: Day, p: BillingPeriod)
    requires WellFormed(a.lease)
    requires UpdatedRent(a, rentAmount, operationDate).Success?
             && UpdatedRent(a, rentAmount, operationDate).value.Changed?
    requires p in RentPeriods(a.lease) && p.due >= UpdatedRent(a, rentAmount, operationDate).value.from
    ensures var update := UpdatedRent(a, rentAmount, operationDate).value;
            !HasLockedRent(a.bills, update.from) && VoidRentFrom(a.bills, update.from) <= update.account.bills
  {
    var l := a.lease;
    NormalizedWellFormed(l);
    var k := RentResumes(l, operationDate);
    hide RentPeriods, HasLockedRent, VoidRentFrom;
    assert UpdatedRent(a, rentAmount, operationDate).value.from ==
           FirstPointAfter(PaymentGrid(l.startDate, l.rentCadence), l.startDate, operationDate);
  }

  lemma VoidedByUpdate(a: Account, original: int, changes: seq<RentChange>, rentAmount: int, operationDate: Day,
                       p: BillingPeriod)
    returns (i: nat)
    requires InBook(a, original, changes)
    requires UpdatedRent(a, rentAmount, operationDate).Success?
             && UpdatedRent(a, rentAmount, operationDate).value.Changed?
    requires p in RentPeriods(a.lease) && p.due >= UpdatedRent(a, rentAmount, operationDate).value.from
    ensures var bills := UpdatedRent(a, rentAmount, operationDate).value.account.bills;
            i < |bills| && bills[i].period == p && bills[i].status == Voided
  {
    var from := UpdatedRent(a, rentAmount, operationDate).value.from;
    BookCarriesSchedules(a, original, changes);
    UpdateVoidsFrom(a, rentAmount, operationDate, p);
    hide UpdatedRent, RentPeriods, ElectricitySpans, WellFormed, InBook;
    var b :| b in a.bills && b.kind == Rent && b.period == p;
    i :| 0 <= i < |a.bills| && a.bills[i] == b;
    assert !IsLockedRent(b, from);
    assert VoidRentFrom(a.bills, from)[i] == VoidIfRentDue(from)(b);
  }

  // Once a rent change has voided a bill, every otherwise acceptable replacement past that bill is refused
  // on it, after whatever run follows the change.
  lemma RentChangeBlocksReplacement(s: Store, input: ReplaceInput, a: Account, original: int, changes: seq<RentChange>,
                                    rentAmount: int, operationDate: Day, p: BillingPeriod, steps: seq<AccountStep>)
    returns (i: nat)
    requires InBook(a, original, changes)
    requires UpdatedRent(a, rentAmount, operationDate).Success?
             && UpdatedRent(a, rentAmount, operationDate).value.Changed?
    requires p in RentPeriods(a.lease) && p.due >= UpdatedRent(a, rentAmount, operationDate).value.from
    requires p.last < input.effectiveStart
    requires input.lease < |s.accounts|
    requires s.accounts[input.lease]
             == Run(Progress(a, changes), [UpdateRent(rentAmount, operationDate)] + steps).account
    ensures WellFormed(s.accounts[input.lease].lease)
    ensures var bills, r := s.accounts[input.lease].bills, ReplaceLeaseOutcome(s, input);
            && i < |bills| && bills[i].status == Voided && bills[i].period == p
            && r.Failure?
            && (OtherwiseAcceptable(s, input) ==> r.error.UnsettledBills? && i in r.error.bills)
  {
    var update := UpdatedRent(a, rentAmount, operationDate).value;
    i := VoidedByUpdate(a, original, changes, rentAmount, operationDate, p);
    FirstStep(a, changes, rentAmount, operationDate, steps);
    RunKeepsBook(Progress(a, changes), [UpdateRent(rentAmount, operationDate)] + steps, original);
    var later := changes + [RentChange(update.from, rentAmount)];
    VoidedStaysOnRuns(Progress(update.account, later), steps, i);
    BookIsWellFormed(s.accounts[input.lease], original,
        Run(Progress(a, changes), [UpdateRent(rentAmount, operationDate)] + steps).changes);
    hide *;
    VoidedBillBlocks(s, input, original,
        Run(Progress(a, changes), [UpdateRent(rentAmount, operationDate)] + steps).changes, i);
  }

  lemma BookIsWellFormed(a: Account, original: int, changes: seq<RentChange>)
    requires InBook(a, original, changes)
    ensures WellFormed(a.lease)
  {
  }

  lemma FirstStep(a: Account, changes: seq<RentChange>, rentAmount: int, operationDate: Day, steps: seq<AccountStep>)
    requires UpdatedRent(a, rentAmount, operationDate).Success?
             && UpdatedRent(a, rentAmount, operationDate).value.Changed?
    ensures var update := UpdatedRent(a, rentAmount, operationDate).value;
            Run(Progress(a, changes), [UpdateRent(rentAmount, operationDate)] + steps)
            == Run(Progress(update.account, changes + [RentChange(update.from, rentAmount)]), steps)
  {
    hide UpdatedRent;
    assert ([UpdateRent(rentAmount, operationDate)] + steps)[1..] == steps;
  }

  lemma VoidedBillBlocks(s: Store, input: ReplaceInput, original: int, changes: seq<RentChange>, i: nat)
    requires input.lease < |s.accounts|
    requires InBook(s.accounts[input.lease], original, changes) && WellFormed(s.accounts[input.lease].lease)
    requires i < |s.accounts[input.lease].bills|
    requires s.accounts[input.lease].bills[i].status == Voided
    requires s.accounts[input.lease].bills[i].period.last < input.effectiveStart
    ensures ReplaceLeaseOutcome(s, input).Failure?
    ensures OtherwiseAcceptable(s, input) ==>
              ReplaceLeaseOutcome(s, input).error.UnsettledBills? && i in ReplaceLeaseOutcome(s, input).error.bills
  {
    var bills, day := s.accounts[input.lease].bills, input.effectiveStart;
    hide InBook, OtherwiseAcceptable, ReplaceLeaseOutcome, Positions, WellFormed;
    ReplacementIsAccepted(s, input, original, changes);
    PositionsSelect(bills, IsUnsettled(day), i);
    assert bills[i] in bills;
  }

  // ---------- Accounts that runs reach ----------

  // The bill of a new account, or one that a rent change voided or wrote.
  predicate IsUntouched(b: Bill) {
    && b.meter.None?
    && match b.kind
       case Rent => b.amount.Some? && (b.status == PendingPayment || b.status == Voided)
       case Electricity => b.status == PendingMeter
  }

  lemma UntouchedIsSettleable(a: Account, reading: int)
    requires forall b | b in a.bills :: IsUntouched(b)
    requires 0 <= reading && (a.lease.startingReading.Some? ==> a.lease.startingReading.value <= reading)
    ensures Settleable(a, reading)
  {
  }

  lemma NewBillsAreUntouched(l: Lease)
    requires WellFormed(l)
    ensures forall b | b in NewAccount(l).bills :: IsUntouched(b) && b.status != Voided
  {
    hide RentPeriods, ElectricitySpans, WellFormed;
  }

  // Raising the rent at the lease start voids the bills from the second period on and writes new ones.
  lemma RaisedAtStart(l: Lease, rentAmount: int)
    requires WellFormed(l) && l.status == Active
    requires 0 < rentAmount != l.rentAmount
    ensures var r := UpdatedRent(NewAccount(l), rentAmount, l.startDate);
            && r.Success? && r.value.Changed?
            && r.value.account.lease == l.(rentAmount := rentAmount, version := l.version + 1)
            && (forall b | b in r.value.account.bills :: IsUntouched(b))
            && (|RentPeriods(l)| > 1 ==> RentPeriods(l)[1].due >= r.value.from)
  {
    NewBillsAreUntouched(l);
    NormalizedWellFormed(l);
    var bills := NewAccount(l).bills;
    var next := FirstPointAfter(PaymentGrid(l.startDate, l.rentCadence), l.startDate, l.startDate);
    SecondPeriodIsNext(l);
    hide RentPeriods, ElectricitySpans, PaymentGrid, FirstPointAfter, RentSchedule, WellFormed, NewAccount;
    assert !HasLockedRent(bills, next);
    var r := UpdatedRent(NewAccount(l), rentAmount, l.startDate);
    forall b | b in r.value.account.bills
      ensures IsUntouched(b)
    {
      if b in VoidRentFrom(bills, next) {
        var i :| 0 <= i < |bills| && VoidRentFrom(bills, next)[i] == b;
        assert bills[i] in bills && b == VoidIfRentDue(next)(bills[i]);
      }
    }
  }

  lemma SecondPeriodIsNext(l: Lease)
    requires WellFormed(l)
    ensures |RentPeriods(l)| > 1 ==>
              RentPeriods(l)[1].due == FirstPointAfter(PaymentGrid(l.startDate, l.rentCadence), l.startDate,
                  l.startDate)
    ensures FirstPointAfter(PaymentGrid(l.startDate, l.rentCadence), l.startDate, l.startDate) <= l.endDate ==>
              RentSchedule(FirstPointAfter(PaymentGrid(l.startDate, l.rentCadence), l.startDate, l.startDate),
                  l.endDate,
                           l.rentCadence, DayOfMonth(l.startDate)).Success?
  {
    hide AnchoredNext, DayOfMonth;
    var g := PaymentGrid(l.startDate, l.rentCadence);
    assert FirstPointAfter(g, l.startDate, l.startDate) == FirstPointAfter(g, g(l.startDate), l.startDate)
        == g(l.startDate);
    if |RentPeriods(l)| > 1 {
      CutPeriod(g, AtStart(), l.startDate, l.endDate, 1);
      assert Point(g, l.startDate, 1) == g(Point(g, l.startDate, 0));
    }
  }

  // A different rent changes nothing a replacement asks about the lease.
  lemma SameConditions(s: Store, t: Store, input: ReplaceInput, rentAmount: int, version: nat)
    requires input.lease < |s.accounts| && input.lease < |t.accounts|
    requires t.tenants == s.tenants && t.rooms == s.rooms
    requires WellFormed(s.accounts[input.lease].lease) && rentAmount > 0
    requires t.accounts[input.lease].lease
             == s.accounts[input.lease].lease.(rentAmount := rentAmount, version := version)
    requires OtherwiseAcceptable(s, input)
    ensures WellFormed(t.accounts[input.lease].lease) && OtherwiseAcceptable(t, input)
  {
    hide IsLaterPoint, TrimSpace, TrimCadence;
  }

  // ---------- A run after which every bill is paid or voided, and the replacement is refused ----------

  lemma SettledAfterRaise(l: Lease, rentAmount: int, reading: int, unitPrice: real) returns (steps: seq<AccountStep>)
    requires WellFormed(l) && l.status == Active
    requires 0 < rentAmount != l.rentAmount
    requires 0 <= reading && (l.startingReading.Some? ==> l.startingReading.value <= reading)
    ensures var a := Run(Progress(NewAccount(l), []), [UpdateRent(rentAmount, l.startDate)] + steps).account;
            && a.lease == l.(rentAmount := rentAmount, version := l.version + 1)
            && forall b | b in a.bills :: b.status == Paid || b.status == Voided
  {
    hide *;
    RaisedAtStart(l, rentAmount);
    var update := UpdatedRent(NewAccount(l), rentAmount, l.startDate).value;
    UntouchedIsSettleable(update.account, reading);
    steps := SettleAll(update.account, reading, unitPrice, [RentChange(update.from, rentAmount)]);
    FirstStep(NewAccount(l), [], rentAmount, l.startDate, steps);
    assert [] + [RentChange(update.from, rentAmount)] == [RentChange(update.from, rentAmount)];
    var a := Run(Progress(NewAccount(l), []), [UpdateRent(rentAmount, l.startDate)] + steps).account;
    UntouchedIsPaid(update.account, a, reading);
  }

  lemma UntouchedIsPaid(was: Account, a: Account, reading: int)
    requires SettledTo(was, a, |was.bills|, reading)
    requires forall b | b in was.bills :: IsUntouched(b)
    ensures a.lease == was.lease
    ensures forall b | b in a.bills :: b.status == Paid || b.status == Voided
  {
    forall b | b in a.bills
      ensures b.status == Paid || b.status == Voided
    {
      var i :| 0 <= i < |a.bills| && a.bills[i] == b;
      assert was.bills[i] in was.bills;
    }
  }

  // On every lease of two rent periods or more: raise the rent at its start and settle every bill. At any
  // common point after the second period, a replacement that is otherwise acceptable is still refused.
  lemma SettledLeaseIsRefused(s: Store, input: ReplaceInput, l: Lease, rentAmount: int, reading: int, unitPrice: real)
    returns (steps: seq<AccountStep>)
    requires WellFormed(l) && l.status == Active
    requires 0 < rentAmount != l.rentAmount
    requires 0 <= reading && (l.startingReading.Some? ==> l.startingReading.value <= reading)
    requires input.lease < |s.accounts| && s.accounts[input.lease] == NewAccount(l)
    requires OtherwiseAcceptable(s, input)
    requires |RentPeriods(l)| > 1 && RentPeriods(l)[1].last < input.effectiveStart
    ensures var a := Run(Progress(NewAccount(l), []), [UpdateRent(rentAmount, l.startDate)] + steps).account;
            var t := s.(accounts := s.accounts[input.lease := a]);
            && (forall b | b in a.bills :: b.status == Paid || b.status == Voided)
            && WellFormed(a.lease) && OtherwiseAcceptable(t, input)
            && ReplaceLeaseOutcome(t, input).Failure?
            && ReplaceLeaseOutcome(t, input).error.UnsettledBills?
  {
    hide *;
    NewAccountInBook(l);
    RaisedAtStart(l, rentAmount);
    steps := SettledAfterRaise(l, rentAmount, reading, unitPrice);
    var a := Run(Progress(NewAccount(l), []), [UpdateRent(rentAmount, l.startDate)] + steps).account;
    var t := s.(accounts := s.accounts[input.lease := a]);
    NewLease(l);
    SameConditions(s, t, input, rentAmount, l.version + 1);
    var p := RentPeriods(l)[1];
    var i := RentChangeBlocksReplacement(t, input, NewAccount(l), l.rentAmount, [], rentAmount, l.startDate, p, steps);
  }

  lemma NewLease(l: Lease)
    requires WellFormed(l)
    ensures NewAccount(l).lease == l && l.rentAmount > 0
  {
  }

  // ---------- A run after which every bill is paid ----------

  // Every lease can be paid up in advance, with all its meters at one reading.
  lemma PaidUp(l: Lease, reading: int, unitPrice: real) returns (steps: seq<AccountStep>)
    requires WellFormed(l)
    requires 0 <= reading && (l.startingReading.Some? ==> l.startingReading.value <= reading)
    ensures var a := Run(Progress(NewAccount(l), []), steps).account;
            && a.lease == l
            && InBook(a, l.rentAmount, [])
            && forall b | b in a.bills ::
                 && b.status == Paid
                 && (b.kind == Electricity ==> b.meter.Some? && b.meter.value.current == reading)
                 && (b.kind == Rent ==> b.meter.None?)
  {
    var new' := NewAccount(l);
    NewAccountInBook(l);
    NewBillsAreUntouched(l);
    hide InBook, WellFormed, NewAccount, Settleable;
    UntouchedIsSettleable(new', reading);
    steps := SettleAll(new', reading, unitPrice, []);
    RunKeepsBook(Progress(new', []), steps, l.rentAmount);
    var a := Run(Progress(new', []), steps).account;
    hide Run;
    forall b | b in a.bills
      ensures && b.status == Paid
              && (b.kind == Electricity ==> b.meter.Some? && b.meter.value.current == reading)
              && (b.kind == Rent ==> b.meter.None?)
    {
      var i :| 0 <= i < |a.bills| && a.bills[i] == b;
      assert new'.bills[i] in new'.bills;
    }
  }

  lemma PeriodsEndWith(ps: seq<BillingPeriod>, from: Day, until: Day)
    requires Tiles(ps, from, until) && ps != []
    ensures ps[|ps| - 1].last == until - 1
    decreases |ps|
  {
    if |ps| > 1 {
      PeriodsEndWith(ps[1..], ps[0].last + 1, until);
    }
  }

  // Some bill of each kind runs to the end of the lease.
  lemma LastBill(a: Account, original: int, changes: seq<RentChange>, kind: BillKind)
    requires InBook(a, original, changes)
    ensures exists b | b in a.bills :: b.kind == kind && b.period.last == a.lease.endDate
  {
    hide *;
    BookIsWellFormed(a, original, changes);
    ScheduleTiles(a.lease, kind);
    ScheduleStarts(a.lease, kind);
    PeriodsEndWith(Scheduled(a.lease, kind), a.lease.startDate, a.lease.endDate + 1);
    CarriesScheduled(a, original, changes, kind);
    CarriedPeriod(a.bills, kind, Scheduled(a.lease, kind), |Scheduled(a.lease, kind)| - 1);
  }

  lemma CarriesScheduled(a: Account, original: int, changes: seq<RentChange>, kind: BillKind)
    requires InBook(a, original, changes)
    ensures WellFormed(a.lease) && CarrySchedule(a.bills, kind, Scheduled(a.lease, kind))
  {
    BookCarriesSchedules(a, original, changes);
    hide CarrySchedule, RentPeriods, ElectricitySpans;
  }

  lemma CarriedPeriod(bills: seq<Bill>, kind: BillKind, ps: seq<BillingPeriod>, i: nat)
    requires CarrySchedule(bills, kind, ps) && i < |ps|
    ensures exists b | b in bills :: b.kind == kind && b.period.last == ps[i].last
  {
    assert ps[i] in ps;
    var b :| b in bills && b.kind == kind && b.period == ps[i];
  }

  // On every lease: paid up in advance, it can be replaced at every common point of its schedules, and
  // unless the lease is at its end its paid later bills stay live beside the successor's, of both kinds.
  lemma PaidUpIsReplaceable(s: Store, input: ReplaceInput, l: Lease, reading: int, unitPrice: real)
    returns (steps: seq<AccountStep>)
    requires WellFormed(l)
    requires 0 <= reading && (l.startingReading.Some? ==> l.startingReading.value <= reading)
    requires input.lease < |s.accounts| && s.accounts[input.lease] == NewAccount(l)
    requires OtherwiseAcceptable(s, input)
    ensures var t := s.(accounts := s.accounts[input.lease := Run(Progress(NewAccount(l), []), steps).account]);
            && ReplaceLeaseOutcome(t, input).Success?
            && var after := ReplaceLeaseOutcome(t, input).value.store;
               && |after.accounts| == |s.accounts| + 1
               && WellFormed(after.accounts[|s.accounts|].lease)
               && (input.effectiveStart <= l.endDate ==>
                     forall kind :: !CoversOnce(after.accounts[input.lease].bills, after.accounts[|s.accounts|].lease,
                         kind, l.startDate))
  {
    hide *;
    steps := PaidUp(l, reading, unitPrice);
    var a := Run(Progress(NewAccount(l), []), steps).account;
    var t := s.(accounts := s.accounts[input.lease := a]);
    NewLease(l);
    SameConditions(s, t, input, l.rentAmount, l.version);
    ReplacementIsAccepted(t, input, l.rentAmount, []);
    NowApplies(t, input, l.rentAmount, []);
    ReplacementFacts(t, input, l.rentAmount, []);
    if input.effectiveStart <= l.endDate {
      forall kind
        ensures !CoversOnce(ReplaceLeaseOutcome(t, input).value.store.accounts[input.lease].bills,
                            ReplaceLeaseOutcome(t, input).value.store.accounts[|s.accounts|].lease, kind, l.startDate)
      {
        ReplacementIsExclusive(t, input, l.rentAmount, [], kind);
        LastBill(a, l.rentAmount, [], kind);
        PaidBillIsSettled(a.bills, kind, input.effectiveStart, l.endDate);
      }
    }
  }

  lemma PaidBillIsSettled(bills: seq<Bill>, kind: BillKind, day: Day, end: Day)
    requires exists b | b in bills :: b.kind == kind && b.period.last == end
    requires forall b | b in bills :: b.status == Paid
    requires day <= end
    ensures !NothingSettledFrom(bills, kind, day)
  {
    var b :| b in bills && b.kind == kind && b.period.last == end;
    assert IsSettled(b);
  }

  // ---------- The successor's meter ----------

  // The successor's readings start from zero, whatever the predecessor's meter showed.
  lemma SuccessorMeterRestarts(s: Store, input: ReplaceInput, before: Day)
    requires ReplaceLeaseOutcome(s, input).Success?
    ensures PreviousReading(ReplaceLeaseOutcome(s, input).value.store.accounts[|s.accounts|], before) == 0
  {
    var lease := SuccessorOf(s.accounts[input.lease].lease, input);
    SuccessorIsNormalized(s.accounts[input.lease].lease, input);
    hide IsBoundary, Positions, VoidPendingFrom, TrimCadence, NormalizeState, WellFormed, TrimSpace;
    NoReadingYet(lease, before);
  }

  lemma NoReadingYet(lease: Lease, before: Day)
    requires WellFormed(lease)
    ensures PreviousReading(NewAccount(lease), before) == if lease.startingReading.Some?
            then lease.startingReading.value else 0
  {
    hide RentPeriods, ElectricitySpans, WellFormed;
    var bills := NewAccount(lease).bills;
    forall b | b in bills
      ensures b.meter.None?
    {
    }
    var latest := LatestMetered(bills, before);
    hide LatestMetered;
  }

  lemma {:induction false} FlagHasBill(l: Lease, bills: seq<Bill>, kind: BillKind, day: Day)
    requires BoundaryFlag(l, bills, kind, day)
    ensures exists b | b in bills :: EndsAt(b, kind, day)
  {
    hide IsCompleteBoundaryBill;
    var n := |bills| - 1;
    if EndsAt(bills[n], kind, day) {
      assert bills[n] in bills;
    } else {
      FlagHasBill(l, bills[..n], kind, day);
      var b :| b in bills[..n] && EndsAt(b, kind, day);
      assert b in bills;
    }
  }

  // With every meter at one reading, that is where the lease's readings stand at a boundary.
  lemma ReadingAtBoundary(a: Account, day: Day, reading: int)
    requires IsBoundary(a.lease, a.bills, day)
    requires forall b | b in a.bills && b.kind == Electricity :: b.meter.Some? && b.meter.value.current == reading
    ensures PreviousReading(a, day) == reading
  {
    FlagHasBill(a.lease, a.bills, Electricity, day);
    hide BoundaryFlag, LatestMetered;
    var b :| b in a.bills && EndsAt(b, Electricity, day);
    assert MeteredBefore(b, day);
  }

  lemma FirstReading(l: Lease, i: nat, reading: int, unitPrice: real)
    requires WellFormed(l) && l.startingReading == Some(0) && reading >= 0
    requires i < |NewAccount(l).bills| && NewAccount(l).bills[i].kind == Electricity
    ensures var r := RecordedReading(NewAccount(l), i, reading, Some(unitPrice));
            r.Success? && i < |r.value.bills| && r.value.bills[i].amount == Some(ElectricityAmount(reading, unitPrice))
  {
    NoReadingYet(l, NewAccount(l).bills[i].period.first);
    NewBillsAreUntouched(l);
    assert NewAccount(l).bills[i] in NewAccount(l).bills;
    hide NewAccount, PreviousReading, ElectricityAmount, WellFormed;
  }

  // On every lease: replaced while its meter stands at a reading, the successor's first bill charges that
  // whole reading again, on top of the consumption since.
  lemma SuccessorIsOvercharged(s: Store, input: ReplaceInput, l: Lease, reading: int, unitPrice: real, used: nat,
                               i: nat)
    returns (steps: seq<AccountStep>)
    requires WellFormed(l)
    requires 0 <= reading && (l.startingReading.Some? ==> l.startingReading.value <= reading)
    requires input.lease < |s.accounts| && s.accounts[input.lease] == NewAccount(l)
    requires OtherwiseAcceptable(s, input)
    requires WellFormed(SuccessorOf(l, input)) && i < |NewAccount(SuccessorOf(l, input)).bills|
    requires NewAccount(SuccessorOf(l, input)).bills[i].kind == Electricity
    ensures var a := Run(Progress(NewAccount(l), []), steps).account;
            var t := s.(accounts := s.accounts[input.lease := a]);
            && PreviousReading(a, input.effectiveStart) == reading
            && ReplaceLeaseOutcome(t, input).Success?
            && var accounts := ReplaceLeaseOutcome(t, input).value.store.accounts;
               && |accounts| == |s.accounts| + 1
               && var r := RecordedReading(accounts[|s.accounts|], i, reading + used, Some(unitPrice));
                  && r.Success? && i < |r.value.bills| && r.value.bills[i].amount.Some?
                  && -0.5 <= r.value.bills[i].amount.value as real - Price(used, unitPrice) - Price(reading,
                      unitPrice) <= 0.5
  {
    hide *;
    steps := PaidUp(l, reading, unitPrice);
    var a := Run(Progress(NewAccount(l), []), steps).account;
    var t := s.(accounts := s.accounts[input.lease := a]);
    NewLease(l);
    SameConditions(s, t, input, l.rentAmount, l.version);
    ReplacementIsAccepted(t, input, l.rentAmount, []);
    NowApplies(t, input, l.rentAmount, []);
    ReplacementFacts(t, input, l.rentAmount, []);
    ReadingAtBoundary(a, input.effectiveStart, reading);
    SuccessorStartsAtZero(l, input);
    FirstReading(SuccessorOf(l, input), i, reading + used, unitPrice);
    AmountIsClose(reading + used, unitPrice);
    PriceSplits(unitPrice, 0, reading, reading + used);
  }

  lemma SuccessorStartsAtZero(l: Lease, input: ReplaceInput)
    ensures SuccessorOf(l, input).startingReading == Some(0)
  {
  }

  // ---------- Leases these results speak of ----------

  // On a lease billed monthly for both, the day after its second month is such a common point.
  lemma MonthlyBoundary(l: Lease)
    requires WellFormed(l) && l.rentCadence == Monthly && l.electricityCadence == Monthly
    requires Point(GridOf(l, Rent), l.startDate, 2) <= l.endDate + 1
    ensures var day := Point(GridOf(l, Rent), l.startDate, 2);
            && IsLaterPoint(GridOf(l, Rent), l.startDate, day) && IsLaterPoint(GridOf(l, Electricity), l.startDate, day)
            && |RentPeriods(l)| > 1 && RentPeriods(l)[1].last < day
  {
    hide AnchoredNext, DayOfMonth;
    var g := GridOf(l, Rent);
    GridsAdvance(Monthly, Monthly, DayOfMonth(l.startDate));
    PointsIncrease(g, l.startDate, 1, 2);
    CutLength(g, AtStart(), l.startDate, l.endDate, 1);
    CutPeriod(g, AtStart(), l.startDate, l.endDate, 1);
  }

  // ---------- Which leases can be replaced at all ----------

  // With bimonthly electricity a rent point opens a window exactly when the lease starts on the first of a
  // month and the point lies in an odd month of the year.
  lemma RentPointOpensWindow(l: Lease, k: nat)
    requires WellFormed(l) && l.electricityCadence == Bimonthly && k >= 1
    ensures var day := Point(GridOf(l, Rent), l.startDate, k);
            IsLaterPoint(GridOf(l, Electricity), l.startDate, day)
            <==> DayOfMonth(l.startDate) == 1 && (MonthOf(l.startDate) + k * RentCadenceMonths(l.rentCadence)) % 2 == 0
  {
    hide *;
    var i := MonthOf(l.startDate) + k * RentCadenceMonths(l.rentCadence);
    RentPointMonth(l, k);
    FirstOfMonth(i, DayOfMonth(l.startDate));
    OpensWindow(l, Point(GridOf(l, Rent), l.startDate, k), i);
  }

  lemma RentPointMonth(l: Lease, k: nat)
    requires WellFormed(l) && k >= 1
    ensures var i := MonthOf(l.startDate) + k * RentCadenceMonths(l.rentCadence);
            Point(GridOf(l, Rent), l.startDate, k) == Clamp(i, DayOfMonth(l.startDate)) && i > MonthOf(l.startDate)
  {
    hide Clamp, MonthOf, DayOfMonth;
    AnchoredPoint(RentCadenceMonths(l.rentCadence), DayOfMonth(l.startDate), l.startDate, k);
    assert k * RentCadenceMonths(l.rentCadence) >= 1;
  }

  lemma FirstOfMonth(i: int, anchor: int)
    requires 1 <= anchor
    ensures MonthOf(Clamp(i, anchor)) == i
    ensures Clamp(i, anchor) == MonthStart(i) <==> anchor == 1
  {
    ClampInMonth(i, anchor);
    hide MonthStart, MonthOf;
  }

  // A day of a later month opens a window exactly when it is the first of an odd month of the year.
  lemma OpensWindow(l: Lease, day: Day, i: int)
    requires l.electricityCadence == Bimonthly
    requires MonthOf(day) == i > MonthOf(l.startDate)
    ensures IsLaterPoint(GridOf(l, Electricity), l.startDate, day) <==> day == MonthStart(i) && i % 2 == 0
  {
    var s := l.startDate;
    assert GridOf(l, Electricity) == Windows();
    hide GridOf, MonthStart, MonthOf, WindowNext;
    if IsLaterPoint(Windows(), s, day) {
      var j: nat :| j >= 1 && Point(Windows(), s, j) == day;
      WindowPoint(s, j);
      MonthStartNext(2 * (Window(s) + j));
      MonthOfUnique(day, 2 * (Window(s) + j));
    } else if i % 2 == 0 {
      WindowPoint(s, i / 2 - Window(s));
    }
  }

  // On these terms the two schedules of a lease meet again after its start.
  predicate SchedulesMeet(l: Lease) {
    || l.electricityCadence == Monthly
    || (DayOfMonth(l.startDate) == 1 && (RentCadenceMonths(l.rentCadence) % 2 == 1 || MonthOf(l.startDate) % 2 == 0))
  }

  lemma SchedulesMeetExactly(l: Lease)
    requires WellFormed(l)
    ensures SchedulesMeet(l) <==> exists day :: IsCommonPoint(l, day)
  {
    hide *;
    if SchedulesMeet(l) {
      var day := MeetingPoint(l);
    }
    if day :| IsCommonPoint(l, day) {
      MeetingLease(l, day);
    }
  }

  lemma MeetingPoint(l: Lease) returns (day: Day)
    requires WellFormed(l) && SchedulesMeet(l)
    ensures IsCommonPoint(l, day)
  {
    hide MonthOf, DayOfMonth, GridOf, RentCadenceMonths, Point;
    var k := if MonthOf(l.startDate) % 2 == 0 then 2 else 1;
    day := Point(GridOf(l, Rent), l.startDate, k);
    if l.electricityCadence == Monthly {
      EveryRentPointIsCommon(l, k);
    } else {
      OneStepOrTwo(MonthOf(l.startDate), RentCadenceMonths(l.rentCadence));
      RentPointOpensWindow(l, k);
    }
  }

  lemma MeetingLease(l: Lease, day: Day)
    requires WellFormed(l)
    requires IsCommonPoint(l, day)
    ensures SchedulesMeet(l)
  {
    hide MonthOf, DayOfMonth, GridOf, RentCadenceMonths;
    if l.electricityCadence != Monthly {
      var k: nat :| k >= 1 && Point(GridOf(l, Rent), l.startDate, k) == day;
      RentPointOpensWindow(l, k);
      EvenStepKeepsParity(MonthOf(l.startDate), k, RentCadenceMonths(l.rentCadence));
    }
  }

  lemma OneStepOrTwo(start: int, m: int)
    requires m % 2 == 1 || start % 2 == 0
    ensures (start + (if start % 2 == 0 then 2 else 1) * m) % 2 == 0
  {
  }

  lemma EvenStepKeepsParity(start: int, k: nat, m: int)
    ensures m % 2 == 0 ==> (start + k * m) % 2 == start % 2
  {
    if m % 2 == 0 {
      assert k * m == 2 * (k * (m / 2));
    }
  }

  // With monthly electricity every rent point is common to both schedules.
  lemma EveryRentPointIsCommon(l: Lease, k: nat)
    requires WellFormed(l) && l.electricityCadence == Monthly && k >= 1
    ensures var day := Point(GridOf(l, Rent), l.startDate, k);
            IsCommonPoint(l, day)
  {
    var m := RentCadenceMonths(l.rentCadence);
    hide DayOfMonth, AnchoredNext;
    Nesting(m, DayOfMonth(l.startDate), l.startDate, k);
    assert m * k >= 1;
  }

  // A lease whose schedules never meet again is never replaced, whatever is asked for and paid.
  lemma NeverReplaced(s: Store, input: ReplaceInput, original: int, changes: seq<RentChange>)
    requires input.lease < |s.accounts|
    requires InBook(s.accounts[input.lease], original, changes)
    requires !SchedulesMeet(s.accounts[input.lease].lease)
    ensures ReplaceLeaseOutcome(s, input).Failure?
  {
    BookIsWellFormed(s.accounts[input.lease], original, changes);
    hide InBook, SchedulesMeet, ReplaceLeaseOutcome, GridOf, IsLaterPoint, WellFormed;
    SchedulesMeetExactly(s.accounts[input.lease].lease);
    assert !IsCommonPoint(s.accounts[input.lease].lease, input.effectiveStart);
    ReplacementIsAccepted(s, input, original, changes);
  }
}
