/**
 The book of an account: what the live bills of an active lease are, after any run of rent changes,
 payments, meter readings, overdue marks and expiry.
 */
module Books {
  import opened Basics
  import opened Calendar
  import opened Schedules
  import opened BillingPeriods
  import opened Leases
  import opened Billing
  import opened BillLists
  import opened RentUpdates

  // ---------- The book of an account ----------

  function RentPeriods(l: Lease): seq<BillingPeriod>
    requires WellFormed(l)
  {
    RentSchedule(l.startDate, l.endDate, l.rentCadence, DayOfMonth(l.startDate)).value
  }

  function ElectricitySpans(l: Lease): seq<BillingPeriod>
    requires WellFormed(l)
  {
    ElectricitySchedule(l.startDate, l.endDate, l.electricityCadence).value
  }

  lemma SchedulesSucceed(l: Lease)
    requires WellFormed(l)
    ensures RentSchedule(l.startDate, l.endDate, l.rentCadence, DayOfMonth(l.startDate)) == Success(RentPeriods(l))
    ensures ElectricitySchedule(l.startDate, l.endDate, l.electricityCadence) == Success(ElectricitySpans(l))
  {
  }

  // One accepted change: the rent of every bill due on or after a payment date.
  datatype RentChange = RentChange(from: Day, rentAmount: int)

  // The rent of the last change whose payment date is not after the due date, or the original rent.
  function RentAt(original: int, changes: seq<RentChange>, due: Day): int {
    if changes == [] then original
    else if changes[|changes| - 1].from <= due then changes[|changes| - 1].rentAmount
    else RentAt(original, changes[..|changes| - 1], due)
  }

  function ScheduledLines(periods: seq<BillingPeriod>, original: int, changes: seq<RentChange>): seq<RentLine> {
    seq(|periods|, i requires 0 <= i < |periods| =>
      RentLine(periods[i], Some(RentAt(original, changes, periods[i].due))))
  }

  // The live rent bills are the rent schedule, in order and at the agreed rents; the electricity bills
  // are the electricity schedule, and none is voided; voided rent bills were scheduled periods too.
  ghost predicate InBook(a: Account, original: int, changes: seq<RentChange>) {
    && WellFormed(a.lease)
    && LiveRent(a.bills) == ScheduledLines(RentPeriods(a.lease), original, changes)
    && ElectricityPeriods(a.bills) == ElectricitySpans(a.lease)
    && (forall b | b in a.bills && b.kind == Rent :: b.period in RentPeriods(a.lease))
    && (forall b | b in a.bills && b.kind == Electricity :: b.status != Voided)
  }

  // The account a new lease starts with.
  function NewAccount(lease: Lease): Account
    requires WellFormed(lease)
  {
    Account(lease, RentSeeds(RentPeriods(lease), lease.rentAmount) + ElectricitySeeds(ElectricitySpans(lease)))
  }

  lemma NewAccountInBook(lease: Lease)
    requires WellFormed(lease)
    ensures InBook(NewAccount(lease), lease.rentAmount, [])
  {
    var rent, electricity := RentPeriods(lease), ElectricitySpans(lease);
    hide RentPeriods, ElectricitySpans, WellFormed, LiveRent, ElectricityPeriods;
    NewBills(rent, electricity, lease.rentAmount);
    assert RentLines(rent, lease.rentAmount) == ScheduledLines(rent, lease.rentAmount, []);
  }

  lemma NewBills(rent: seq<BillingPeriod>, electricity: seq<BillingPeriod>, rentAmount: int)
    ensures var bills := RentSeeds(rent, rentAmount) + ElectricitySeeds(electricity);
            LiveRent(bills) == RentLines(rent, rentAmount) && ElectricityPeriods(bills) == electricity
  {
    hide LiveRent, ElectricityPeriods, RentSeeds, ElectricitySeeds, RentLines;
    ListsOfRentSeeds(rent, rentAmount);
    ListsOfElectricitySeeds(electricity);
    LiveRentAppend(RentSeeds(rent, rentAmount), ElectricitySeeds(electricity));
    ElectricityAppend(RentSeeds(rent, rentAmount), ElectricitySeeds(electricity));
  }

  // The next payment date is a point of the lease's own schedule, and the regenerated periods are
  // exactly the periods of the schedule due on or after it.
  lemma RentResumes(l: Lease, operationDate: Day) returns (k: nat)
    requires WellFormed(l)
    ensures k <= |RentPeriods(l)|
    ensures var next := FirstPointAfter(PaymentGrid(l.startDate, l.rentCadence), l.startDate, operationDate);
            && (forall j | 0 <= j < |RentPeriods(l)| :: RentPeriods(l)[j].due < next <==> j < k)
            && (next <= l.endDate ==>
                  RentSchedule(next, l.endDate, l.rentCadence, DayOfMonth(l.startDate)) == Success(RentPeriods(l)[k..]))
            && (next > l.endDate ==> k == |RentPeriods(l)|)
  {
    hide AnchoredNext;
    var g := PaymentGrid(l.startDate, l.rentCadence);
    assert g == RentGrid(l.rentCadence, DayOfMonth(l.startDate));
    hide Anchored, DayOfMonth;
    var next := FirstPointAfter(g, l.startDate, operationDate);
    var periods := Cut(g, AtStart(), l.startDate, l.endDate);
    forall j: nat | j < |periods|
      ensures periods[j].due == periods[j].first <= l.endDate
    {
      CutPeriod(g, AtStart(), l.startDate, l.endDate, j);
      CutLength(g, AtStart(), l.startDate, l.endDate, j);
    }
    if next <= l.endDate {
      k := ScheduleResumes(g, AtStart(), l.startDate, l.endDate, operationDate);
    } else {
      k := |periods|;
    }
  }

  // ---------- Every step keeps the book ----------

  lemma NormalizedWellFormed(l: Lease)
    requires WellFormed(l)
    ensures NormalizeState(l) == Success(l)
  {
  }

  lemma LinesDueBefore(periods: seq<BillingPeriod>, original: int, changes: seq<RentChange>, next: Day,
                       rentAmount: int, k: nat)
    requires k <= |periods|
    requires forall j | 0 <= j < |periods| :: periods[j].due < next <==> j < k
    ensures DueBefore(ScheduledLines(periods, original, changes), next) + RentLines(periods[k..], rentAmount)
            == ScheduledLines(periods, original, changes + [RentChange(next, rentAmount)])
  {
    DueBeforePrefix(ScheduledLines(periods, original, changes), next, k);
    var later := changes + [RentChange(next, rentAmount)];
    assert later[..|later| - 1] == changes;
    hide DueBefore;
    assert ScheduledLines(periods, original, changes)[..k] + RentLines(periods[k..], rentAmount)
        == ScheduledLines(periods, original, later);
  }

  lemma RegeneratedLines(bills: seq<Bill>, next: Day, periods: seq<BillingPeriod>, rentAmount: int)
    requires !HasLockedRent(bills, next)
    ensures LiveRent(VoidRentFrom(bills, next) + RentSeeds(periods, rentAmount))
            == DueBefore(LiveRent(bills), next) + RentLines(periods, rentAmount)
    ensures ElectricityPeriods(VoidRentFrom(bills, next) + RentSeeds(periods, rentAmount)) == ElectricityPeriods(bills)
  {
    hide HasLockedRent, DueBefore, RentLines;
    VoidingKeepsEarlier(bills, next);
    VoidingKeepsElectricity(bills, next);
    ListsOfRentSeeds(periods, rentAmount);
    LiveRentAppend(VoidRentFrom(bills, next), RentSeeds(periods, rentAmount));
    ElectricityAppend(VoidRentFrom(bills, next), RentSeeds(periods, rentAmount));
  }

  lemma RegeneratedBills(bills: seq<Bill>, next: Day, periods: seq<BillingPeriod>, rentAmount: int,
                         all: seq<BillingPeriod>)
    requires forall b | b in bills && b.kind == Rent :: b.period in all
    requires forall b | b in bills && b.kind == Electricity :: b.status != Voided
    requires forall p | p in periods :: p in all
    ensures forall b | b in VoidRentFrom(bills, next) + RentSeeds(periods, rentAmount) ::
              if b.kind == Rent then b.period in all else b.status != Voided
  {
    forall b | b in VoidRentFrom(bills, next) + RentSeeds(periods, rentAmount)
      ensures if b.kind == Rent then b.period in all else b.status != Voided
    {
      if b in VoidRentFrom(bills, next) {
        var i :| 0 <= i < |bills| && VoidRentFrom(bills, next)[i] == b;
        assert bills[i] in bills && VoidIfRentDue(next)(bills[i]) == b;
      } else {
        var i :| 0 <= i < |periods| && RentSeeds(periods, rentAmount)[i] == b;
        assert periods[i] in periods;
      }
    }
  }

  lemma SameSpans(l: Lease, m: Lease)
    requires WellFormed(l) && m == l.(rentAmount := m.rentAmount, version := m.version) && m.rentAmount > 0
    ensures WellFormed(m) && RentPeriods(m) == RentPeriods(l) && ElectricitySpans(m) == ElectricitySpans(l)
  {
    hide RentSchedule, ElectricitySchedule;
  }

  lemma ChangedParts(a: Account, rentAmount: int, operationDate: Day)
    requires WellFormed(a.lease)
    requires UpdatedRent(a, rentAmount, operationDate).Success?
    requires UpdatedRent(a, rentAmount, operationDate).value.Changed?
    ensures var l, update := a.lease, UpdatedRent(a, rentAmount, operationDate).value;
            && rentAmount > 0
            && update.from == FirstPointAfter(PaymentGrid(l.startDate, l.rentCadence), l.startDate, operationDate)
            && update.account.lease == l.(rentAmount := rentAmount, version := l.version + 1)
            && (update.from > l.endDate ==> update.account.bills == a.bills)
            && (update.from <= l.endDate ==>
                  var later := RentSchedule(update.from, l.endDate, l.rentCadence, DayOfMonth(l.startDate));
                  && later.Success? && !HasLockedRent(a.bills, update.from)
                  && update.account.bills == VoidRentFrom(a.bills, update.from) + RentSeeds(later.value, rentAmount))
  {
    NormalizedWellFormed(a.lease);
    hide WellFormed, NormalizeState, RentSchedule, DayOfMonth, FirstPointAfter, PaymentGrid, HasLockedRent,
         VoidRentFrom, RentSeeds;
    var update := UpdatedRent(a, rentAmount, operationDate).value;
    if update.from <= a.lease.endDate {
      RestIsScheduled(update.from, a.lease.endDate, a.lease);
    }
  }

  lemma ChangedAccount(a: Account, rentAmount: int, operationDate: Day) returns (k: nat)
    requires WellFormed(a.lease)
    requires UpdatedRent(a, rentAmount, operationDate).Success?
    requires UpdatedRent(a, rentAmount, operationDate).value.Changed?
    ensures var update, periods := UpdatedRent(a, rentAmount, operationDate).value, RentPeriods(a.lease);
            && rentAmount > 0
            && update.account.lease == a.lease.(rentAmount := rentAmount, version := a.lease.version + 1)
            && k <= |periods|
            && (forall j | 0 <= j < |periods| :: periods[j].due < update.from <==> j < k)
            && if update.from <= a.lease.endDate then
                 && !HasLockedRent(a.bills, update.from)
                 && update.account.bills == VoidRentFrom(a.bills, update.from) + RentSeeds(periods[k..], rentAmount)
               else k == |periods| && update.account.bills == a.bills
  {
    hide *;
    ChangedParts(a, rentAmount, operationDate);
    k := RentResumes(a.lease, operationDate);
  }

  // A rent change gives every bill due on or after the next payment date the new rent, and no other.
  lemma UpdateKeepsBook(a: Account, original: int, changes: seq<RentChange>, rentAmount: int, operationDate: Day)
    requires InBook(a, original, changes)
    requires UpdatedRent(a, rentAmount, operationDate).Success?
    requires UpdatedRent(a, rentAmount, operationDate).value.Changed?
    ensures var update := UpdatedRent(a, rentAmount, operationDate).value;
            InBook(update.account, original, changes + [RentChange(update.from, rentAmount)])
  {
    hide UpdatedRent, RentPeriods, ElectricitySpans, WellFormed, HasLockedRent, VoidRentFrom, RentSeeds, RentLines,
         LiveRent, ElectricityPeriods, ScheduledLines, DueBefore;
    var update := UpdatedRent(a, rentAmount, operationDate).value;
    var next, periods := update.from, RentPeriods(a.lease);
    var k := ChangedAccount(a, rentAmount, operationDate);
    SameSpans(a.lease, update.account.lease);
    LinesDueBefore(periods, original, changes, next, rentAmount, k);
    if next <= a.lease.endDate {
      RegeneratedLines(a.bills, next, periods[k..], rentAmount);
      RegeneratedBills(a.bills, next, periods[k..], rentAmount, periods);
    } else {
      AllDueBefore(periods, original, changes, next, rentAmount);
    }
  }

  lemma AllDueBefore(periods: seq<BillingPeriod>, original: int, changes: seq<RentChange>, next: Day, rentAmount: int)
    requires forall j | 0 <= j < |periods| :: periods[j].due < next
    ensures DueBefore(ScheduledLines(periods, original, changes), next) + RentLines(periods[|periods|..], rentAmount)
            == ScheduledLines(periods, original, changes)
  {
    DueBeforePrefix(ScheduledLines(periods, original, changes), next, |periods|);
    hide DueBefore;
  }

  // ---------- Runs ----------

  datatype AccountStep =
    | UpdateRent(rentAmount: int, operationDate: Day)
    | PayBill(bill: nat, paidAmount: int)
    | MarkOverdue(bill: nat)
    | ReadMeter(bill: nat, reading: int, unitPrice: Option<real>)
    | Expire

  function WithBill(a: Account, i: nat, b: Bill): Account
    requires i < |a.bills|
  {
    a.(bills := a.bills[i := b.(version := a.bills[i].version + 1)])
  }

  // A refused step leaves the account as it was.
  function AfterStep(a: Account, step: AccountStep): Account {
    match step
    case UpdateRent(rentAmount, operationDate) =>
      var r := UpdatedRent(a, rentAmount, operationDate);
      if r.Success? && r.value.Changed? then r.value.account else a
    case PayBill(i, paidAmount) =>
      if i < |a.bills| && PaidBill(a.bills[i], paidAmount).Success?
      then WithBill(a, i, PaidBill(a.bills[i], paidAmount).value) else a
    case MarkOverdue(i) =>
      if i < |a.bills| && a.bills[i].status == PendingPayment
      then WithBill(a, i, a.bills[i].(status := Overdue)) else a
    case ReadMeter(i, reading, unitPrice) =>
      var r := RecordedReading(a, i, reading, unitPrice);
      if r.Success? then r.value else a
    case Expire =>
      if a.lease.status == Active then a.(lease := a.lease.(status := Expired, version := a.lease.version + 1)) else a
  }

  function ChangesAfter(a: Account, changes: seq<RentChange>, step: AccountStep): seq<RentChange> {
    if step.UpdateRent? then
      var r := UpdatedRent(a, step.rentAmount, step.operationDate);
      if r.Success? && r.value.Changed? then changes + [RentChange(r.value.from, step.rentAmount)] else changes
    else changes
  }

  lemma TouchKeepsBook(a: Account, i: nat, b: Bill, original: int, changes: seq<RentChange>)
    requires InBook(a, original, changes)
    requires i < |a.bills| && SameLine(a.bills[i], b)
    ensures InBook(a.(bills := a.bills[i := b]), original, changes)
  {
    hide RentPeriods, ElectricitySpans, WellFormed;
    ListsAfterTouch(a.bills, i, b);
    assert a.bills[i] in a.bills;
    forall c | c in a.bills[i := b]
      ensures c == b || c in a.bills
    {
    }
  }

  lemma StepKeepsBook(a: Account, step: AccountStep, original: int, changes: seq<RentChange>)
    requires InBook(a, original, changes)
    ensures InBook(AfterStep(a, step), original, ChangesAfter(a, changes, step))
  {
    var b := AfterStep(a, step);
    match step
    case UpdateRent(rentAmount, operationDate) =>
      hide InBook;
      if UpdatedRent(a, rentAmount, operationDate).Success?
          && UpdatedRent(a, rentAmount, operationDate).value.Changed? {
        UpdateKeepsBook(a, original, changes, rentAmount, operationDate);
      }
    case Expire =>
      assert RentPeriods(b.lease) == RentPeriods(a.lease);
      assert ElectricitySpans(b.lease) == ElectricitySpans(a.lease);
    case _ =>
      hide InBook;
      if b != a {
        TouchKeepsBook(a, step.bill, b.bills[step.bill], original, changes);
        assert b == a.(bills := a.bills[step.bill := b.bills[step.bill]]);
      }
  }

  datatype Progress = Progress(account: Account, changes: seq<RentChange>)

  function Run(p: Progress, steps: seq<AccountStep>): Progress
    decreases |steps|
  {
    if steps == [] then p
    else Run(Progress(AfterStep(p.account, steps[0]), ChangesAfter(p.account, p.changes, steps[0])), steps[1..])
  }

  // Any run of rent changes, payments, meter readings, overdue marks and expiry keeps the schedule.
  lemma {:induction false} RunKeepsBook(p: Progress, steps: seq<AccountStep>, original: int)
    requires InBook(p.account, original, p.changes)
    ensures InBook(Run(p, steps).account, original, Run(p, steps).changes)
    decreases |steps|
  {
    if steps != [] {
      hide InBook;
      StepKeepsBook(p.account, steps[0], original, p.changes);
      RunKeepsBook(Progress(AfterStep(p.account, steps[0]), ChangesAfter(p.account, p.changes, steps[0])), steps[1..],
          original);
    }
  }

  // From the creation of a lease on: after any run, the live rent bills have exactly the periods of the
  // lease's schedule, in order, each at the rent of the last change effective at its due date.
  lemma RentScheduleOnEveryRun(lease: Lease, steps: seq<AccountStep>)
    requires WellFormed(lease)
    ensures var end := Run(Progress(NewAccount(lease), []), steps);
            && WellFormed(end.account.lease)
            && end.account.lease.startDate == lease.startDate && end.account.lease.endDate == lease.endDate
            && LiveRent(end.account.bills) == ScheduledLines(RentPeriods(lease), lease.rentAmount, end.changes)
  {
    hide RentPeriods;
    NewAccountInBook(lease);
    RunKeepsBook(Progress(NewAccount(lease), []), steps, lease.rentAmount);
    RunKeepsTerms(Progress(NewAccount(lease), []), steps);
    SamePeriods(lease, Run(Progress(NewAccount(lease), []), steps).account.lease);
  }

  lemma SamePeriods(l: Lease, m: Lease)
    requires WellFormed(l) && WellFormed(m)
    requires l.startDate == m.startDate && l.endDate == m.endDate && l.rentCadence == m.rentCadence
    ensures RentPeriods(l) == RentPeriods(m)
  {
  }

  lemma {:induction false} RunKeepsTerms(p: Progress, steps: seq<AccountStep>)
    ensures var l, m := p.account.lease, Run(p, steps).account.lease;
            l.startDate == m.startDate && l.endDate == m.endDate && l.rentCadence == m.rentCadence
    decreases |steps|
  {
    if steps != [] {
      StepKeepsTerms(p.account, steps[0]);
      hide AfterStep;
      RunKeepsTerms(Progress(AfterStep(p.account, steps[0]), ChangesAfter(p.account, p.changes, steps[0])), steps[1..]);
    }
  }

  lemma StepKeepsTerms(a: Account, step: AccountStep)
    ensures var l, m := a.lease, AfterStep(a, step).lease;
            l.startDate == m.startDate && l.endDate == m.endDate && l.rentCadence == m.rentCadence
  {
    hide RentSchedule, FirstPointAfter, PaymentGrid, HasLockedRent, PreviousReading;
  }

  // ---------- Voided bills ----------

  lemma VoidedStays(a: Account, step: AccountStep, i: nat)
    requires i < |a.bills| && a.bills[i].status == Voided
    ensures i < |AfterStep(a, step).bills| && AfterStep(a, step).bills[i] == a.bills[i]
  {
    hide RentSchedule, FirstPointAfter, PaymentGrid, HasLockedRent, PreviousReading;
  }

  // A voided bill stays in the list as it is, over every run.
  lemma {:induction false} VoidedStaysOnRuns(p: Progress, steps: seq<AccountStep>, i: nat)
    requires i < |p.account.bills| && p.account.bills[i].status == Voided
    ensures i < |Run(p, steps).account.bills| && Run(p, steps).account.bills[i] == p.account.bills[i]
    decreases |steps|
  {
    if steps != [] {
      VoidedStays(p.account, steps[0], i);
      hide AfterStep;
      VoidedStaysOnRuns(Progress(AfterStep(p.account, steps[0]), ChangesAfter(p.account, p.changes, steps[0])),
          steps[1..], i);
    }
  }

  lemma {:induction false} RunAppend(p: Progress, a: seq<AccountStep>, b: seq<AccountStep>)
    ensures Run(p, a + b) == Run(Run(p, a), b)
    decreases |a|
  {
    if a == [] {
      assert a + b == b;
    } else {
      hide AfterStep, ChangesAfter;
      ConcatTail(a, b);
      RunAppend(Progress(AfterStep(p.account, a[0]), ChangesAfter(p.account, p.changes, a[0])), a[1..], b);
    }
  }

  // ---------- A request for the rent the lease already has ----------

  // Whatever its payment date, such a request leaves the bills alone; they are as requested exactly when
  // every bill due on or after that date carries the rent already.
  lemma UnchangedRequestIsExact(a: Account, original: int, changes: seq<RentChange>, rentAmount: int,
                                operationDate: Day)
    requires InBook(a, original, changes)
    requires UpdatedRent(a, rentAmount, operationDate) == Success(Unchanged)
    ensures var next := FirstPointAfter(PaymentGrid(a.lease.startDate, a.lease.rentCadence), a.lease.startDate,
            operationDate);
            LiveRent(a.bills) == ScheduledLines(RentPeriods(a.lease), original,
                changes + [RentChange(next, rentAmount)])
            <==> forall line | line in LiveRent(a.bills) && line.period.due >= next :: line.amount == Some(rentAmount)
  {
    var next := FirstPointAfter(PaymentGrid(a.lease.startDate, a.lease.rentCadence), a.lease.startDate, operationDate);
    var periods, later := RentPeriods(a.lease), changes + [RentChange(next, rentAmount)];
    hide UpdatedRent, RentPeriods, ElectricitySpans, WellFormed, PaymentGrid, FirstPointAfter;
    assert later[..|later| - 1] == changes;
    var lines, wanted := LiveRent(a.bills), ScheduledLines(periods, original, later);
    assert |lines| == |wanted|;
    forall i | 0 <= i < |lines|
      ensures lines[i] in lines
      ensures wanted[i].period == lines[i].period
      ensures wanted[i].amount == if lines[i].period.due >= next then Some(rentAmount) else lines[i].amount
    {
    }
    if forall line | line in lines && line.period.due >= next :: line.amount == Some(rentAmount) {
      assert forall i | 0 <= i < |lines| :: lines[i] == wanted[i];
    }
  }

  // Every accepted request gives the bills the requested rents, those due on or after its payment date and
  // no others, unless the lease has the requested rent already and one of those bills has another.
  lemma RentRequestIsMet(a: Account, original: int, changes: seq<RentChange>, rentAmount: int, operationDate: Day)
    requires InBook(a, original, changes)
    requires UpdatedRent(a, rentAmount, operationDate).Success?
    ensures var next := FirstPointAfter(PaymentGrid(a.lease.startDate, a.lease.rentCadence), a.lease.startDate,
            operationDate);
            LiveRent(AfterStep(a, UpdateRent(rentAmount, operationDate)).bills)
            == ScheduledLines(RentPeriods(a.lease), original, changes + [RentChange(next, rentAmount)])
            <==> || a.lease.rentAmount != rentAmount
                 || forall line | line in LiveRent(a.bills) && line.period.due >= next ::
                     line.amount == Some(rentAmount)
  {
    hide RentPeriods, FirstPointAfter, PaymentGrid, LiveRent, ScheduledLines, ElectricitySpans, ElectricityPeriods;
    NormalizedWellFormed(a.lease);
    if UpdatedRent(a, rentAmount, operationDate).value.Changed? {
      UpdateKeepsBook(a, original, changes, rentAmount, operationDate);
      SamePeriods(a.lease, UpdatedRent(a, rentAmount, operationDate).value.account.lease);
    } else {
      UnchangedRequestIsExact(a, original, changes, rentAmount, operationDate);
    }
  }

  // ---------- Requests that follow the clock ----------

  function PaymentDate(l: Lease, operationDate: Day): Day {
    FirstPointAfter(PaymentGrid(l.startDate, l.rentCadence), l.startDate, operationDate)
  }

  // Every accepted request, whether or not the lease had the rent already.
  function RequestsAfter(a: Account, requests: seq<RentChange>, step: AccountStep): seq<RentChange> {
    if step.UpdateRent? && UpdatedRent(a, step.rentAmount, step.operationDate).Success?
    then requests + [RentChange(PaymentDate(a.lease, step.operationDate), step.rentAmount)]
    else requests
  }

  function RequestedRun(p: Progress, steps: seq<AccountStep>): Progress
    decreases |steps|
  {
    if steps == [] then p
    else RequestedRun(Progress(AfterStep(p.account, steps[0]), RequestsAfter(p.account, p.changes, steps[0])),
        steps[1..])
  }

  // The operation dates of rent requests never go back.
  predicate FollowsClock(clock: Day, steps: seq<AccountStep>)
    decreases |steps|
  {
    if steps == [] then true
    else if steps[0].UpdateRent? then clock <= steps[0].operationDate
        && FollowsClock(steps[0].operationDate, steps[1..])
    else FollowsClock(clock, steps[1..])
  }

  function LastRent(original: int, requests: seq<RentChange>): int {
    if requests == [] then original else requests[|requests| - 1].rentAmount
  }

  // The book is kept for the requests, the lease has the rent asked for last, and the last payment date
  // is none that a later operation date would come before.
  ghost predicate Requested(a: Account, original: int, requests: seq<RentChange>, clock: Day) {
    && InBook(a, original, requests)
    && a.lease.rentAmount == LastRent(original, requests)
    && (requests != [] ==> requests[|requests| - 1].from <= PaymentDate(a.lease, clock))
  }

  // Asking again for the rent asked for last, from no earlier date on, asks for nothing new.
  lemma RepeatedRequest(periods: seq<BillingPeriod>, original: int, requests: seq<RentChange>, next: Day)
    requires requests != [] ==> requests[|requests| - 1].from <= next
    ensures ScheduledLines(periods, original, requests + [RentChange(next, LastRent(original, requests))])
            == ScheduledLines(periods, original, requests)
  {
    var later := requests + [RentChange(next, LastRent(original, requests))];
    assert later[..|later| - 1] == requests;
  }

  lemma RequestKeeps(a: Account, original: int, requests: seq<RentChange>, clock: Day, rentAmount: int,
                     operationDate: Day)
    requires Requested(a, original, requests, clock)
    requires clock <= operationDate
    ensures var step := UpdateRent(rentAmount, operationDate);
            Requested(AfterStep(a, step), original, RequestsAfter(a, requests, step), operationDate)
  {
    hide *;
    var r := UpdatedRent(a, rentAmount, operationDate);
    RequestStep(a, requests, rentAmount, operationDate);
    ClockAdvances(a, original, requests, clock, operationDate);
    if r.Success? {
      UpdatedLease(a, rentAmount, operationDate);
      var later := requests + [RentChange(PaymentDate(a.lease, operationDate), rentAmount)];
      if r.value.Changed? {
        UpdateKeepsBook(a, original, requests, rentAmount, operationDate);
        SamePaymentDate(a.lease, r.value.account.lease, operationDate);
        LatestRequest(r.value.account, original, requests, operationDate, PaymentDate(a.lease, operationDate),
            rentAmount);
      } else {
        RepeatedRequest(RentPeriods(a.lease), original, requests, PaymentDate(a.lease, operationDate));
        SameLinesKeepBook(a, original, requests, later);
        LatestRequest(a, original, requests, operationDate, PaymentDate(a.lease, operationDate), rentAmount);
      }
    }
  }

  lemma RequestStep(a: Account, requests: seq<RentChange>, rentAmount: int, operationDate: Day)
    ensures var r, step := UpdatedRent(a, rentAmount, operationDate), UpdateRent(rentAmount, operationDate);
            && AfterStep(a, step) == (if r.Success? && r.value.Changed? then r.value.account else a)
            && RequestsAfter(a, requests, step)
               == if r.Success? then requests + [RentChange(PaymentDate(a.lease, operationDate), rentAmount)]
                   else requests
  {
    hide UpdatedRent, PaymentDate;
  }

  lemma ClockAdvances(a: Account, original: int, requests: seq<RentChange>, clock: Day, operationDate: Day)
    requires Requested(a, original, requests, clock) && clock <= operationDate
    ensures Requested(a, original, requests, operationDate)
    ensures InBook(a, original, requests) && WellFormed(a.lease) && a.lease.rentAmount == LastRent(original, requests)
    ensures requests != [] ==> requests[|requests| - 1].from <= PaymentDate(a.lease, operationDate)
  {
    FirstPointAfterMonotone(PaymentGrid(a.lease.startDate, a.lease.rentCadence), a.lease.startDate, clock,
        operationDate);
    hide PaymentGrid, FirstPointAfter, RentPeriods, ElectricitySpans, LiveRent, ElectricityPeriods, ScheduledLines;
  }

  lemma LatestRequest(a: Account, original: int, requests: seq<RentChange>, clock: Day, next: Day, rentAmount: int)
    requires InBook(a, original, requests + [RentChange(next, rentAmount)])
    requires a.lease.rentAmount == rentAmount && next == PaymentDate(a.lease, clock)
    ensures Requested(a, original, requests + [RentChange(next, rentAmount)], clock)
  {
    hide InBook, PaymentDate;
  }

  lemma SameLinesKeepBook(a: Account, original: int, requests: seq<RentChange>, later: seq<RentChange>)
    requires InBook(a, original, requests) && WellFormed(a.lease)
    requires ScheduledLines(RentPeriods(a.lease), original, later)
             == ScheduledLines(RentPeriods(a.lease), original, requests)
    ensures InBook(a, original, later)
  {
    hide ScheduledLines, RentPeriods, ElectricitySpans, LiveRent, ElectricityPeriods;
  }

  lemma UpdatedLease(a: Account, rentAmount: int, operationDate: Day)
    requires WellFormed(a.lease)
    requires UpdatedRent(a, rentAmount, operationDate).Success?
    ensures var r := UpdatedRent(a, rentAmount, operationDate).value;
            && (r.Changed? ==> r.from == PaymentDate(a.lease, operationDate)
                               && r.account.lease == a.lease.(rentAmount := rentAmount, version := a.lease.version + 1))
            && (r.Unchanged? ==> a.lease.rentAmount == rentAmount)
  {
    NormalizedWellFormed(a.lease);
    hide RentSchedule, FirstPointAfter, PaymentGrid, HasLockedRent, NormalizeState, WellFormed;
  }

  lemma SamePaymentDate(l: Lease, m: Lease, operationDate: Day)
    requires l.startDate == m.startDate && l.rentCadence == m.rentCadence
    ensures PaymentDate(l, operationDate) == PaymentDate(m, operationDate)
  {
  }

  lemma OtherStepKeeps(a: Account, original: int, requests: seq<RentChange>, clock: Day, step: AccountStep)
    requires Requested(a, original, requests, clock)
    requires !step.UpdateRent?
    ensures Requested(AfterStep(a, step), original, RequestsAfter(a, requests, step), clock)
  {
    StepKeepsTerms(a, step);
    OtherStepKeepsRent(a, step);
    hide InBook, AfterStep, PaymentDate;
    StepKeepsBook(a, step, original, requests);
    SamePaymentDate(a.lease, AfterStep(a, step).lease, clock);
  }

  lemma OtherStepKeepsRent(a: Account, step: AccountStep)
    requires !step.UpdateRent?
    ensures AfterStep(a, step).lease.rentAmount == a.lease.rentAmount
  {
    hide PreviousReading;
  }

  lemma {:induction false} RequestsAreMet(p: Progress, steps: seq<AccountStep>, original: int, clock: Day)
    requires Requested(p.account, original, p.changes, clock)
    requires FollowsClock(clock, steps)
    ensures InBook(RequestedRun(p, steps).account, original, RequestedRun(p, steps).changes)
    decreases |steps|
  {
    if steps != [] {
      hide Requested, AfterStep, RequestsAfter;
      var q := Progress(AfterStep(p.account, steps[0]), RequestsAfter(p.account, p.changes, steps[0]));
      match steps[0]
      case UpdateRent(rentAmount, operationDate) =>
        RequestKeeps(p.account, original, p.changes, clock, rentAmount, operationDate);
        RequestsAreMet(q, steps[1..], original, operationDate);
      case _ =>
        OtherStepKeeps(p.account, original, p.changes, clock, steps[0]);
        RequestsAreMet(q, steps[1..], original, clock);
    } else {
      hide InBook;
    }
  }

  // From creation on, over any run whose operation dates follow the clock: every accepted request re-rents
  // exactly the bills due on or after its payment date, those for the rent the lease already had included.
  lemma EveryRequestIsMet(lease: Lease, steps: seq<AccountStep>, clock: Day)
    requires WellFormed(lease)
    requires FollowsClock(clock, steps)
    ensures var end := RequestedRun(Progress(NewAccount(lease), []), steps);
            && LiveRent(end.account.bills) == ScheduledLines(RentPeriods(lease), lease.rentAmount, end.changes)
            && end.account == Run(Progress(NewAccount(lease), []), steps).account
  {
    hide *;
    NewAccountInBook(lease);
    NewIsRequested(lease, clock);
    RequestsAreMet(Progress(NewAccount(lease), []), steps, lease.rentAmount, clock);
    SameAccounts(Progress(NewAccount(lease), []), Progress(NewAccount(lease), []), steps);
    RunKeepsTerms(Progress(NewAccount(lease), []), steps);
    BookedLines(lease, RequestedRun(Progress(NewAccount(lease), []), steps));
  }

  lemma NewIsRequested(lease: Lease, clock: Day)
    requires WellFormed(lease) && InBook(NewAccount(lease), lease.rentAmount, [])
    ensures Requested(NewAccount(lease), lease.rentAmount, [], clock)
    ensures NewAccount(lease).lease == lease
  {
    hide InBook;
  }

  lemma BookedLines(lease: Lease, end: Progress)
    requires WellFormed(lease) && InBook(end.account, lease.rentAmount, end.changes)
    requires var m := end.account.lease;
             lease.startDate == m.startDate && lease.endDate == m.endDate && lease.rentCadence == m.rentCadence
    ensures LiveRent(end.account.bills) == ScheduledLines(RentPeriods(lease), lease.rentAmount, end.changes)
  {
    SamePeriods(lease, end.account.lease);
    hide RentPeriods, ElectricitySpans;
  }

  lemma {:induction false} SameAccounts(p: Progress, q: Progress, steps: seq<AccountStep>)
    requires p.account == q.account
    ensures RequestedRun(p, steps).account == Run(q, steps).account
    decreases |steps|
  {
    if steps != [] {
      hide AfterStep, ChangesAfter, RequestsAfter;
      SameAccounts(Progress(AfterStep(p.account, steps[0]), RequestsAfter(p.account, p.changes, steps[0])),
                   Progress(AfterStep(q.account, steps[0]), ChangesAfter(q.account, q.changes, steps[0])), steps[1..]);
    }
  }

  // The order of the dates is needed: with a date that goes back, raising the rent from the second bill on
  // and then asking for the same rent from the lease start leaves the first bill at the original rent.
  lemma EarlierRequestIsIgnored(lease: Lease, rentAmount: int)
    requires WellFormed(lease) && lease.status == Active
    requires 0 < rentAmount != lease.rentAmount
    ensures var raised := AfterStep(NewAccount(lease), UpdateRent(rentAmount, lease.startDate));
            var again := AfterStep(raised, UpdateRent(rentAmount, lease.startDate - 1));
            && again.lease.rentAmount == rentAmount
            && |LiveRent(again.bills)| > 0
            && LiveRent(again.bills)[0].period.due == lease.startDate
            && LiveRent(again.bills)[0].amount == Some(lease.rentAmount)
    ensures FirstPointAfter(PaymentGrid(lease.startDate, lease.rentCadence), lease.startDate, lease.startDate - 1)
            == lease.startDate
  {
    hide *;
    var r := UpdatedRent(NewAccount(lease), rentAmount, lease.startDate);
    NewAccountInBook(lease);
    RaisedOnce(lease, rentAmount);
    RaisedIsWellFormed(lease, rentAmount);
    UpdateKeepsBook(NewAccount(lease), lease.rentAmount, [], rentAmount, lease.startDate);
    SameRentIsUnchanged(r.value.account, rentAmount, lease.startDate - 1);
    FirstLineKeepsRent(r.value.account, lease.rentAmount, RentChange(r.value.from, rentAmount));
    FirstPointIsStart(lease);
  }

  lemma RaisedOnce(lease: Lease, rentAmount: int)
    requires WellFormed(lease) && lease.status == Active
    requires 0 < rentAmount != lease.rentAmount
    ensures var r := UpdatedRent(NewAccount(lease), rentAmount, lease.startDate);
            && r.Success? && r.value.Changed? && r.value.from > lease.startDate
            && r.value.account.lease == lease.(rentAmount := rentAmount, version := lease.version + 1)
            && AfterStep(NewAccount(lease), UpdateRent(rentAmount, lease.startDate)) == r.value.account
  {
    NormalizedWellFormed(lease);
    NewBillsArePending(lease);
    hide RentSchedule, NewAccount, PaymentGrid, NormalizeState, VoidRentFrom, RentSeeds;
    NewLeaseAccount(lease);
    if PaymentDate(lease, lease.startDate) <= lease.endDate {
      RestIsScheduled(PaymentDate(lease, lease.startDate), lease.endDate, lease);
    }
  }

  lemma RaisedIsWellFormed(lease: Lease, rentAmount: int)
    requires WellFormed(lease) && rentAmount > 0
    ensures WellFormed(lease.(rentAmount := rentAmount, version := lease.version + 1))
  {
  }

  lemma NewLeaseAccount(lease: Lease)
    requires WellFormed(lease)
    ensures NewAccount(lease).lease == lease
  {
  }

  lemma NewBillsArePending(lease: Lease)
    requires WellFormed(lease)
    ensures forall b | b in NewAccount(lease).bills :: IsPending(b.status)
  {
    hide RentPeriods, ElectricitySpans, WellFormed;
  }

  lemma SameRentIsUnchanged(a: Account, rentAmount: int, operationDate: Day)
    requires WellFormed(a.lease) && a.lease.status == Active && a.lease.rentAmount == rentAmount
    ensures UpdatedRent(a, rentAmount, operationDate) == Success(Unchanged)
    ensures AfterStep(a, UpdateRent(rentAmount, operationDate)) == a
  {
    NormalizedWellFormed(a.lease);
    hide NormalizeState, RentSchedule, FirstPointAfter, PaymentGrid, HasLockedRent;
  }

  lemma FirstLineKeepsRent(a: Account, original: int, change: RentChange)
    requires InBook(a, original, [] + [change]) && change.from > a.lease.startDate
    ensures |LiveRent(a.bills)| > 0 && LiveRent(a.bills)[0].period.due == a.lease.startDate
    ensures LiveRent(a.bills)[0].amount == Some(original)
  {
    hide *;
    BookLines(a, original, [] + [change]);
    FirstPeriodIsDueAtStart(a.lease);
    FirstLine(RentPeriods(a.lease), original, change);
  }

  lemma BookLines(a: Account, original: int, changes: seq<RentChange>)
    requires InBook(a, original, changes)
    ensures WellFormed(a.lease) && LiveRent(a.bills) == ScheduledLines(RentPeriods(a.lease), original, changes)
  {
    hide RentPeriods, ElectricitySpans, LiveRent, ElectricityPeriods, ScheduledLines;
  }

  lemma FirstLine(periods: seq<BillingPeriod>, original: int, change: RentChange)
    requires periods != [] && periods[0].due < change.from
    ensures var lines := ScheduledLines(periods, original, [] + [change]);
            lines != [] && lines[0] == RentLine(periods[0], Some(original))
  {
    assert [] + [change] == [change] && [change][..0] == [];
    assert RentAt(original, [change], periods[0].due) == RentAt(original, [], periods[0].due);
  }

  lemma FirstPointIsStart(lease: Lease)
    ensures FirstPointAfter(PaymentGrid(lease.startDate, lease.rentCadence), lease.startDate, lease.startDate - 1)
            == lease.startDate
  {
    hide PaymentGrid;
  }

  lemma FirstPeriodIsDueAtStart(lease: Lease)
    requires WellFormed(lease)
    ensures |RentPeriods(lease)| > 0 && RentPeriods(lease)[0].due == lease.startDate
  {
  }
}
