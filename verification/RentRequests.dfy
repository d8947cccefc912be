/**
 When a rent change is accepted and what it touches (internal/application/lease/update_lease.go and the
 lock and void statements of internal/platform/database/leases/repository.go).
 */
module RentRequests {
  import opened Basics
  import opened Calendar
  import opened Schedules
  import opened BillingPeriods
  import opened Cadences
  import opened Leases
  import opened BillLists
  import opened LeaseStore
  import opened RentUpdates
  import opened Books

  // ---------- The payment date ----------

  // The payment date is the lease start, or so many whole cadences after it, and the first such day after
  // the operation date.
  lemma PaymentDateIsFirst(l: Lease, operationDate: Day) returns (k: nat)
    ensures PaymentDate(l, operationDate) > operationDate
    ensures PaymentDate(l, operationDate) == Point(PaymentGrid(l.startDate, l.rentCadence), l.startDate, k)
    ensures k == 0 ==> PaymentDate(l, operationDate) == l.startDate
    ensures k > 0 ==> PaymentDate(l, operationDate)
                        == match l.rentCadence
                           case Quarterly => Clamp(MonthOf(l.startDate) + 3 * k, DayOfMonth(l.startDate))
                           case Semiannual => Clamp(MonthOf(l.startDate) + 6 * k, DayOfMonth(l.startDate))
                           case Annual => Clamp(MonthOf(l.startDate) + 12 * k, DayOfMonth(l.startDate))
                           case _ => Clamp(MonthOf(l.startDate) + k, DayOfMonth(l.startDate))
    ensures k > 0 ==> Point(PaymentGrid(l.startDate, l.rentCadence), l.startDate, k - 1) <= operationDate
  {
    hide PaymentGrid, Clamp, MonthOf, DayOfMonth;
    var g := PaymentGrid(l.startDate, l.rentCadence);
    k := FirstPointAfterIsLeast(g, l.startDate, operationDate);
    if k > 0 {
      PaymentPoints(l.startDate, l.rentCadence, k);
      assert Point(g, l.startDate, k - 1) > operationDate <==> k - 1 >= k;
    }
  }

  // ---------- Acceptance ----------

  // A rent bill that a change from a day on can no longer replace: it is paid, overdue or written off.
  predicate IsFinal(b: Bill, from: Day) {
    b.kind == Rent && b.period.due >= from && (b.status == Paid || b.status == Overdue || b.status == WrittenOff)
  }

  lemma LockedMeansFinal(bills: seq<Bill>, from: Day)
    ensures HasLockedRent(bills, from) <==> exists b | b in bills :: IsFinal(b, from)
  {
    if b :| b in bills && IsFinal(b, from) {
      assert IsLockedRent(b, from);
    }
  }

  // For a lease in order, every answer to a request to change its rent.
  lemma RentChangeIsAccepted(s: Store, id: nat, rentAmount: int, operationDate: Day)
    requires id < |s.accounts| && WellFormed(s.accounts[id].lease)
    ensures var r, a := UpdateLeaseOutcome(s, id, Some(rentAmount), None, None, operationDate), s.accounts[id];
            var from := PaymentDate(a.lease, operationDate);
            && (r == Failure(LeaseNotActive) <==> a.lease.status != Active)
            && (r == Failure(RentAmountNonPositive) <==> a.lease.status == Active && rentAmount <= 0)
            && (r == Failure(LockedBills)
                <==> && a.lease.status == Active && rentAmount > 0 && rentAmount != a.lease.rentAmount
                     && from <= a.lease.endDate && exists b | b in a.bills :: IsFinal(b, from))
            && (r.Success?
                <==> && a.lease.status == Active && rentAmount > 0
                     && (rentAmount == a.lease.rentAmount || from > a.lease.endDate
                         || forall b | b in a.bills :: !IsFinal(b, from)))
  {
    var a := s.accounts[id];
    NormalizedWellFormed(a.lease);
    LockedMeansFinal(a.bills, PaymentDate(a.lease, operationDate));
    hide WellFormed, NormalizeState, HasLockedRent, IsFinal, FirstPointAfter, PaymentGrid, RentSchedule, VoidRentFrom,
         RentSeeds, DayOfMonth;
  }

  // Only the rent can be changed, and only that of a stored lease.
  lemma OtherChangesAreRefused(s: Store, id: nat, rentAmount: Option<int>, endDate: Option<Day>,
                               rentCadence: Option<Cadence>, operationDate: Day)
    ensures var r := UpdateLeaseOutcome(s, id, rentAmount, endDate, rentCadence, operationDate);
            && (r == Failure(UnsupportedUpdate) <==> endDate.Some? || rentCadence.Some? || rentAmount.None?)
            && (r == Failure(LeaseNotFound)
                <==> endDate.None? && rentCadence.None? && rentAmount.Some? && id >= |s.accounts|)
  {
    hide HasLockedRent, FirstPointAfter, PaymentGrid, RentSchedule, VoidRentFrom, RentSeeds, DayOfMonth,
         IsRentCadence, TrimCadence;
  }

  // ---------- What an accepted change touches ----------

  predicate IsReplaced(b: Bill, from: Day) {
    b.kind == Rent && b.period.due >= from && (b.status == PendingPayment || b.status == PendingMeter)
  }

  // Pending rent bills due from a day on are voided, and the bills added are unpaid bills of the new rent.
  ghost predicate RentBillsReplaced(was: seq<Bill>, bills: seq<Bill>, from: Day, rentAmount: int) {
    && |was| <= |bills|
    && (forall i | 0 <= i < |was| ::
          bills[i] == if IsReplaced(was[i], from) then was[i].(status := Voided, version := was[i].version + 1)
              else was[i])
    && (forall i | |was| <= i < |bills| ::
          && bills[i].period.due >= from
          && bills[i] == Bill(Rent, PendingPayment, Some(rentAmount), bills[i].period, None, None, 1))
  }

  lemma ReplacedBills(was: seq<Bill>, from: Day, periods: seq<BillingPeriod>, rentAmount: int)
    requires forall p | p in periods :: p.due >= from
    ensures RentBillsReplaced(was, VoidRentFrom(was, from) + RentSeeds(periods, rentAmount), from, rentAmount)
  {
    var bills := VoidRentFrom(was, from) + RentSeeds(periods, rentAmount);
    forall i | |was| <= i < |bills|
      ensures bills[i].period.due >= from
      ensures bills[i] == Bill(Rent, PendingPayment, Some(rentAmount), bills[i].period, None, None, 1)
    {
      assert periods[i - |was|] in periods;
    }
  }

  // An accepted change of the rent rewrites the rent of the lease, replaces its rent bills from the payment
  // date on and announces that date; everything else stays as it was.
  lemma RentChangeTouches(s: Store, id: nat, rentAmount: int, operationDate: Day)
    requires id < |s.accounts| && WellFormed(s.accounts[id].lease) && rentAmount != s.accounts[id].lease.rentAmount
    requires UpdateLeaseOutcome(s, id, Some(rentAmount), None, None, operationDate).Success?
    ensures var a, o := s.accounts[id], UpdateLeaseOutcome(s, id, Some(rentAmount), None, None, operationDate).value;
            var from, after := PaymentDate(a.lease, operationDate), o.store;
            && |after.accounts| == |s.accounts|
            && after == s.(accounts := s.accounts[id := after.accounts[id]])
            && after.accounts[id].lease == a.lease.(rentAmount := rentAmount, version := a.lease.version + 1)
            && (from > a.lease.endDate ==> after.accounts[id].bills == a.bills)
            && (from <= a.lease.endDate ==> RentBillsReplaced(a.bills, after.accounts[id].bills, from, rentAmount))
            && o.events == [LeaseConditionChanged(id, rentAmount, from)]
  {
    hide *;
    var a := s.accounts[id];
    ChangedOutcome(s, id, rentAmount, operationDate);
    ChangedParts(a, rentAmount, operationDate);
    SamePayment(a.lease, operationDate);
    var k := ChangedAccount(a, rentAmount, operationDate);
    var periods, from := RentPeriods(a.lease)[k..], PaymentDate(a.lease, operationDate);
    forall p | p in periods
      ensures p.due >= from
    {
      var j :| 0 <= j < |periods| && periods[j] == p;
      assert periods[j] == RentPeriods(a.lease)[k + j];
    }
    ReplacedBills(a.bills, from, periods, rentAmount);
  }

  lemma ChangedOutcome(s: Store, id: nat, rentAmount: int, operationDate: Day)
    requires id < |s.accounts| && WellFormed(s.accounts[id].lease) && rentAmount != s.accounts[id].lease.rentAmount
    requires UpdateLeaseOutcome(s, id, Some(rentAmount), None, None, operationDate).Success?
    ensures var r, o := UpdatedRent(s.accounts[id], rentAmount, operationDate),
            UpdateLeaseOutcome(s, id, Some(rentAmount), None, None, operationDate).value;
            && r.Success? && r.value.Changed?
            && o == Outcome(s.(accounts := s.accounts[id := r.value.account]),
                            [LeaseConditionChanged(id, rentAmount, r.value.from)])
  {
    hide HasLockedRent, FirstPointAfter, PaymentGrid, RentSchedule, VoidRentFrom, RentSeeds, DayOfMonth, NormalizeState;
  }

  lemma SamePayment(l: Lease, operationDate: Day)
    ensures PaymentDate(l, operationDate)
            == FirstPointAfter(PaymentGrid(l.startDate, l.rentCadence), l.startDate, operationDate)
  {
  }

  // A request for the rent the lease has leaves everything as it is.
  lemma SameRentTouchesNothing(s: Store, id: nat, operationDate: Day)
    requires id < |s.accounts| && WellFormed(s.accounts[id].lease) && s.accounts[id].lease.status == Active
    ensures UpdateLeaseOutcome(s, id, Some(s.accounts[id].lease.rentAmount), None, None, operationDate)
            == Success(Outcome(s, []))
  {
    SameRentIsUnchanged(s.accounts[id], s.accounts[id].lease.rentAmount, operationDate);
    hide UpdatedRent;
  }
}
