/**
 internal/application/lease/update_lease.go: a rent change voids the future rent bills and regenerates
 them from the next payment date.
 */
module RentUpdates {
  import opened Basics
  import opened Calendar
  import opened Schedules
  import opened BillingPeriods
  import opened Leases
  import opened BillLists
  import opened LeaseStore

  // ---------- The update of one account ----------

  datatype RentUpdate = Unchanged | Changed(account: Account, from: Day)

  function UpdatedRent(a: Account, rentAmount: int, operationDate: Day): Result<RentUpdate, LeaseError> {
    var normalized := NormalizeState(a.lease);
    if normalized.Failure? then Failure(normalized.error)
    else
      var changed := ChangedRent(normalized.value, rentAmount);
      if changed.Failure? then Failure(changed.error)
      else if a.lease.rentAmount == rentAmount then Success(Unchanged)
      else
        var state := changed.value;
        var next := FirstPointAfter(PaymentGrid(state.startDate, state.rentCadence), state.startDate, operationDate);
        var lease := a.lease.(rentAmount := rentAmount, version := a.lease.version + 1);
        if next > state.endDate then Success(Changed(Account(lease, a.bills), next))
        else if HasLockedRent(a.bills, next) then Failure(LockedBills)
        else
          var periods := RentSchedule(next, state.endDate, state.rentCadence, DayOfMonth(state.startDate));
          Success(Changed(Account(lease, VoidRentFrom(a.bills, next) + RentSeeds(periods.value, rentAmount)), next))
  }

  function UpdateLeaseOutcome(s: Store, id: nat, rentAmount: Option<int>, endDate: Option<Day>,
                              rentCadence: Option<Cadence>, operationDate: Day): Result<Outcome, LeaseError> {
    if endDate.Some? || rentCadence.Some? || rentAmount.None? then Failure(UnsupportedUpdate)
    else if id >= |s.accounts| then Failure(LeaseNotFound)
    else
      var r := UpdatedRent(s.accounts[id], rentAmount.value, operationDate);
      if r.Failure? then Failure(r.error)
      else if r.value.Unchanged? then Success(Outcome(s, []))
      else Success(Outcome(s.(accounts := s.accounts[id := r.value.account]),
                           [LeaseConditionChanged(id, rentAmount.value, r.value.from)]))
  }

  lemma RestIsScheduled(from: Day, until: Day, state: Lease)
    requires from <= until && IsRentCadence(state.rentCadence)
    ensures RentSchedule(from, until, state.rentCadence, DayOfMonth(state.startDate)).Success?
  {
  }

  lemma NothingToDeliver(s: Store)
    ensures Delivered(s, []) == s
  {
  }

  method UpdateLease(db: LeaseDb, id: nat, rentAmount: Option<int>, endDate: Option<Day>,
                     rentCadence: Option<Cadence>, operationDate: Day)
    returns (r: Result<(), LeaseError>)
    modifies db
    ensures var outcome := UpdateLeaseOutcome(old(db.Contents()), id, rentAmount, endDate, rentCadence, operationDate);
            && (r.Success? <==> outcome.Success?)
            && (r.Success? ==> db.Contents() == Delivered(outcome.value.store, outcome.value.events))
            && (r.Failure? ==> outcome == Failure(r.error) && db.Contents() == old(db.Contents()))
  {
    hide Delivered, RentSchedule, RentSeeds, VoidRentFrom, HasLockedRent, FirstPointAfter, PaymentGrid, DayOfMonth,
        IsRentCadence;
    if endDate.Some? || rentCadence.Some? || rentAmount.None? {
      return Failure(UnsupportedUpdate);
    }
    if id >= |db.accounts| {
      return Failure(LeaseNotFound);
    }
    var current := db.accounts[id].lease;
    var rehydrated := LeaseAggregate.Rehydrate(current);
    if rehydrated.Failure? {
      return Failure(rehydrated.error);
    }
    var aggregate := rehydrated.value;
    var changed := aggregate.ChangeRent(rentAmount.value);
    if changed.Failure? {
      return Failure(changed.error);
    }
    if current.rentAmount == aggregate.state.rentAmount {
      NothingToDeliver(db.Contents());
      return Success(());
    }
    var state := aggregate.state;
    var nextPaymentDate := NextRentPaymentDateAfter(current.startDate, operationDate, state.rentCadence);
    if nextPaymentDate <= current.endDate {
      if HasLockedRent(db.accounts[id].bills, nextPaymentDate) {
        return Failure(LockedBills);
      }
    }
    db.SetLease(id, current.(rentAmount := state.rentAmount, version := current.version + 1));
    if nextPaymentDate <= current.endDate {
      db.VoidRentBillsFromDueDate(id, nextPaymentDate);
      var periods := BuildRentBillingPeriodsFromAnchor(nextPaymentDate, current.endDate, state.rentCadence,
          DayOfMonth(current.startDate));
      RestIsScheduled(nextPaymentDate, current.endDate, state);
      var bills := BuildRentBillSeeds(state.rentAmount, periods.value);
      db.CreateBills(id, bills);
    }
    assert db.Contents() == UpdateLeaseOutcome(old(db.Contents()), id, rentAmount, endDate, rentCadence,
        operationDate).value.store;
    db.Publish([LeaseConditionChanged(id, state.rentAmount, nextPaymentDate)]);
    return Success(());
  }
}
