/**
 What an accepted replacement stores and announces, field by field
 (internal/application/lease/replace_lease.go, internal/platform/database/leases/repository.go).
 */
module ReplacementTerms {
  import opened Basics
  import opened BillingPeriods
  import opened Leases
  import opened BillLists
  import opened LeaseStore
  import opened Books
  import opened LeaseTerms
  import opened Replacement
  import opened ReplacementTheorems

  // ---------- The successor ----------

  // The successor takes over tenant, room, property and deposit, and has the requested terms otherwise.
  lemma SuccessorTerms(s: Store, input: ReplaceInput)
    requires ReplaceLeaseOutcome(s, input).Success?
    ensures var after := ReplaceLeaseOutcome(s, input).value.store;
            && input.lease < |s.accounts| && |after.accounts| == |s.accounts| + 1
            && var was, l := s.accounts[input.lease].lease, after.accounts[|s.accounts|].lease;
               && l.tenant == was.tenant && l.room == was.room && l.property == was.property
               && l.depositAmount == was.depositAmount && l.depositStatus == DepositHeld && l.status == Active
               && l.rentAmount == input.newRentAmount
               && l.startDate == input.effectiveStart && l.endDate == input.newEndDate
               && l.rentCadence == TrimCadence(input.newRentCadence)
               && l.electricityCadence == TrimCadence(input.newElectricityCadence)
               && l.startingReading == Some(0) && l.version == 1
               && l.refundAmount == l.deductionAmount == None
               && l.deductionReason == l.terminationReason == None
               && WellFormed(l) && AllUnpaid(l, after.accounts[|s.accounts|].bills)
  {
    hide *;
    StoredSuccessor(s, input);
    var l := s.accounts[input.lease].lease;
    NewBillsAreUnpaid(SuccessorOf(l, input));
    NewLeaseAccount(SuccessorOf(l, input));
    SuccessorFields(l, input);
  }

  lemma StoredSuccessor(s: Store, input: ReplaceInput)
    requires ReplaceLeaseOutcome(s, input).Success?
    ensures var after := ReplaceLeaseOutcome(s, input).value.store;
            && input.lease < |s.accounts| && |after.accounts| == |s.accounts| + 1
            && var successor := SuccessorOf(s.accounts[input.lease].lease, input);
               && WellFormed(successor) && NormalizeState(successor) == Success(successor)
               && after.accounts[|s.accounts|] == NewAccount(successor)
  {
    SuccessorIsNormalized(s.accounts[input.lease].lease, input);
    hide IsBoundary, Positions, SuccessorOf, NormalizeState, TrimCadence, TrimSpace, IsReplacementReason, NewAccount,
        VoidPendingFrom, ChangedFields, WellFormed;
  }

  lemma SuccessorFields(was: Lease, input: ReplaceInput)
    ensures var l := SuccessorOf(was, input);
            && l.tenant == was.tenant && l.room == was.room && l.property == was.property
            && l.depositAmount == was.depositAmount && l.depositStatus == DepositHeld && l.status == Active
            && l.rentAmount == input.newRentAmount
            && l.startDate == input.effectiveStart && l.endDate == input.newEndDate
            && l.rentCadence == TrimCadence(input.newRentCadence)
            && l.electricityCadence == TrimCadence(input.newElectricityCadence)
            && l.startingReading == Some(0) && l.version == 1
            && l.refundAmount == l.deductionAmount == None && l.deductionReason == l.terminationReason == None
  {
    hide TrimCadence;
  }

  // ---------- The predecessor ----------

  // The bills of a replaced lease: pending ones that end on or after the boundary are voided, no other
  // bill changes.
  ghost predicate PendingVoided(was: seq<Bill>, bills: seq<Bill>, boundary: Day) {
    && |bills| == |was|
    && forall i | 0 <= i < |was| ::
         bills[i] == if was[i].period.last >= boundary
             && (was[i].status == PendingPayment || was[i].status == PendingMeter)
                     then was[i].(status := Voided, version := was[i].version + 1) else was[i]
  }

  lemma VoidedPending(was: seq<Bill>, boundary: Day)
    ensures PendingVoided(was, VoidPendingFrom(was, boundary), boundary)
  {
  }

  // The names of the terms that changed, in this order.
  function Place(field: string): int {
    if field == "rent_amount" then 1
    else if field == "end_date" then 2
    else if field == "electricity_billing_cadence" then 3
    else if field == "rent_billing_cadence" then 4
    else 0
  }

  ghost predicate NamesChanges(was: Lease, l: Lease, fields: seq<string>) {
    && ("rent_amount" in fields <==> was.rentAmount != l.rentAmount)
    && ("end_date" in fields <==> was.endDate != l.endDate)
    && ("electricity_billing_cadence" in fields <==> was.electricityCadence != l.electricityCadence)
    && ("rent_billing_cadence" in fields <==> was.rentCadence != l.rentCadence)
    && (forall field | field in fields :: Place(field) > 0)
    && (forall i, j | 0 <= i < j < |fields| :: Place(fields[i]) < Place(fields[j]))
  }

  lemma NamedChanges(was: Lease, l: Lease)
    ensures NamesChanges(was, l, ChangedFields(was, l))
  {
    DistinctPlaces();
    hide Place;
  }

  lemma DistinctPlaces()
    ensures Place("rent_amount") == 1 && Place("end_date") == 2 && Place("electricity_billing_cadence") == 3
    ensures Place("rent_billing_cadence") == 4
  {
  }

  // The predecessor ends the day before with the reason on record, its pending bills from the boundary on
  // are voided, and nothing else in the store changes but the successor that is added.
  lemma PredecessorTerms(s: Store, input: ReplaceInput)
    requires ReplaceLeaseOutcome(s, input).Success?
    ensures var after := ReplaceLeaseOutcome(s, input).value.store;
            && input.lease < |s.accounts| && |after.accounts| == |s.accounts| + 1
            && after == s.(accounts := s.accounts[input.lease := after.accounts[input.lease]]
                                       + [after.accounts[|s.accounts|]])
            && var was := s.accounts[input.lease].lease;
               && after.accounts[input.lease].lease
                  == was.(status := Terminated, endDate := input.effectiveStart - 1, version := was.version + 1,
                          terminationReason := Some("lease replacement: " + TrimSpace(input.reason)))
               && PendingVoided(s.accounts[input.lease].bills, after.accounts[input.lease].bills, input.effectiveStart)
  {
    VoidedPending(s.accounts[input.lease].bills, input.effectiveStart);
    hide IsBoundary, Positions, SuccessorOf, NormalizeState, TrimCadence, TrimSpace, IsReplacementReason, NewAccount,
        VoidPendingFrom, ChangedFields, WellFormed, PendingVoided;
  }

  // The termination comes before the creation, and both before the replacement that joins them.
  lemma ReplacementEvents(s: Store, input: ReplaceInput)
    requires ReplaceLeaseOutcome(s, input).Success?
    ensures var o := ReplaceLeaseOutcome(s, input).value;
            && input.lease < |s.accounts| < |o.store.accounts| && |o.events| == 3
            && var was, l := s.accounts[input.lease].lease, o.store.accounts[|s.accounts|].lease;
               && o.events[0] == LeaseTerminated(input.lease, was.room, was.tenant)
               && o.events[1] == LeaseCreated(|s.accounts|, was.room, was.tenant)
               && o.events[2].LeaseReplaced?
               && o.events[2].oldLease == input.lease && o.events[2].newLease == |s.accounts|
               && o.events[2].reason == TrimSpace(input.reason)
               && NamesChanges(was, l, o.events[2].changedFields)
  {
    hide *;
    StoredSuccessor(s, input);
    var was := s.accounts[input.lease].lease;
    NewLeaseAccount(SuccessorOf(was, input));
    StoredEvents(s, input);
    NamedChanges(was, SuccessorOf(was, input));
  }

  lemma StoredEvents(s: Store, input: ReplaceInput)
    requires ReplaceLeaseOutcome(s, input).Success? && input.lease < |s.accounts|
    requires var successor := SuccessorOf(s.accounts[input.lease].lease, input);
             NormalizeState(successor) == Success(successor)
    ensures var was := s.accounts[input.lease].lease;
            ReplaceLeaseOutcome(s, input).value.events
            == [LeaseTerminated(input.lease, was.room, was.tenant), LeaseCreated(|s.accounts|, was.room, was.tenant),
                LeaseReplaced(input.lease, |s.accounts|, TrimSpace(input.reason),
                    ChangedFields(was, SuccessorOf(was, input)))]
  {
    hide IsBoundary, Positions, SuccessorOf, NormalizeState, TrimCadence, TrimSpace, IsReplacementReason, NewAccount,
        VoidPendingFrom, ChangedFields, WellFormed;
  }

  // ---------- The refusals ----------

  // On a kept book, every answer to a request for a replacement, in the order of the checks.
  lemma ReplacementRefusals(s: Store, input: ReplaceInput, original: int, changes: seq<RentChange>)
    requires input.lease < |s.accounts| ==> InBook(s.accounts[input.lease], original, changes)
    ensures var r := ReplaceLeaseOutcome(s, input);
            if !input.carryDepositOver then r == Failure(UnsupportedDepositHandling)
            else if !IsNamedReason(TrimSpace(input.reason)) then r == Failure(ReplacementReasonInvalid)
            else if TrimCadence(input.newRentCadence) == OtherCadence("") then r == Failure(RentCadenceRequired)
            else if input.lease >= |s.accounts| then r == Failure(LeaseNotFound)
            else
              var l, bills, day := s.accounts[input.lease].lease, s.accounts[input.lease].bills, input.effectiveStart;
              if l.status != Active then r == Failure(LeaseNotActive)
              else if l.depositStatus != DepositHeld then r == Failure(UnsupportedDepositHandling)
              else if l.tenant !in s.tenants then r == Failure(TenantNotFound)
              else if l.room !in s.rooms then r == Failure(RoomNotFound)
              else if s.rooms[l.room].property != l.property then r == Failure(ScopeMismatch)
              else if !IsCommonPoint(l, day) || day > l.endDate + 1 then r == Failure(NotAtBillingBoundary)
              else if exists b | b in bills :: b.period.last < day && b.status != Paid then
                && r.Failure? && r.error.UnsettledBills?
                && forall i: nat ::
                     i in r.error.bills <==> i < |bills| && bills[i].period.last < day && bills[i].status != Paid
              else TermsDecide(l, input, r)
  {
    SameReasons(TrimSpace(input.reason));
    if input.lease < |s.accounts| {
      var a := s.accounts[input.lease];
      WellFormedBook(a, original, changes);
      BoundaryIsExact(a, original, changes, a.bills, input.effectiveStart);
      UnsettledAreUnpaid(a.bills, input.effectiveStart);
      LaterPointIsAfterStart(a.lease, input.effectiveStart);
      if TrimCadence(input.newRentCadence) != OtherCadence("") {
        TermsAreChecked(a.lease, input);
      }
    }
    hide InBook, IsBoundary, GridOf, IsLaterPoint, Positions, SuccessorOf, WellFormed, NormalizeState, IsNamedReason,
         TrimCadence, TrimSpace, IsReplacementReason, NewAccount, VoidPendingFrom, ChangedFields;
  }

  lemma UnsettledAreUnpaid(bills: seq<Bill>, day: Day)
    ensures Positions(bills, IsUnsettled(day)) == []
            <==> forall b | b in bills :: !(b.period.last < day && b.status != Paid)
    ensures forall i: nat ::
              i in Positions(bills, IsUnsettled(day))
              <==> i < |bills| && bills[i].period.last < day && bills[i].status != Paid
  {
    NoPositions(bills, IsUnsettled(day));
    forall i: nat {
      PositionsSelect(bills, IsUnsettled(day), i);
    }
    hide Positions;
  }

  // The answer once everything but the requested terms is in order.
  ghost predicate TermsDecide(l: Lease, input: ReplaceInput, r: Result<Outcome, LeaseError>) {
    var rent, electricity := TrimCadence(input.newRentCadence), TrimCadence(input.newElectricityCadence);
    if input.effectiveStart > input.newEndDate then r == Failure(Invalid(InvalidDateRange))
    else if input.newRentAmount <= 0 then r == Failure(RentAmountNonPositive)
    else if !IsOneOfRent(rent) then r == Failure(Invalid(InvalidRentBillingCadence))
    else if !IsOneOfElectricity(electricity) then r == Failure(Invalid(InvalidElectricityBillingCadence))
    else r.Success?
  }

  lemma TermsAreChecked(l: Lease, input: ReplaceInput)
    requires WellFormed(l) && TrimCadence(input.newRentCadence) != OtherCadence("")
    ensures var n := NormalizeState(SuccessorOf(l, input));
            forall r: Result<Outcome, LeaseError> ::
              (if n.Failure? then r == Failure(n.error) else r.Success?) ==> TermsDecide(l, input, r)
  {
    hide TrimCadence;
    TrimCadenceIdempotent(input.newRentCadence);
    TrimCadenceIdempotent(input.newElectricityCadence);
  }
}
