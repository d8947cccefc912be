/**
 When a lease is created, its deposit settled and a lease ended, and what is then stored and announced,
 field by field (internal/application/lease/create_lease.go, update_deposit.go and terminate_lease.go).
 */
module LeaseTerms {
  import opened Basics
  import opened BillingPeriods
  import opened Leases
  import opened BillLists
  import opened LeaseStore
  import opened Books
  import opened Termination

  predicate IsOneOfRent(cadence: Cadence) {
    cadence == Monthly || cadence == Quarterly || cadence == Semiannual || cadence == Annual
  }

  predicate IsOneOfElectricity(cadence: Cadence) {
    cadence == Monthly || cadence == Bimonthly
  }

  // ---------- The bills of a new lease ----------

  // A new lease owes one pending rent bill for each rent period, in order, and then awaits one reading for
  // each electricity period; nothing is metered or paid.
  ghost predicate AllUnpaid(l: Lease, bills: seq<Bill>)
    requires WellFormed(l)
  {
    var rent, electricity := RentPeriods(l), ElectricitySpans(l);
    && |bills| == |rent| + |electricity|
    && (forall i | 0 <= i < |rent| ::
          bills[i] == Bill(Rent, PendingPayment, Some(l.rentAmount), rent[i], None, None, 1))
    && (forall i | |rent| <= i < |bills| ::
          bills[i] == Bill(Electricity, PendingMeter, None, electricity[i - |rent|], None, None, 1))
  }

  lemma NewBillsAreUnpaid(l: Lease)
    requires WellFormed(l)
    ensures AllUnpaid(l, NewAccount(l).bills)
  {
    hide RentPeriods, ElectricitySpans, WellFormed;
  }

  // ---------- Creating a lease ----------

  // The electricity cadence of a new lease: as requested, or else the default of the room.
  function ElectricityOf(room: Room, input: CreateInput): Cadence {
    TrimCadence(if input.electricityCadence.Some? then input.electricityCadence.value else room.defaultCadence)
  }

  // Every answer to a request for a new lease, in the order of the checks.
  lemma CreationIsAccepted(s: Store, input: CreateInput)
    ensures var r, known := CreateLeaseOutcome(s, input), input.tenant in s.tenants;
            && (r == Failure(StartingReadingInvalid) <==> input.startingReading < 0)
            && (r == Failure(TenantNotFound) <==> input.startingReading >= 0 && !known)
            && (r == Failure(RoomNotFound) <==> input.startingReading >= 0 && known && input.room !in s.rooms)
            && (r == Failure(RoomNotVacant)
                <==> && input.startingReading >= 0 && known && input.room in s.rooms
                     && s.rooms[input.room].status != Vacant)
            && (r.Success?
                <==> && input.startingReading >= 0 && known && input.room in s.rooms
                     && s.rooms[input.room].status == Vacant
                     && input.startDate <= input.endDate && input.rentAmount > 0 && input.depositAmount >= 0
                     && (IsOneOfRent(TrimCadence(input.rentCadence))
                         || TrimCadence(input.rentCadence) == OtherCadence(""))
                     && IsOneOfElectricity(ElectricityOf(s.rooms[input.room], input)))
  {
    hide TrimCadence, NewAccount;
    TrimCadenceIdempotent(input.rentCadence);
    EmptyIsTrimmed();
    if input.electricityCadence.Some? {
      TrimCadenceIdempotent(input.electricityCadence.value);
    }
  }

  lemma EmptyIsTrimmed()
    ensures TrimCadence(Monthly) == Monthly
  {
  }

  // The refusal of unsound terms of a new lease: dates, rent, deposit, rent cadence, electricity cadence.
  lemma UnsoundTermsAreNamed(s: Store, input: CreateInput)
    requires input.startingReading >= 0 && input.tenant in s.tenants
    requires input.room in s.rooms && s.rooms[input.room].status == Vacant
    ensures var r, rent := CreateLeaseOutcome(s, input), TrimCadence(input.rentCadence);
            && (input.startDate > input.endDate ==> r == Failure(Invalid(InvalidDateRange)))
            && (input.startDate <= input.endDate && input.rentAmount <= 0 ==> r == Failure(RentAmountNonPositive))
            && (input.startDate <= input.endDate && input.rentAmount > 0 ==>
                  && (input.depositAmount < 0 ==> r == Failure(DepositNegative))
                  && (input.depositAmount >= 0 && !IsOneOfRent(rent) && rent != OtherCadence("") ==>
                        r == Failure(Invalid(InvalidRentBillingCadence)))
                  && (input.depositAmount >= 0 && (IsOneOfRent(rent) || rent == OtherCadence("")) && r.Failure? ==>
                        r == Failure(Invalid(InvalidElectricityBillingCadence))))
  {
    hide TrimCadence, NewAccount;
    TrimCadenceIdempotent(input.rentCadence);
    EmptyIsTrimmed();
  }

  // The lease that is added has what was asked for, with the bills of a new lease; one event is published
  // and nothing else changes.
  lemma CreatedTerms(s: Store, input: CreateInput)
    requires CreateLeaseOutcome(s, input).Success?
    ensures input.room in s.rooms
    ensures var o := CreateLeaseOutcome(s, input).value;
            && |o.store.accounts| == |s.accounts| + 1
            && o.store == s.(accounts := s.accounts + [o.store.accounts[|s.accounts|]])
            && o.events == [LeaseCreated(|s.accounts|, input.room, input.tenant)]
            && var l, room := o.store.accounts[|s.accounts|].lease, s.rooms[input.room];
               && l.tenant == input.tenant && l.room == input.room && l.property == room.property
               && l.rentAmount == input.rentAmount && l.startDate == input.startDate && l.endDate == input.endDate
               && l.rentCadence == (if TrimCadence(input.rentCadence) == OtherCadence("") then Monthly
                   else TrimCadence(input.rentCadence))
               && l.electricityCadence == ElectricityOf(room, input)
               && l.startingReading == Some(input.startingReading)
               && l.status == Active && l.depositAmount == input.depositAmount && l.depositStatus == DepositHeld
               && l.refundAmount == l.deductionAmount == None && l.deductionReason == l.terminationReason == None
               && l.version == 1
               && WellFormed(l) && AllUnpaid(l, o.store.accounts[|s.accounts|].bills)
  {
    hide NewAccount, TrimCadence, WellFormed, AllUnpaid;
    var l := NormalizeState(RequestedLease(s.rooms[input.room], input)).value;
    CreatedCadences(s.rooms[input.room], input);
    NormalizedIsWellFormed(RequestedLease(s.rooms[input.room], input));
    NewLeaseAccount(l);
    NewBillsAreUnpaid(l);
  }

  lemma CreatedCadences(room: Room, input: CreateInput)
    requires NormalizeState(RequestedLease(room, input)).Success?
    ensures var l := NormalizeState(RequestedLease(room, input)).value;
            && l.rentCadence == (if TrimCadence(input.rentCadence) == OtherCadence("") then Monthly
                else TrimCadence(input.rentCadence))
            && l.electricityCadence == ElectricityOf(room, input)
  {
    hide TrimCadence;
    TrimCadenceIdempotent(input.rentCadence);
    EmptyIsTrimmed();
    if input.electricityCadence.Some? {
      TrimCadenceIdempotent(input.electricityCadence.value);
    }
  }

  // ---------- Settling the deposit ----------

  // A stored lease the aggregate can be built from, whatever its rent cadence.
  predicate IsInOrder(l: Lease) {
    && l.startDate <= l.endDate && l.rentAmount > 0 && l.depositAmount >= 0
    && IsOneOfElectricity(TrimCadence(l.electricityCadence))
  }

  lemma InOrderMeansNormalized(l: Lease)
    ensures NormalizeState(l.(rentCadence := OtherCadence(""))).Success? <==> IsInOrder(l)
  {
    NoCadenceIsMonthly();
    hide TrimCadence;
  }

  lemma NoCadenceIsMonthly()
    ensures TrimCadence(OtherCadence("")) == OtherCadence("")
  {
  }

  // The deposit can be settled by this refund and this deduction.
  predicate SettlesDeposit(l: Lease, refund: int, deduction: int, reason: Option<string>) {
    && l.depositStatus == DepositHeld
    && refund >= 0 && deduction >= 0 && refund + deduction == l.depositAmount
    && (deduction > 0 ==> HasText(reason))
  }

  lemma SettlesMeansSettled(l: Lease, refund: int, deduction: int, reason: Option<string>)
    ensures SettledDeposit(l, refund, deduction, reason).Success? <==> SettlesDeposit(l, refund, deduction, reason)
    ensures SettlesDeposit(l, refund, deduction, reason) ==>
              SettledDeposit(l, refund, deduction, reason).value
              == l.(refundAmount := Some(refund), deductionAmount := Some(deduction), depositStatus := DepositSettled,
                    deductionReason := if deduction > 0 then Some(TrimSpace(reason.value)) else None)
  {
    hide TrimSpace;
  }

  // The refusals of a settlement: not held, a negative amount, no reason for a deduction, a wrong sum.
  lemma SettlementRefusals(l: Lease, refund: int, deduction: int, reason: Option<string>)
    ensures var r := SettledDeposit(l, refund, deduction, reason);
            && (r == Failure(DepositNotHeld) <==> l.depositStatus != DepositHeld)
            && (r == Failure(SettlementNegative) <==> l.depositStatus == DepositHeld && (refund < 0 || deduction < 0))
            && (r == Failure(DepositReasonRequired)
                <==> l.depositStatus == DepositHeld && refund >= 0 && deduction > 0 && !HasText(reason))
            && (r == Failure(DepositSettlementSum)
                <==> && l.depositStatus == DepositHeld && refund >= 0 && deduction >= 0
                     && (deduction > 0 ==> HasText(reason)) && refund + deduction != l.depositAmount)
  {
    hide TrimSpace;
  }

  // The rows of a settlement: a refund leaves the account, a deduction with its reason enters it.
  ghost predicate SettlementRows(rows: seq<Entry>, id: nat, refund: int, deduction: int, reason: string) {
    && |rows| == (if refund > 0 then 1 else 0) + (if deduction > 0 then 1 else 0)
    && (refund > 0 ==> rows[0] == Entry(id, DepositRefund, -refund, None))
    && (deduction > 0 ==> rows[|rows| - 1] == Entry(id, DepositDeduction, deduction, Some(reason)))
  }

  ghost predicate SettlementEvents(events: seq<Event>, id: nat, refund: int, deduction: int) {
    && |events| == (if refund > 0 then 1 else 0) + (if deduction > 0 then 1 else 0)
    && (refund > 0 ==> events[0] == DepositRefunded(id, refund))
    && (deduction > 0 ==> events[|events| - 1] == DepositDeducted(id, deduction))
  }

  lemma SettlementIsBooked(id: nat, refund: int, deduction: int, reason: string)
    ensures SettlementRows(DepositEntries(id, refund, deduction, reason), id, refund, deduction, reason)
    ensures SettlementEvents(DepositEvents(id, refund, deduction), id, refund, deduction)
  {
  }

  function Text(reason: Option<string>): string {
    if reason.Some? then TrimSpace(reason.value) else ""
  }

  // A deposit is settled exactly on these terms; the settlement is stored, booked and announced, and
  // nothing else changes.
  lemma DepositIsSettled(s: Store, id: nat, refund: int, deduction: int, reason: Option<string>)
    ensures var r := UpdateDepositOutcome(s, id, refund, deduction, reason);
            && (r == Failure(LeaseNotFound) <==> id >= |s.accounts|)
            && (r.Success?
                <==> && id < |s.accounts| && IsInOrder(s.accounts[id].lease)
                     && SettlesDeposit(s.accounts[id].lease, refund, deduction, reason))
            && (id < |s.accounts| && IsInOrder(s.accounts[id].lease) && r.Failure? ==>
                  SettledDeposit(s.accounts[id].lease, refund, deduction, reason) == Failure(r.error))
            && (r.Success? ==>
                  var after, was := r.value.store, s.accounts[id];
                  && after == s.(accounts := s.accounts[id := after.accounts[id]], ledger := after.ledger)
                  && after.accounts[id] == was.(lease := was.lease.(refundAmount := Some(refund),
                      deductionAmount := Some(deduction), depositStatus := DepositSettled,
                      deductionReason := if deduction > 0 then Some(TrimSpace(reason.value)) else None,
                      version := was.lease.version + 1))
                  && s.ledger <= after.ledger
                  && SettlementRows(after.ledger[|s.ledger|..], id, refund, deduction, Text(reason))
                  && SettlementEvents(r.value.events, id, refund, deduction))
  {
    if id < |s.accounts| {
      InOrderMeansNormalized(s.accounts[id].lease);
      SettlesMeansSettled(s.accounts[id].lease, refund, deduction, reason);
      SettlementRefusals(s.accounts[id].lease, refund, deduction, reason);
    }
    SettlementIsBooked(id, refund, deduction, Text(reason));
    hide NormalizeState, IsInOrder, SettledDeposit, SettlesDeposit, DepositEntries, DepositEvents, SettlementRows,
         SettlementEvents, TrimSpace, HasText;
    assert ReasonValue(reason) == Text(reason);
  }

  // ---------- Ending a lease ----------

  predicate IsOwed(b: Bill) {
    b.status == PendingMeter || b.status == PendingPayment || b.status == Overdue
  }

  lemma OwedAreUnpaid(bills: seq<Bill>)
    ensures Positions(bills, Unpaid()) == [] <==> forall b | b in bills :: !IsOwed(b)
    ensures forall i: nat :: i in Positions(bills, Unpaid()) <==> i < |bills| && IsOwed(bills[i])
  {
    NoPositions(bills, Unpaid());
    forall i: nat {
      PositionsSelect(bills, Unpaid(), i);
    }
    hide Positions;
  }

  // A lease ends normally exactly when it is active or expired, owes nothing and its deposit is settled
  // with it; otherwise, if it owes anything, it is refused with those bills.
  lemma TerminationIsAccepted(s: Store, id: nat, refund: int, deduction: int, reason: Option<string>, today: Day)
    ensures var r := TerminateLeaseOutcome(s, id, refund, deduction, reason, today);
            && (r == Failure(LeaseNotFound) <==> id >= |s.accounts|)
            && (r.Success?
                <==> && id < |s.accounts| && (forall b | b in s.accounts[id].bills :: !IsOwed(b))
                     && IsInOrder(s.accounts[id].lease)
                     && SettlesDeposit(s.accounts[id].lease, refund, deduction, reason)
                     && (s.accounts[id].lease.status == Active || s.accounts[id].lease.status == Expired))
            && (id < |s.accounts| && (forall b | b in s.accounts[id].bills :: !IsOwed(b))
                && IsInOrder(s.accounts[id].lease) && r.Failure? ==>
                  if SettlesDeposit(s.accounts[id].lease, refund, deduction, reason) then r == Failure(LeaseNotActive)
                  else SettledDeposit(s.accounts[id].lease, refund, deduction, reason) == Failure(r.error))
            && (id < |s.accounts| && (exists b | b in s.accounts[id].bills :: IsOwed(b)) ==>
                  && r.Failure? && r.error.UnpaidBills?
                  && forall i: nat ::
                       i in r.error.bills <==> i < |s.accounts[id].bills| && IsOwed(s.accounts[id].bills[i]))
  {
    if id < |s.accounts| {
      OwedAreUnpaid(s.accounts[id].bills);
      InOrderMeansNormalized(s.accounts[id].lease);
      SettlesMeansSettled(s.accounts[id].lease, refund, deduction, reason);
      SettlementRefusals(s.accounts[id].lease, refund, deduction, reason);
      RefusedState(s.accounts[id].lease);
    }
    hide NormalizeState, IsInOrder, SettledDeposit, SettlesDeposit, DepositEntries, DepositEvents, Positions, IsOwed,
         TrimSpace, HasText;
  }

  lemma RefusedState(l: Lease)
    ensures var r := NormalizeState(l.(rentCadence := OtherCadence("")));
            r.Failure? ==> r.error != LeaseNotFound && !r.error.UnpaidBills?
  {
    hide TrimCadence;
  }

  // A terminated lease is stored with its settlement, today's date and the reason; its bills stay.
  lemma TerminatedTerms(s: Store, id: nat, refund: int, deduction: int, reason: Option<string>, today: Day)
    requires TerminateLeaseOutcome(s, id, refund, deduction, reason, today).Success?
    ensures id < |s.accounts|
    ensures var o, was := TerminateLeaseOutcome(s, id, refund, deduction, reason, today).value, s.accounts[id];
            && |o.store.accounts| == |s.accounts|
            && o.store == s.(accounts := s.accounts[id := o.store.accounts[id]], ledger := o.store.ledger)
            && o.store.accounts[id] == was.(lease := was.lease.(status := Terminated, endDate := today,
                terminationReason := Some("normal termination"), refundAmount := Some(refund),
                deductionAmount := Some(deduction), depositStatus := DepositSettled,
                deductionReason := if deduction > 0 then Some(TrimSpace(reason.value)) else None,
                version := was.lease.version + 2))
            && s.ledger <= o.store.ledger
            && SettlementRows(o.store.ledger[|s.ledger|..], id, refund, deduction, Text(reason))
            && |o.events| > 0 && SettlementEvents(o.events[..|o.events| - 1], id, refund, deduction)
            && o.events[|o.events| - 1] == LeaseTerminated(id, was.lease.room, was.lease.tenant)
  {
    if id < |s.accounts| {
      SettlesMeansSettled(s.accounts[id].lease, refund, deduction, reason);
    }
    SettlementIsBooked(id, refund, deduction, Text(reason));
    hide NormalizeState, SettledDeposit, SettlesDeposit, DepositEntries, DepositEvents, SettlementRows,
         SettlementEvents, Positions, TrimSpace, HasText;
    assert ReasonValue(reason) == Text(reason);
    var o := TerminateLeaseOutcome(s, id, refund, deduction, reason, today).value;
    assert o.events[..|o.events| - 1] == DepositEvents(id, refund, deduction);
  }

  // ---------- Ending a lease by force ----------

  // The names of the two ways to handle the deposit.
  lemma HandlingNames(text: string)
    ensures var handling := TrimHandling(OtherHandling(text));
            && (handling == WriteOffDeposit <==> TrimSpace(text) == "write_off")
            && (handling == KeepDepositHeld <==> TrimSpace(text) == "keep_held")
            && (handling.OtherHandling? ==> handling.text == TrimSpace(text))
  {
    hide TrimSpace;
  }

  // A lease is ended by force exactly when it is active or expired, on or after its start, with a reason
  // and one of the two ways to handle the deposit.
  lemma ForcedTerminationIsAccepted(s: Store, id: nat, reason: string, handling: DepositHandling, date: Day)
    ensures var r, chosen := ForceTerminateOutcome(s, id, reason, handling, date), TrimHandling(handling);
            && (r.Success?
                <==> && TrimSpace(reason) != "" && !chosen.OtherHandling? && id < |s.accounts|
                     && IsInOrder(s.accounts[id].lease) && s.accounts[id].lease.startDate <= date
                     && (s.accounts[id].lease.status == Active || s.accounts[id].lease.status == Expired))
            && (r == Failure(TerminationReasonRequired) <==> TrimSpace(reason) == "")
            && (r == Failure(DepositHandlingRequired) <==> TrimSpace(reason) != "" && chosen == OtherHandling(""))
            && (r == Failure(LeaseNotFound)
                <==> TrimSpace(reason) != "" && chosen != OtherHandling("") && id >= |s.accounts|)
            && (r == Failure(TerminationDateInvalid)
                <==> && TrimSpace(reason) != "" && chosen != OtherHandling("") && id < |s.accounts|
                     && date < s.accounts[id].lease.startDate)
            && (r == Failure(LeaseNotActive)
                <==> && TrimSpace(reason) != "" && chosen != OtherHandling("") && id < |s.accounts|
                     && IsInOrder(s.accounts[id].lease) && s.accounts[id].lease.startDate <= date
                     && s.accounts[id].lease.status != Active && s.accounts[id].lease.status != Expired)
            && (r == Failure(InvalidDepositHandling)
                <==> && TrimSpace(reason) != "" && chosen.OtherHandling? && chosen.text != "" && id < |s.accounts|
                     && IsInOrder(s.accounts[id].lease) && s.accounts[id].lease.startDate <= date
                     && (s.accounts[id].lease.status == Active || s.accounts[id].lease.status == Expired))
  {
    TrimSpaceIdempotent(reason);
    if id < |s.accounts| {
      InOrderMeansNormalized(s.accounts[id].lease);
      NormalizationErrors(s.accounts[id].lease);
    }
    hide NormalizeState, IsInOrder, TrimHandling, TrimSpace, Positions, WrittenOffAt, WriteOffEntries;
  }

  lemma NormalizationErrors(l: Lease)
    ensures var r := NormalizeState(l.(rentCadence := OtherCadence("")));
            r.Failure? ==> r.error.Invalid? || r.error == RentAmountNonPositive || r.error == DepositNegative
  {
    hide TrimCadence;
  }

  // What is owed is written off, and nothing else.
  ghost predicate OwedWrittenOff(was: seq<Bill>, bills: seq<Bill>) {
    && |bills| == |was|
    && forall i | 0 <= i < |was| ::
         bills[i] == if IsOwed(was[i]) then was[i].(status := WrittenOff, version := was[i].version + 1) else was[i]
  }

  lemma OwedIsWrittenOff(bills: seq<Bill>)
    ensures OwedWrittenOff(bills, WrittenOffAt(bills, Positions(bills, Unpaid())))
  {
    OwedAreUnpaid(bills);
    hide Positions;
  }

  // A lease ended by force is stored with its date and reason, what it owes is written off, and a deposit
  // that is written off is booked once as a deduction.
  lemma ForcedTerms(s: Store, id: nat, reason: string, handling: DepositHandling, date: Day)
    requires ForceTerminateOutcome(s, id, reason, handling, date).Success?
    ensures id < |s.accounts|
    ensures var o, was := ForceTerminateOutcome(s, id, reason, handling, date).value, s.accounts[id];
            var gone := TrimHandling(handling) == WriteOffDeposit;
            && |o.store.accounts| == |s.accounts|
            && o.store == s.(accounts := s.accounts[id := o.store.accounts[id]], ledger := o.store.ledger)
            && o.store.accounts[id].lease == was.lease.(status := ForceTerminated, endDate := date,
                terminationReason := Some(TrimSpace(reason)),
                depositStatus := if gone then DepositWrittenOff else was.lease.depositStatus,
                version := was.lease.version + 1)
            && OwedWrittenOff(was.bills, o.store.accounts[id].bills)
            && s.ledger <= o.store.ledger
            && (if gone && was.lease.depositAmount != 0 then
                 && |o.store.ledger| == |s.ledger| + 1
                 && var row := o.store.ledger[|s.ledger|];
                    && row.lease == id && row.category == DepositDeduction && row.amount == was.lease.depositAmount
                    && row.description == Some("強制終止押金沒收：" + TrimSpace(reason))
               else o.store.ledger == s.ledger)
            && o.events == [LeaseTerminated(id, was.lease.room, was.lease.tenant)]
  {
    TrimSpaceIdempotent(reason);
    if id < |s.accounts| {
      OwedIsWrittenOff(s.accounts[id].bills);
    }
    WriteOffText(TrimSpace(reason));
    hide NormalizeState, TrimHandling, TrimSpace, Positions, WrittenOffAt, WriteOffDescription, OwedWrittenOff;
  }

  lemma WriteOffText(reason: string)
    ensures reason != "" ==> WriteOffDescription(reason) == "強制終止押金沒收：" + reason
  {
    if reason != "" {
      assert WriteOffDescription(reason) == "強制終止押金沒收" + ("：" + reason);
    }
  }
}
