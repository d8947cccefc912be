/**
 internal/application/lease/create_lease.go, update_deposit.go and terminate_lease.go: how a lease
 begins, how its deposit is settled, and how it ends normally or by force.
 */
module Termination {
  import opened Basics
  import opened BillingPeriods
  import opened Leases
  import opened BillLists
  import opened LeaseStore
  import opened Books

  // ---------- Creating a lease ----------

  datatype CreateInput = CreateInput(
    tenant: nat,
    room: nat,
    rentAmount: int,
    startDate: Day,
    endDate: Day,
    depositAmount: int,
    rentCadence: Cadence,
    electricityCadence: Option<Cadence>,
    startingReading: int)

  function RequestedLease(room: Room, input: CreateInput): Lease {
    Lease(input.tenant, input.room, room.property, input.rentAmount, input.startDate, input.endDate,
          RentCadenceOrMonthly(input.rentCadence),
          if input.electricityCadence.Some? then TrimCadence(input.electricityCadence.value) else room.defaultCadence,
          Some(input.startingReading), Active, input.depositAmount, None, None, DepositHeld, None, None, 1)
  }

  function CreateLeaseOutcome(s: Store, input: CreateInput): Result<Outcome, LeaseError> {
    if input.startingReading < 0 then Failure(StartingReadingInvalid)
    else if input.tenant !in s.tenants then Failure(TenantNotFound)
    else if input.room !in s.rooms then Failure(RoomNotFound)
    else if s.rooms[input.room].status != Vacant then Failure(RoomNotVacant)
    else
      var lease := RequestedLease(s.rooms[input.room], input);
      if NormalizeState(lease).Failure? then Failure(NormalizeState(lease).error)
      else
        NormalizedIsWellFormed(lease);
        Success(Outcome(s.(accounts := s.accounts + [NewAccount(NormalizeState(lease).value)]),
                           [LeaseCreated(|s.accounts|, input.room, input.tenant)]))
  }

  method CreateLease(db: LeaseDb, input: CreateInput) returns (r: Result<nat, LeaseError>)
    modifies db
    ensures var outcome := CreateLeaseOutcome(old(db.Contents()), input);
            && (r.Success? <==> outcome.Success?)
            && (r.Success? ==>
                  r.value == |old(db.accounts)|
                      && db.Contents() == Delivered(outcome.value.store, outcome.value.events))
            && (r.Failure? ==> outcome == Failure(r.error) && db.Contents() == old(db.Contents()))
  {
    hide Delivered, RentSchedule, ElectricitySchedule, RentSeeds, ElectricitySeeds;
    if input.startingReading < 0 {
      return Failure(StartingReadingInvalid);
    }
    if input.tenant !in db.tenants {
      return Failure(TenantNotFound);
    }
    if input.room !in db.rooms {
      return Failure(RoomNotFound);
    }
    var room := db.rooms[input.room];
    if room.status != Vacant {
      return Failure(RoomNotVacant);
    }
    var aggregate := LeaseAggregate.New(RequestedLease(room, input));
    if aggregate.Failure? {
      return Failure(aggregate.error);
    }
    var state := aggregate.value.state;
    var id := db.CreateLease(state);
    var rentPeriods := BuildRentBillingPeriods(state.startDate, state.endDate, state.rentCadence);
    var electricityPeriods := BuildBillingPeriods(state.startDate, state.endDate, state.electricityCadence);
    SchedulesSucceed(state);
    var seeds := BuildBillSeeds(state.rentAmount, rentPeriods.value, electricityPeriods.value);
    db.CreateBills(id, seeds);
    assert db.accounts[id] == NewAccount(state);
    assert db.accounts == CreateLeaseOutcome(old(db.Contents()), input).value.store.accounts;
    db.Publish([LeaseCreated(id, input.room, input.tenant)]);
    return Success(id);
  }

  // ---------- Settling a deposit ----------

  // The accounting rows of a deposit settlement: the refund leaves, the deduction stays.
  function DepositEntries(id: nat, refund: int, deduction: int, reason: string): seq<Entry> {
    (if refund > 0 then [Entry(id, DepositRefund, -refund, None)] else [])
    + (if deduction > 0 then [Entry(id, DepositDeduction, deduction, Some(reason))] else [])
  }

  function DepositEvents(id: nat, refund: int, deduction: int): seq<Event> {
    (if refund > 0 then [DepositRefunded(id, refund)] else [])
    + (if deduction > 0 then [DepositDeducted(id, deduction)] else [])
  }

  function ReasonValue(reason: Option<string>): string {
    if reason.Some? then TrimSpace(reason.value) else ""
  }

  method RecordDepositAccountingEntries(db: LeaseDb, id: nat, refund: int, deduction: int, reason: string)
    modifies db`ledger
    ensures db.ledger == old(db.ledger) + DepositEntries(id, refund, deduction, reason)
  {
    if refund == 0 && deduction == 0 {
      return;
    }
    if refund > 0 {
      db.CreateEntry(Entry(id, DepositRefund, -refund, None));
    }
    if deduction > 0 {
      db.CreateEntry(Entry(id, DepositDeduction, deduction, Some(reason)));
    }
  }

  function Magnitude(entries: seq<Entry>): int {
    if entries == [] then 0
    else (if entries[0].amount < 0 then -entries[0].amount else entries[0].amount) + Magnitude(entries[1..])
  }

  // The accounting rows of an accepted settlement account for exactly the deposit.
  lemma SettlementConservesDeposit(l: Lease, id: nat, refund: int, deduction: int, reason: Option<string>)
    requires SettledDeposit(l, refund, deduction, reason).Success?
    ensures Magnitude(DepositEntries(id, refund, deduction, ReasonValue(reason))) == l.depositAmount
  {
    var refunds := if refund > 0 then [Entry(id, DepositRefund, -refund, None)] else [];
    var deductions := if deduction > 0 then [Entry(id, DepositDeduction, deduction, Some(ReasonValue(reason)))] else [];
    assert DepositEntries(id, refund, deduction, ReasonValue(reason)) == refunds + deductions;
    MagnitudeAppend(refunds, deductions);
  }

  lemma {:induction false} MagnitudeAppend(a: seq<Entry>, b: seq<Entry>)
    ensures Magnitude(a + b) == Magnitude(a) + Magnitude(b)
  {
    if a == [] {
      assert a + b == b;
    } else {
      MagnitudeAppend(a[1..], b);
      assert (a + b)[1..] == a[1..] + b;
    }
  }

  function UpdateDepositOutcome(s: Store, id: nat, refund: int, deduction: int,
                                reason: Option<string>): Result<Outcome, LeaseError> {
    if id >= |s.accounts| then Failure(LeaseNotFound)
    else
      var current := s.accounts[id].lease;
      var normalized := NormalizeState(current.(rentCadence := OtherCadence("")));
      if normalized.Failure? then Failure(normalized.error)
      else
        var settled := SettledDeposit(current, refund, deduction, reason);
        if settled.Failure? then Failure(settled.error)
        else
          var lease := settled.value.(version := current.version + 1);
          Success(Outcome(s.(accounts := s.accounts[id := s.accounts[id].(lease := lease)],
                             ledger := s.ledger + DepositEntries(id, refund, deduction, ReasonValue(reason))),
                          DepositEvents(id, refund, deduction)))
  }

  // The repository writes the settlement fields of the aggregate and nothing else.
  function WithSettlement(l: Lease, state: Lease): Lease {
    l.(refundAmount := state.refundAmount, deductionAmount := state.deductionAmount, depositStatus := DepositSettled,
       deductionReason := state.deductionReason, version := l.version + 1)
  }

  // The aggregate settles a lease read without its rent cadence; what is stored is the settled lease.
  lemma SettledAsStored(current: Lease, state: Lease, refund: int, deduction: int, reason: Option<string>)
    requires NormalizeState(current.(rentCadence := OtherCadence(""))) == Success(state)
    ensures var aggregate, stored := SettledDeposit(state, refund, deduction, reason),
            SettledDeposit(current, refund, deduction, reason);
            && (aggregate.Failure? <==> stored.Failure?)
            && (aggregate.Failure? ==> aggregate.error == stored.error)
            && (aggregate.Success? ==>
                  && WithSettlement(current, aggregate.value) == stored.value.(version := current.version + 1)
                  && (TerminatedLease(aggregate.value).Failure? <==> TerminatedLease(stored.value).Failure?)
                  && (TerminatedLease(aggregate.value).Failure? ==>
                      TerminatedLease(aggregate.value).error == TerminatedLease(stored.value).error))
  {
    hide TrimOptional;
  }

  method UpdateDeposit(db: LeaseDb, id: nat, refund: Option<int>, deduction: Option<int>, reason: Option<string>)
    returns (r: Result<(), LeaseError>)
    modifies db
    ensures var outcome := UpdateDepositOutcome(old(db.Contents()), id, if refund.Some? then refund.value else 0,
                                                if deduction.Some? then deduction.value else 0, reason);
            && (r.Success? <==> outcome.Success?)
            && (r.Success? ==> db.Contents() == Delivered(outcome.value.store, outcome.value.events))
            && (r.Failure? ==> outcome == Failure(r.error) && db.Contents() == old(db.Contents()))
  {
    hide Delivered, NormalizeState, SettledDeposit, WithSettlement, DepositEntries, DepositEvents, ReasonValue;
    var refundAmount := if refund.Some? then refund.value else 0;
    var deductionAmount := if deduction.Some? then deduction.value else 0;
    if id >= |db.accounts| {
      return Failure(LeaseNotFound);
    }
    var current := db.accounts[id].lease;
    var rehydrated := LeaseAggregate.Rehydrate(current.(rentCadence := OtherCadence("")));
    if rehydrated.Failure? {
      return Failure(rehydrated.error);
    }
    var aggregate := rehydrated.value;
    SettledAsStored(current, aggregate.state, refundAmount, deductionAmount, reason);
    var settled := aggregate.SettleDeposit(refundAmount, deductionAmount, reason);
    if settled.Failure? {
      return Failure(settled.error);
    }
    db.SetLease(id, WithSettlement(current, aggregate.state));
    RecordDepositAccountingEntries(db, id, refundAmount, deductionAmount, ReasonValue(reason));
    db.Publish(DepositEvents(id, refundAmount, deductionAmount));
    return Success(());
  }

  // ---------- Ending a lease ----------

  predicate IsUnpaid(b: Bill) {
    b.status != Paid && b.status != Voided && b.status != WrittenOff
  }

  function Unpaid(): Bill -> bool {
    b => IsUnpaid(b)
  }

  method UnpaidBillIDs(bills: seq<Bill>) returns (ids: seq<nat>)
    ensures ids == Positions(bills, Unpaid())
  {
    ids := [];
    for i := 0 to |bills|
      invariant ids == Positions(bills[..i], Unpaid())
    {
      assert bills[..i + 1][..i] == bills[..i];
      match bills[i].status {
        case Paid =>
        case Voided =>
        case WrittenOff =>
        case _ => ids := ids + [i];
      }
    }
    assert bills[..|bills|] == bills;
  }

  function TerminateLeaseOutcome(s: Store, id: nat, refund: int, deduction: int, reason: Option<string>,
                                 today: Day): Result<Outcome, LeaseError> {
    if id >= |s.accounts| then Failure(LeaseNotFound)
    else
      var current, bills := s.accounts[id].lease, s.accounts[id].bills;
      if Positions(bills, Unpaid()) != [] then Failure(UnpaidBills(Positions(bills, Unpaid())))
      else
        var normalized := NormalizeState(current.(rentCadence := OtherCadence("")));
        if normalized.Failure? then Failure(normalized.error)
        else
          var settled := SettledDeposit(current, refund, deduction, reason);
          if settled.Failure? then Failure(settled.error)
          else if TerminatedLease(settled.value).Failure? then Failure(TerminatedLease(settled.value).error)
          else
            var lease := settled.value.(status := Terminated, endDate := today,
                                        terminationReason := Some("normal termination"),
                                            version := current.version + 2);
            Success(Outcome(s.(accounts := s.accounts[id := Account(lease, bills)],
                               ledger := s.ledger + DepositEntries(id, refund, deduction, ReasonValue(reason))),
                            DepositEvents(id, refund, deduction) + [LeaseTerminated(id, current.room, current.tenant)]))
  }

  method TerminateLease(db: LeaseDb, id: nat, refund: Option<int>, deduction: Option<int>, reason: Option<string>,
                        today: Day)
    returns (r: Result<(), LeaseError>)
    modifies db
    ensures var outcome := TerminateLeaseOutcome(old(db.Contents()), id, if refund.Some? then refund.value else 0,
                                                 if deduction.Some? then deduction.value else 0, reason, today);
            && (r.Success? <==> outcome.Success?)
            && (r.Success? ==> db.Contents() == Delivered(outcome.value.store, outcome.value.events))
            && (r.Failure? ==> outcome == Failure(r.error) && db.Contents() == old(db.Contents()))
  {
    hide Delivered, Positions, NormalizeState, SettledDeposit, TerminatedLease, WithSettlement, DepositEntries,
        DepositEvents, ReasonValue;
    var refundAmount := if refund.Some? then refund.value else 0;
    var deductionAmount := if deduction.Some? then deduction.value else 0;
    if id >= |db.accounts| {
      return Failure(LeaseNotFound);
    }
    var current := db.accounts[id].lease;
    var unpaid := UnpaidBillIDs(db.accounts[id].bills);
    if |unpaid| > 0 {
      return Failure(UnpaidBills(unpaid));
    }
    var rehydrated := LeaseAggregate.Rehydrate(current.(rentCadence := OtherCadence("")));
    if rehydrated.Failure? {
      return Failure(rehydrated.error);
    }
    var aggregate := rehydrated.value;
    SettledAsStored(current, aggregate.state, refundAmount, deductionAmount, reason);
    var settled := aggregate.SettleDeposit(refundAmount, deductionAmount, reason);
    if settled.Failure? {
      return Failure(settled.error);
    }
    var state := aggregate.state;
    var terminated := aggregate.Terminate();
    if terminated.Failure? {
      return Failure(terminated.error);
    }
    db.SetLease(id, WithSettlement(current, state));
    var stored := db.accounts[id].lease;
    db.SetLease(id, stored.(status := Terminated, endDate := today,
                            terminationReason := Some("normal termination"), version := stored.version + 1));
    RecordDepositAccountingEntries(db, id, refundAmount, deductionAmount, ReasonValue(reason));
    assert db.Contents() == TerminateLeaseOutcome(old(db.Contents()), id, refundAmount, deductionAmount, reason,
        today).value.store;
    db.Publish(DepositEvents(id, refundAmount, deductionAmount) + [LeaseTerminated(id, current.room, current.tenant)]);
    return Success(());
  }

  // WriteOffBills: the bills at the given positions, unless paid or voided.
  function WrittenOffAt(bills: seq<Bill>, ids: seq<nat>): seq<Bill> {
    seq(|bills|, i requires 0 <= i < |bills| =>
      if i in ids && bills[i].status != Paid && bills[i].status != Voided
      then bills[i].(status := WrittenOff, version := bills[i].version + 1) else bills[i])
  }

  // "強制終止押金沒收", then the reason.
  function WriteOffDescription(reason: string): string {
    "\U{5F37}\U{5236}\U{7D42}\U{6B62}\U{62BC}\U{91D1}\U{6C92}\U{6536}" + (if reason != "" then "\U{FF1A}" + reason
        else "")
  }

  function WriteOffEntries(id: nat, l: Lease, reason: string, handling: DepositHandling): seq<Entry> {
    if handling.WriteOffDeposit? && l.depositAmount != 0
    then [Entry(id, DepositDeduction, l.depositAmount, Some(WriteOffDescription(reason)))] else []
  }

  // The deposit handling a text names.
  function HandlingOf(text: string): DepositHandling {
    if text == "write_off" then WriteOffDeposit
    else if text == "keep_held" then KeepDepositHeld
    else OtherHandling(text)
  }

  function TrimHandling(handling: DepositHandling): DepositHandling {
    if handling.OtherHandling? then HandlingOf(TrimSpace(handling.text)) else handling
  }

  function ForceTerminateOutcome(s: Store, id: nat, reason: string, handling: DepositHandling,
                                 date: Day): Result<Outcome, LeaseError> {
    var trimmed, chosen := TrimSpace(reason), TrimHandling(handling);
    if trimmed == "" then Failure(TerminationReasonRequired)
    else if chosen == OtherHandling("") then Failure(DepositHandlingRequired)
    else if id >= |s.accounts| then Failure(LeaseNotFound)
    else
      var current, bills := s.accounts[id].lease, s.accounts[id].bills;
      if date < current.startDate then Failure(TerminationDateInvalid)
      else
        var normalized := NormalizeState(current.(rentCadence := OtherCadence("")));
        if normalized.Failure? then Failure(normalized.error)
        else
          var forced := ForceTerminatedLease(current, trimmed, chosen);
          if forced.Failure? then Failure(forced.error)
          else
            var lease := forced.value.(endDate := date, terminationReason := Some(trimmed),
                version := current.version + 1);
            Success(Outcome(s.(accounts := s.accounts[id := Account(lease,
                WrittenOffAt(bills, Positions(bills, Unpaid())))],
                               ledger := s.ledger + WriteOffEntries(id, lease, trimmed, chosen)),
                            [LeaseTerminated(id, current.room, current.tenant)]))
  }

  method ForceTerminateLease(db: LeaseDb, id: nat, reason: string, handling: DepositHandling, date: Day)
    returns (r: Result<(), LeaseError>)
    modifies db
    ensures var outcome := ForceTerminateOutcome(old(db.Contents()), id, reason, handling, date);
            && (r.Success? <==> outcome.Success?)
            && (r.Success? ==> db.Contents() == Delivered(outcome.value.store, outcome.value.events))
            && (r.Failure? ==> outcome == Failure(r.error) && db.Contents() == old(db.Contents()))
  {
    hide Delivered, Positions, WriteOffDescription, WrittenOffAt, TrimSpace, TrimHandling;
    var trimmed := TrimSpace(reason);
    if trimmed == "" {
      return Failure(TerminationReasonRequired);
    }
    var chosen := TrimHandling(handling);
    if chosen == OtherHandling("") {
      return Failure(DepositHandlingRequired);
    }
    if id >= |db.accounts| {
      return Failure(LeaseNotFound);
    }
    var current := db.accounts[id].lease;
    if date < current.startDate {
      return Failure(TerminationDateInvalid);
    }
    var rehydrated := LeaseAggregate.Rehydrate(current.(rentCadence := OtherCadence("")));
    if rehydrated.Failure? {
      return Failure(rehydrated.error);
    }
    var aggregate := rehydrated.value;
    TrimSpaceIdempotent(reason);
    var forced := aggregate.ForceTerminate(trimmed, chosen);
    if forced.Failure? {
      return Failure(forced.error);
    }
    var billIDs := UnpaidBillIDs(db.accounts[id].bills);
    db.WriteOffBills(id, WrittenOffAt(db.accounts[id].bills, billIDs));
    db.SetLease(id, current.(status := ForceTerminated, endDate := date, depositStatus := aggregate.state.depositStatus,
                             terminationReason := Some(trimmed), version := current.version + 1));
    if chosen.WriteOffDeposit? && current.depositAmount != 0 {
      db.CreateEntry(Entry(id, DepositDeduction, current.depositAmount, Some(WriteOffDescription(trimmed))));
    }
    assert db.Contents() == ForceTerminateOutcome(old(db.Contents()), id, reason, handling, date).value.store;
    db.Publish([LeaseTerminated(id, current.room, current.tenant)]);
    return Success(());
  }

  // However a lease ends, no bill of it is left unpaid.
  lemma TerminationLeavesNothingUnpaid(s: Store, id: nat, refund: int, deduction: int, reason: Option<string>,
                                       today: Day)
    requires TerminateLeaseOutcome(s, id, refund, deduction, reason, today).Success?
    ensures var after := TerminateLeaseOutcome(s, id, refund, deduction, reason, today).value.store;
            && forall b | b in after.accounts[id].bills :: !IsUnpaid(b)
    ensures var after := TerminateLeaseOutcome(s, id, refund, deduction, reason, today).value.store;
            && s.ledger <= after.ledger
            && Magnitude(after.ledger[|s.ledger|..]) == s.accounts[id].lease.depositAmount
    ensures var after := TerminateLeaseOutcome(s, id, refund, deduction, reason, today).value.store;
            var l := after.accounts[id].lease;
            && l.status == Terminated && l.endDate == today && l.terminationReason == Some("normal termination")
            && l.depositStatus == DepositSettled && l.refundAmount == Some(refund)
                && l.deductionAmount == Some(deduction)
            && refund + deduction == l.depositAmount && (deduction > 0 ==> l.deductionReason.Some?)
            && forall i | 0 <= i < |s.accounts| && i != id :: after.accounts[i] == s.accounts[i]
  {
    hide Positions, Magnitude;
    NoPositions(s.accounts[id].bills, Unpaid());
    SettlementConservesDeposit(s.accounts[id].lease, id, refund, deduction, reason);
    var after := TerminateLeaseOutcome(s, id, refund, deduction, reason, today).value.store;
    assert after.ledger[|s.ledger|..] == DepositEntries(id, refund, deduction, ReasonValue(reason));
    forall b | b in after.accounts[id].bills
      ensures !IsUnpaid(b)
    {
      assert !Unpaid()(b);
    }
  }

  lemma ForcedTerminationLeavesNothingUnpaid(s: Store, id: nat, reason: string, handling: DepositHandling, date: Day)
    requires ForceTerminateOutcome(s, id, reason, handling, date).Success?
    ensures var after := ForceTerminateOutcome(s, id, reason, handling, date).value.store;
            && |after.accounts[id].bills| == |s.accounts[id].bills|
            && forall i | 0 <= i < |s.accounts[id].bills| ::
                 !IsUnpaid(after.accounts[id].bills[i])
                     && (!IsUnpaid(s.accounts[id].bills[i]) ==> after.accounts[id].bills[i] == s.accounts[id].bills[i])
    ensures var after := ForceTerminateOutcome(s, id, reason, handling, date).value.store;
            var was, l := s.accounts[id].lease, after.accounts[id].lease;
            && was.startDate <= date == l.endDate && l.status == ForceTerminated
            && l.terminationReason == Some(TrimSpace(reason)) && TrimSpace(reason) != ""
            && l.depositStatus == (if TrimHandling(handling).WriteOffDeposit? then DepositWrittenOff
                else was.depositStatus)
            && s.ledger <= after.ledger
            && Magnitude(after.ledger[|s.ledger|..])
                == (if TrimHandling(handling).WriteOffDeposit? then was.depositAmount else 0)
            && forall i | 0 <= i < |s.accounts| && i != id :: after.accounts[i] == s.accounts[i]
  {
    hide Positions, WriteOffDescription, TrimHandling, TrimSpace;
    var bills := s.accounts[id].bills;
    forall i: nat | i < |bills|
      ensures i in Positions(bills, Unpaid()) <==> IsUnpaid(bills[i])
    {
      PositionsSelect(bills, Unpaid(), i);
    }
  }
}
