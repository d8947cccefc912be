/**
 internal/domain/lease/aggregate.go and the records the lease services work on. A lease and its bills
 are kept together as an account; a bill is identified by its position in the account.
 */
module Leases {
  import opened Basics
  import opened Schedules
  import opened BillingPeriods

  datatype LeaseStatus = Active | Expired | Terminated | ForceTerminated

  datatype DepositStatus = DepositHeld | DepositSettled | DepositWrittenOff

  datatype BillKind = Rent | Electricity

  datatype BillStatus = PendingMeter | PendingPayment | Paid | Overdue | Voided | WrittenOff

  datatype Lease = Lease(
    tenant: nat,
    room: nat,
    property: nat,
    rentAmount: int,
    startDate: Day,
    endDate: Day,
    rentCadence: Cadence,
    electricityCadence: Cadence,
    startingReading: Option<int>,
    status: LeaseStatus,
    depositAmount: int,
    refundAmount: Option<int>,
    deductionAmount: Option<int>,
    depositStatus: DepositStatus,
    deductionReason: Option<string>,
    terminationReason: Option<string>,
    version: nat)

  datatype Meter = Meter(previous: int, current: int, unitPrice: real)

  datatype Bill = Bill(
    kind: BillKind,
    status: BillStatus,
    amount: Option<int>,
    period: BillingPeriod,
    meter: Option<Meter>,
    paidAmount: Option<int>,
    version: nat)

  datatype Account = Account(lease: Lease, bills: seq<Bill>)

  datatype LeaseError =
    | LeaseNotFound
    | TenantNotFound
    | RoomNotFound
    | RoomNotVacant
    | LeaseNotActive
    | Invalid(error: BillingError)
    | RentAmountNonPositive
    | DepositNegative
    | DepositNotHeld
    | SettlementNegative
    | DepositReasonRequired
    | DepositSettlementSum
    | TerminationReasonRequired
    | ReplacementReasonInvalid
    | InvalidDepositHandling
    | DepositHandlingRequired
    | TerminationDateInvalid
    | StartingReadingInvalid
    | LockedBills
    | UnsupportedUpdate
    | RentCadenceRequired
    | UnsupportedDepositHandling
    | ScopeMismatch
    | NotAtBillingBoundary
    | UnsettledBills(bills: seq<nat>)
    | UnpaidBills(bills: seq<nat>)

  predicate IsLive(status: LeaseStatus) {
    status == Active || status == Expired
  }

  // ---------- What the aggregate accepts ----------

  // The cadence a text names.
  function CadenceOf(text: string): Cadence {
    if text == "monthly" then Monthly
    else if text == "bimonthly" then Bimonthly
    else if text == "quarterly" then Quarterly
    else if text == "semiannual" then Semiannual
    else if text == "annual" then Annual
    else OtherCadence(text)
  }

  function TrimCadence(cadence: Cadence): Cadence {
    if cadence.OtherCadence? then CadenceOf(TrimSpace(cadence.text)) else cadence
  }

  lemma TrimCadenceIdempotent(cadence: Cadence)
    ensures TrimCadence(TrimCadence(cadence)) == TrimCadence(cadence)
  {
    if cadence.OtherCadence? {
      TrimSpaceIdempotent(cadence.text);
    }
  }

  function RentCadenceOrMonthly(cadence: Cadence): Cadence {
    if TrimCadence(cadence) == OtherCadence("") then Monthly else TrimCadence(cadence)
  }

  function NormalizeState(l: Lease): Result<Lease, LeaseError> {
    var n := l.(rentCadence := RentCadenceOrMonthly(l.rentCadence),
        electricityCadence := TrimCadence(l.electricityCadence));
    if n.startDate > n.endDate then Failure(Invalid(InvalidDateRange))
    else if n.rentAmount <= 0 then Failure(RentAmountNonPositive)
    else if n.depositAmount < 0 then Failure(DepositNegative)
    else if !IsRentCadence(n.rentCadence) then Failure(Invalid(InvalidRentBillingCadence))
    else if !IsElectricityCadence(n.electricityCadence) then Failure(Invalid(InvalidElectricityBillingCadence))
    else Success(n)
  }

  predicate WellFormed(l: Lease) {
    && l.startDate <= l.endDate
    && l.rentAmount > 0
    && l.depositAmount >= 0
    && IsRentCadence(l.rentCadence)
    && IsElectricityCadence(l.electricityCadence)
  }

  lemma NormalizedIsWellFormed(l: Lease)
    requires NormalizeState(l).Success?
    ensures WellFormed(NormalizeState(l).value)
  {
  }

  function ChangedRent(l: Lease, rentAmount: int): Result<Lease, LeaseError> {
    if l.status != Active then Failure(LeaseNotActive)
    else if rentAmount <= 0 then Failure(RentAmountNonPositive)
    else Success(l.(rentAmount := rentAmount))
  }

  function SettledDeposit(l: Lease, refund: int, deduction: int, reason: Option<string>): Result<Lease, LeaseError> {
    if l.depositStatus != DepositHeld then Failure(DepositNotHeld)
    else if refund < 0 || deduction < 0 then Failure(SettlementNegative)
    else if deduction > 0 && TrimOptional(reason).None? then Failure(DepositReasonRequired)
    else if refund + deduction != l.depositAmount then Failure(DepositSettlementSum)
    else Success(l.(refundAmount := Some(refund),
                    deductionAmount := Some(deduction),
                    deductionReason := if deduction > 0 then TrimOptional(reason) else None,
                    depositStatus := DepositSettled))
  }

  function TerminatedLease(l: Lease): Result<Lease, LeaseError> {
    if !IsLive(l.status) then Failure(LeaseNotActive) else Success(l.(status := Terminated))
  }

  datatype DepositHandling = WriteOffDeposit | KeepDepositHeld | OtherHandling(text: string)

  function ForceTerminatedLease(l: Lease, reason: string, handling: DepositHandling): Result<Lease, LeaseError> {
    if !IsLive(l.status) then Failure(LeaseNotActive)
    else if TrimSpace(reason) == "" then Failure(TerminationReasonRequired)
    else if handling.OtherHandling? then Failure(InvalidDepositHandling)
    else Success(l.(status := ForceTerminated,
                    depositStatus := if handling.WriteOffDeposit? then DepositWrittenOff else l.depositStatus))
  }

  // ---------- The aggregate ----------

  class LeaseAggregate {
    var state: Lease

    constructor (state: Lease)
      ensures this.state == state
    {
      this.state := state;
    }

    static method Rehydrate(state: Lease) returns (r: Result<LeaseAggregate, LeaseError>)
      ensures r.Success? ==> fresh(r.value) && NormalizeState(state) == Success(r.value.state)
      ensures r.Failure? ==> NormalizeState(state) == Failure(r.error)
    {
      var normalized := NormalizeState(state);
      if normalized.Failure? {
        return Failure(normalized.error);
      }
      var aggregate := new LeaseAggregate(normalized.value);
      return Success(aggregate);
    }

    // A new lease starts active with its deposit held.
    static method New(state: Lease) returns (r: Result<LeaseAggregate, LeaseError>)
      ensures r.Success? ==>
                fresh(r.value) && NormalizeState(state.(status := Active, depositStatus := DepositHeld))
                    == Success(r.value.state)
      ensures r.Failure? ==> NormalizeState(state) == Failure(r.error)
    {
      r := Rehydrate(state.(status := Active, depositStatus := DepositHeld));
    }

    method ChangeRent(rentAmount: int) returns (r: Result<(), LeaseError>)
      modifies this
      ensures r.Success? ==> ChangedRent(old(state), rentAmount) == Success(state)
      ensures r.Failure? ==> ChangedRent(old(state), rentAmount) == Failure(r.error) && state == old(state)
    {
      if state.status != Active {
        return Failure(LeaseNotActive);
      }
      if rentAmount <= 0 {
        return Failure(RentAmountNonPositive);
      }
      state := state.(rentAmount := rentAmount);
      return Success(());
    }

    method SettleDeposit(refund: int, deduction: int, deductionReason: Option<string>)
      returns (r: Result<(), LeaseError>)
      modifies this
      ensures r.Success? ==> SettledDeposit(old(state), refund, deduction, deductionReason) == Success(state)
      ensures r.Failure? ==>
                && SettledDeposit(old(state), refund, deduction, deductionReason) == Failure(r.error)
                && state == old(state)
    {
      if state.depositStatus != DepositHeld {
        return Failure(DepositNotHeld);
      }
      if refund < 0 || deduction < 0 {
        return Failure(SettlementNegative);
      }
      if deduction > 0 && TrimOptional(deductionReason).None? {
        return Failure(DepositReasonRequired);
      }
      if refund + deduction != state.depositAmount {
        return Failure(DepositSettlementSum);
      }
      var reason := None;
      if deduction > 0 {
        reason := TrimOptional(deductionReason);
      }
      state := state.(refundAmount := Some(refund), deductionAmount := Some(deduction));
      state := state.(deductionReason := reason, depositStatus := DepositSettled);
      return Success(());
    }

    method Terminate() returns (r: Result<(), LeaseError>)
      modifies this
      ensures r.Success? ==> TerminatedLease(old(state)) == Success(state)
      ensures r.Failure? ==> TerminatedLease(old(state)) == Failure(r.error) && state == old(state)
    {
      if !IsLive(state.status) {
        return Failure(LeaseNotActive);
      }
      state := state.(status := Terminated);
      return Success(());
    }

    method ForceTerminate(reason: string, handling: DepositHandling) returns (r: Result<(), LeaseError>)
      modifies this
      ensures r.Success? ==> ForceTerminatedLease(old(state), reason, handling) == Success(state)
      ensures r.Failure? ==>
                ForceTerminatedLease(old(state), reason, handling) == Failure(r.error) && state == old(state)
    {
      if !IsLive(state.status) {
        return Failure(LeaseNotActive);
      }
      if TrimSpace(reason) == "" {
        return Failure(TerminationReasonRequired);
      }
      match handling {
        case WriteOffDeposit =>
          state := state.(depositStatus := DepositWrittenOff);
        case KeepDepositHeld =>
        case OtherHandling(_) =>
          return Failure(InvalidDepositHandling);
      }
      state := state.(status := ForceTerminated);
      return Success(());
    }
  }
}
