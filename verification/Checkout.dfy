/**
 internal/application/lease/checkout_settlement.go: the settlement proposal of a checkout, its blockers
 and its electricity calculation, and the command that finalizes a previewed proposal.
 */
module Checkout {
  import opened Basics
  import opened Schedules
  import opened Leases
  import opened Billing
  import opened BillLists
  import opened LeaseStore

  // ---------- The input ----------

  datatype CheckoutInput = CheckoutInput(
    lease: nat,
    checkoutDate: Day,
    actualMoveOut: Option<Day>,
    reason: string,
    finalReading: Option<int>,
    cleaningFee: int,
    keyCardFee: int,
    otherFee: int,
    otherReason: Option<string>,
    rentRefund: int,
    rentRefundReason: Option<string>,
    notes: Option<string>)

  datatype CheckoutError =
    | BadRequest(field: string)
    | NegativeFee
    | NoSuchLease
    | UnitPriceMissing
    | ReadingBelowPrevious
    | Blocked(blockers: seq<Blocker>)
    | Stale
    | Rejected(error: LeaseError)

  function NormalizeInput(input: CheckoutInput): Result<CheckoutInput, CheckoutError> {
    if TrimSpace(input.reason) == "" then Failure(BadRequest("reason"))
    else if input.finalReading.Some? && input.finalReading.value < 0 then Failure(BadRequest("final_meter_reading"))
    else if input.cleaningFee < 0 || input.keyCardFee < 0 || input.otherFee < 0 then Failure(NegativeFee)
    else if input.rentRefund < 0 then Failure(BadRequest("manual_rent_refund_amount"))
    else if input.rentRefund > 0 && TrimOptional(input.rentRefundReason).None?
        then Failure(BadRequest("manual_rent_refund_reason"))
    else Success(input.(reason := TrimSpace(input.reason),
                        otherReason := TrimOptional(input.otherReason),
                        rentRefundReason := TrimOptional(input.rentRefundReason),
                        notes := TrimOptional(input.notes)))
  }

  // ---------- Electricity ----------

  datatype Calculation = Calculation(
    previous: int,
    current: int,
    unitPrice: real,
    amount: int,
    sourceBill: Option<nat>)

  function PendingMeters(): Bill -> bool {
    (b: Bill) => b.status == PendingMeter
  }

  // The single bill awaiting its meter, if it is electricity and ends on the checkout day.
  function ResolvableMeterBill(bills: seq<Bill>, input: CheckoutInput): Option<nat> {
    var pending := Positions(bills, PendingMeters());
    if input.finalReading.Some? && |pending| == 1 && pending[0] < |bills| &&
       bills[pending[0]].kind == Electricity && bills[pending[0]].period.last == input.checkoutDate
    then Some(pending[0])
    else None
  }

  method CheckoutResolvablePendingMeterBill(bills: seq<Bill>, input: CheckoutInput) returns (candidate: Option<nat>)
    ensures candidate == ResolvableMeterBill(bills, input)
  {
    if input.finalReading.None? {
      return None;
    }
    candidate := None;
    assert bills[..|bills|] == bills;
    for i := 0 to |bills|
      invariant Positions(bills[..i], PendingMeters()) == if candidate.Some? then [candidate.value] else []
      invariant candidate.Some? ==>
                  && candidate.value < i
                  && bills[candidate.value].kind == Electricity
                  && bills[candidate.value].period.last == input.checkoutDate
    {
      assert bills[..i + 1][..i] == bills[..i];
      if bills[i].status == PendingMeter {
        FirstPositionsPersist(bills, PendingMeters(), i + 1);
        if candidate.Some? {
          return None;
        }
        if bills[i].kind != Electricity {
          return None;
        }
        if input.checkoutDate != bills[i].period.last {
          return None;
        }
        candidate := Some(i);
      }
    }
  }

  // Positions found among the first bills stay the first positions.
  lemma {:induction false} FirstPositionsPersist(bills: seq<Bill>, selected: Bill -> bool, n: nat)
    requires n <= |bills|
    ensures Positions(bills[..n], selected) <= Positions(bills, selected)
    decreases |bills|
  {
    if n < |bills| {
      FirstPositionsPersist(bills[..|bills| - 1], selected, n);
      assert bills[..|bills| - 1][..n] == bills[..n];
    } else {
      assert bills[..n] == bills;
    }
  }

  predicate OwesPayment(b: Bill) {
    b.status == PendingPayment || b.status == Overdue
  }

  predicate CalculationAllowed(bills: seq<Bill>, input: CheckoutInput) {
    && input.finalReading.Some?
    && (forall b | b in bills :: !OwesPayment(b))
    && ((forall b | b in bills :: b.status != PendingMeter) || ResolvableMeterBill(bills, input).Some?)
  }

  method CheckoutElectricityCalculationAllowed(bills: seq<Bill>, input: CheckoutInput) returns (allowed: bool)
    ensures allowed == CalculationAllowed(bills, input)
  {
    if input.finalReading.None? {
      return false;
    }
    var hasPendingMeter := false;
    for i := 0 to |bills|
      invariant forall j | 0 <= j < i :: !OwesPayment(bills[j])
      invariant hasPendingMeter <==> exists j | 0 <= j < i :: bills[j].status == PendingMeter
    {
      match bills[i].status {
        case PendingPayment =>
          assert bills[i] in bills && OwesPayment(bills[i]);
          return false;
        case Overdue =>
          assert bills[i] in bills && OwesPayment(bills[i]);
          return false;
        case PendingMeter => hasPendingMeter := true;
        case _ =>
      }
    }
    if !hasPendingMeter {
      return true;
    }
    var candidate := CheckoutResolvablePendingMeterBill(bills, input);
    return candidate.Some?;
  }

  function CheckoutElectricity(a: Account, input: CheckoutInput,
                               unitPrice: Option<real>): Result<Option<Calculation>, CheckoutError> {
    if !CalculationAllowed(a.bills, input) then Success(None)
    else
      var source := ResolvableMeterBill(a.bills, input);
      var before := if source.Some? then a.bills[source.value].period.first else input.checkoutDate + 1;
      var previous, current := PreviousReading(a, before), input.finalReading.value;
      if unitPrice.None? then Failure(UnitPriceMissing)
      else if current < previous then Failure(ReadingBelowPrevious)
      else
        var amount := ElectricityAmount(current - previous, unitPrice.value);
        if source.None? && amount == 0 then Success(None)
        else Success(Some(Calculation(previous, current, unitPrice.value, amount, source)))
  }

  // The calculation meters a bill that exists only for it.
  method CalculateCheckoutElectricity(a: Account, input: CheckoutInput, unitPrice: Option<real>)
    returns (r: Result<Option<Calculation>, CheckoutError>)
    ensures r == CheckoutElectricity(a, input, unitPrice)
  {
    if input.finalReading.None? {
      return Success(None);
    }
    var allowed := CheckoutElectricityCalculationAllowed(a.bills, input);
    if !allowed {
      return Success(None);
    }
    var sourceBill := CheckoutResolvablePendingMeterBill(a.bills, input);
    var beforePeriodStart := input.checkoutDate + 1;
    if sourceBill.Some? {
      beforePeriodStart := a.bills[sourceBill.value].period.first;
    }
    var previousReading := PreviousReading(a, beforePeriodStart);
    if unitPrice.None? {
      return Failure(UnitPriceMissing);
    }
    var period := BillingPeriod(beforePeriodStart, input.checkoutDate, input.checkoutDate);
    var aggregate := new BillAggregate(Bill(Electricity, PendingMeter, None, period, None, None, 1));
    var recorded := aggregate.RecordMeter(previousReading, input.finalReading.value, unitPrice.value);
    if recorded.Failure? {
      return Failure(ReadingBelowPrevious);
    }
    var state := aggregate.state;
    if sourceBill.None? && state.amount.value == 0 {
      return Success(None);
    }
    return Success(Some(Calculation(state.meter.value.previous, state.meter.value.current, state.meter.value.unitPrice,
                                    state.amount.value, sourceBill)));
  }

  // ---------- Lines, blockers and totals ----------

  datatype LineKind =
    | DepositRefundLine
    | CleaningFeeLine
    | KeyCardLossLine
    | OtherFeeLine
    | RentRefundLine
    | ElectricityLine

  datatype Direction = Refund | Charge | Info

  datatype Line = Line(
    kind: LineKind,
    direction: Direction,
    amount: int,
    description: Option<string>,
    electricity: Option<Calculation>)

  function WithLine(lines: seq<Line>, present: bool, line: Line): seq<Line> {
    if present then lines + [line] else lines
  }

  function SettlementLines(depositAmount: int, input: CheckoutInput, electricity: Option<Calculation>): seq<Line> {
    var deposit := [Line(DepositRefundLine, Refund, depositAmount, None, None)];
    var cleaned := WithLine(deposit, input.cleaningFee > 0,
        Line(CleaningFeeLine, Charge, input.cleaningFee, None, None));
    var locked := WithLine(cleaned, input.keyCardFee > 0, Line(KeyCardLossLine, Charge, input.keyCardFee, None, None));
    var charged := WithLine(locked, input.otherFee > 0,
        Line(OtherFeeLine, Charge, input.otherFee, input.otherReason, None));
    var refunded := WithLine(charged, input.rentRefund > 0,
        Line(RentRefundLine, Refund, input.rentRefund, input.rentRefundReason, None));
    WithLine(refunded, electricity.Some?, Line(ElectricityLine, Charge, ChargeOf(electricity), None, electricity))
  }

  function ChargeOf(electricity: Option<Calculation>): int {
    if electricity.Some? then electricity.value.amount else 0
  }

  function TotalOf(lines: seq<Line>, direction: Direction): int {
    if lines == [] then 0
    else TotalOf(lines[..|lines| - 1], direction)
         + if lines[|lines| - 1].direction == direction then lines[|lines| - 1].amount else 0
  }

  method CheckoutSettlementTotals(lines: seq<Line>) returns (totalRefund: int, totalCharge: int)
    ensures totalRefund == TotalOf(lines, Refund) && totalCharge == TotalOf(lines, Charge)
  {
    totalRefund, totalCharge := 0, 0;
    for i := 0 to |lines|
      invariant totalRefund == TotalOf(lines[..i], Refund) && totalCharge == TotalOf(lines[..i], Charge)
    {
      assert lines[..i + 1][..i] == lines[..i];
      match lines[i].direction {
        case Refund => totalRefund := totalRefund + lines[i].amount;
        case Charge => totalCharge := totalCharge + lines[i].amount;
        case Info =>
      }
    }
    assert lines[..|lines|] == lines;
  }

  datatype NetDirection = NetRefund | NetPayable | NetZero

  function NetOf(totalRefund: int, totalCharge: int): (NetDirection, int) {
    if totalRefund > totalCharge then (NetRefund, totalRefund - totalCharge)
    else if totalCharge > totalRefund then (NetPayable, totalCharge - totalRefund)
    else (NetZero, 0)
  }

  datatype Blocker =
    | LeaseNotActiveBlocker
    | DepositNotHeldBlocker
    | CheckoutBeforeLeaseStart
    | RentRefundDecisionRequired
    | UnpaidBillBlocker(bill: nat)
    | PendingMeterBlocker(bill: nat)
    | ChargeExceedsDeposit

  function BillBlockers(bills: seq<Bill>, resolvable: Option<nat>): seq<Blocker> {
    if bills == [] then []
    else
      var n := |bills| - 1;
      BillBlockers(bills[..n], resolvable) +
      match bills[n].status
      case PendingPayment => [UnpaidBillBlocker(n)]
      case Overdue => [UnpaidBillBlocker(n)]
      case PendingMeter => if resolvable == Some(n) then [] else [PendingMeterBlocker(n)]
      case _ => []
  }

  function WithBlocker(blockers: seq<Blocker>, present: bool, blocker: Blocker): seq<Blocker> {
    if present then blockers + [blocker] else blockers
  }

  function LeaseBlockers(l: Lease, input: CheckoutInput): seq<Blocker> {
    var inactive := WithBlocker([], !IsLive(l.status), LeaseNotActiveBlocker);
    var unheld := WithBlocker(inactive, l.depositStatus != DepositHeld, DepositNotHeldBlocker);
    var early := WithBlocker(unheld, input.checkoutDate < l.startDate, CheckoutBeforeLeaseStart);
    WithBlocker(early, input.checkoutDate < l.endDate && input.rentRefundReason.None?, RentRefundDecisionRequired)
  }

  function SettlementBlockers(a: Account, input: CheckoutInput, lines: seq<Line>): seq<Blocker> {
    WithBlocker(LeaseBlockers(a.lease, input) + BillBlockers(a.bills, ResolvableMeterBill(a.bills, input)),
                TotalOf(lines, Charge) > a.lease.depositAmount, ChargeExceedsDeposit)
  }

  lemma NoBillsNoBlockers(resolvable: Option<nat>)
    ensures BillBlockers([], resolvable) == []
  {
  }

  lemma BillBlockersStep(bills: seq<Bill>, resolvable: Option<nat>, i: nat)
    requires i < |bills|
    ensures BillBlockers(bills[..i + 1], resolvable)
            == match bills[i].status
               case PendingPayment => BillBlockers(bills[..i], resolvable) + [UnpaidBillBlocker(i)]
               case Overdue => BillBlockers(bills[..i], resolvable) + [UnpaidBillBlocker(i)]
               case PendingMeter =>
                 if resolvable == Some(i) then BillBlockers(bills[..i], resolvable)
                 else BillBlockers(bills[..i], resolvable) + [PendingMeterBlocker(i)]
               case _ => BillBlockers(bills[..i], resolvable)
  {
    assert bills[..i + 1][..i] == bills[..i];
  }

  method CheckoutSettlementBlockers(a: Account, input: CheckoutInput, lines: seq<Line>) returns (blockers: seq<Blocker>)
    ensures blockers == SettlementBlockers(a, input, lines)
  {
    blockers := [];
    if a.lease.status != Active && a.lease.status != Expired {
      blockers := blockers + [LeaseNotActiveBlocker];
    }
    if a.lease.depositStatus != DepositHeld {
      blockers := blockers + [DepositNotHeldBlocker];
    }
    if input.checkoutDate < a.lease.startDate {
      blockers := blockers + [CheckoutBeforeLeaseStart];
    }
    if input.checkoutDate < a.lease.endDate {
      if input.rentRefundReason.None? {
        blockers := blockers + [RentRefundDecisionRequired];
      }
    }
    assert blockers == LeaseBlockers(a.lease, input);
    hide LeaseBlockers, ResolvableMeterBill, TotalOf, BillBlockers;
    ghost var leaseBlockers := blockers;
    ghost var resolvableBill := ResolvableMeterBill(a.bills, input);
    NoBillsNoBlockers(resolvableBill);
    for i := 0 to |a.bills|
      invariant blockers == leaseBlockers + BillBlockers(a.bills[..i], resolvableBill)
    {
      ghost var before := BillBlockers(a.bills[..i], resolvableBill);
      BillBlockersStep(a.bills, resolvableBill, i);
      match a.bills[i].status {
        case PendingPayment =>
          ConcatAssociative(leaseBlockers, before, [UnpaidBillBlocker(i)]);
          blockers := blockers + [UnpaidBillBlocker(i)];
        case Overdue =>
          ConcatAssociative(leaseBlockers, before, [UnpaidBillBlocker(i)]);
          blockers := blockers + [UnpaidBillBlocker(i)];
        case PendingMeter =>
          var resolvable := CheckoutResolvablePendingMeterBill(a.bills, input);
          if resolvable != Some(i) {
            ConcatAssociative(leaseBlockers, before, [PendingMeterBlocker(i)]);
            blockers := blockers + [PendingMeterBlocker(i)];
          }
        case _ =>
      }
    }
    assert a.bills[..|a.bills|] == a.bills;
    var _, totalCharge := CheckoutSettlementTotals(lines);
    if totalCharge > a.lease.depositAmount {
      blockers := blockers + [ChargeExceedsDeposit];
    }
  }

  // ---------- The proposal ----------

  datatype BillView = BillView(kind: BillKind, status: BillStatus, first: Day, last: Day, version: nat)

  // The fields the preview token is computed from; the digest is taken to be injective.
  datatype Token = Token(
    lease: nat,
    leaseVersion: nat,
    input: CheckoutInput,
    bills: seq<BillView>,
    lines: seq<Line>,
    totalRefund: int,
    totalCharge: int,
    depositAmount: int)

  datatype Settlement = Settlement(
    input: CheckoutInput,
    lines: seq<Line>,
    blockers: seq<Blocker>,
    depositAmount: int,
    totalRefund: int,
    totalCharge: int,
    netDirection: NetDirection,
    netAmount: int,
    token: Option<Token>,
    finalized: bool)

  function BillViews(bills: seq<Bill>): seq<BillView> {
    seq(|bills|, i requires 0 <= i < |bills| =>
      BillView(bills[i].kind, bills[i].status, bills[i].period.first, bills[i].period.last, bills[i].version))
  }

  function Proposal(a: Account, input: CheckoutInput, electricity: Option<Calculation>): Settlement {
    var lines := SettlementLines(a.lease.depositAmount, input, electricity);
    var blockers := SettlementBlockers(a, input, lines);
    var totalRefund, totalCharge := TotalOf(lines, Refund), TotalOf(lines, Charge);
    var net := NetOf(totalRefund, totalCharge);
    var token := if blockers == []
                 then Some(Token(input.lease, a.lease.version, input, BillViews(a.bills), lines, totalRefund,
                     totalCharge, a.lease.depositAmount))
                 else None;
    Settlement(input, lines, blockers, a.lease.depositAmount, totalRefund, totalCharge, net.0, net.1, token, false)
  }

  method BuildCheckoutSettlement(a: Account, input: CheckoutInput, electricity: Option<Calculation>)
    returns (settlement: Settlement)
    ensures settlement == Proposal(a, input, electricity)
  {
    var lines := [Line(DepositRefundLine, Refund, a.lease.depositAmount, None, None)];
    if input.cleaningFee > 0 {
      lines := lines + [Line(CleaningFeeLine, Charge, input.cleaningFee, None, None)];
    }
    if input.keyCardFee > 0 {
      lines := lines + [Line(KeyCardLossLine, Charge, input.keyCardFee, None, None)];
    }
    if input.otherFee > 0 {
      lines := lines + [Line(OtherFeeLine, Charge, input.otherFee, input.otherReason, None)];
    }
    if input.rentRefund > 0 {
      lines := lines + [Line(RentRefundLine, Refund, input.rentRefund, input.rentRefundReason, None)];
    }
    if electricity.Some? {
      lines := lines + [Line(ElectricityLine, Charge, electricity.value.amount, None, electricity)];
    }
    assert lines == SettlementLines(a.lease.depositAmount, input, electricity);
    hide SettlementLines, SettlementBlockers;
    var blockers := CheckoutSettlementBlockers(a, input, lines);
    var totalRefund, totalCharge := CheckoutSettlementTotals(lines);
    var net := NetOf(totalRefund, totalCharge);
    settlement := Settlement(input, lines, blockers, a.lease.depositAmount, totalRefund, totalCharge, net.0, net.1,
        None, false);
    if |blockers| == 0 {
      settlement := settlement.(token := Some(Token(input.lease, a.lease.version, input, BillViews(a.bills), lines,
          totalRefund,
                                                    totalCharge, a.lease.depositAmount)));
    }
  }

  function Preview(s: Store, input: CheckoutInput, unitPrice: Option<real>): Result<Settlement, CheckoutError> {
    var normalized := NormalizeInput(input);
    if normalized.Failure? then Failure(normalized.error)
    else if input.lease >= |s.accounts| then Failure(NoSuchLease)
    else
      var electricity := CheckoutElectricity(s.accounts[input.lease], normalized.value, unitPrice);
      if electricity.Failure? then Failure(electricity.error)
      else Success(Proposal(s.accounts[input.lease], normalized.value, electricity.value))
  }
}
