/**
 FinalizeCheckoutSettlementService: recompute the proposal, compare its token with the previewed one,
 settle the deposit, terminate the lease, settle the final electricity and write the accounting rows.
 */
module CheckoutFinalize {
  import opened Basics
  import opened Leases
  import opened Billing
  import opened BillLists
  import opened LeaseStore
  import opened Termination
  import opened Checkout

  // ---------- The text of a deduction ----------

  function Label(kind: LineKind): string {
    match kind
    case DepositRefundLine => "押金退還"
    case CleaningFeeLine => "清潔費"
    case KeyCardLossLine => "門禁卡/鑰匙遺失費"
    case OtherFeeLine => "其他費用"
    case RentRefundLine => "未到期租金手動退回"
    case ElectricityLine => "退租電費結算"
  }

  function ReasonOf(line: Line): string {
    var description := TrimOptional(line.description);
    if description.Some? then Label(line.kind) + ": " + description.value else Label(line.kind)
  }

  predicate IsReason(line: Line, excluded: Option<LineKind>) {
    line.direction == Charge && line.amount > 0 && excluded != Some(line.kind)
  }

  function Reasons(lines: seq<Line>, excluded: Option<LineKind>): seq<string> {
    if lines == [] then []
    else
      var line := lines[|lines| - 1];
      Reasons(lines[..|lines| - 1], excluded) + if IsReason(line, excluded) then [ReasonOf(line)] else []
  }

  function Joined(reasons: seq<string>): string {
    if reasons == [] then ""
    else if |reasons| == 1 then reasons[0]
    else reasons[0] + "、" + Joined(reasons[1..])
  }

  function DeductionReason(lines: seq<Line>, excluded: Option<LineKind>): Option<string> {
    var reasons := Reasons(lines, excluded);
    if reasons == [] then None else Some(Joined(reasons))
  }

  method CheckoutDeductionReasonExcludingKind(lines: seq<Line>, excluded: Option<LineKind>)
    returns (reason: Option<string>)
    ensures reason == DeductionReason(lines, excluded)
  {
    hide ReasonOf;
    var reasons := [];
    for i := 0 to |lines|
      invariant reasons == Reasons(lines[..i], excluded)
    {
      assert lines[..i + 1][..i] == lines[..i];
      if lines[i].direction != Charge || lines[i].amount <= 0 {
        continue;
      }
      if excluded == Some(lines[i].kind) {
        continue;
      }
      reasons := reasons + [ReasonOf(lines[i])];
    }
    assert lines[..|lines|] == lines;
    if |reasons| == 0 {
      return None;
    }
    return Some(Joined(reasons));
  }

  // ---------- The command ----------

  function SettledBill(b: Bill, c: Calculation): Bill {
    b.(meter := Some(Meter(c.previous, c.current, c.unitPrice)), amount := Some(c.amount), paidAmount := Some(c.amount),
       status := Paid, version := b.version + 1)
  }

  function WithSettledBill(bills: seq<Bill>, electricity: Option<Calculation>): seq<Bill> {
    if electricity.None? || electricity.value.sourceBill.None? then bills
    else
      var i := electricity.value.sourceBill.value;
      if i < |bills| then bills[i := SettledBill(bills[i], electricity.value)] else bills
  }

  function RentRefundEntries(id: nat, input: CheckoutInput): seq<Entry> {
    if input.rentRefund == 0 then []
    else [Entry(id, RentRefund, -input.rentRefund,
        Some(if input.rentRefundReason.Some? then input.rentRefundReason.value else ""))]
  }

  function ElectricityEntries(id: nat, electricity: Option<Calculation>): seq<Entry> {
    if electricity.None? || electricity.value.amount == 0 then []
    else [Entry(id, ElectricityPayment, electricity.value.amount, Some(Label(ElectricityLine)))]
  }

  // The deduction that is booked as such: electricity has its own row.
  function BookedDeduction(deduction: int, electricity: Option<Calculation>): int {
    if electricity.None? then deduction
    else if deduction - electricity.value.amount < 0 then 0
    else deduction - electricity.value.amount
  }

  function CheckoutEntries(id: nat, p: Settlement, refund: int, deduction: int,
                           electricity: Option<Calculation>): seq<Entry> {
    var reason := DeductionReason(p.lines, if electricity.Some? then Some(ElectricityLine) else None);
    DepositEntries(id, refund, BookedDeduction(deduction, electricity), ReasonValue(reason))
    + RentRefundEntries(id, p.input)
    + ElectricityEntries(id, electricity)
  }

  function RefundOf(p: Settlement): int {
    if p.depositAmount - p.totalCharge < 0 then 0 else p.depositAmount - p.totalCharge
  }

  function DeductionOf(p: Settlement): int {
    if p.totalCharge > p.depositAmount then p.depositAmount else p.totalCharge
  }

  datatype Finalized = Finalized(outcome: Outcome, settlement: Settlement)

  // What an accepted proposal commits.
  function CommitProposal(s: Store, p: Settlement, electricity: Option<Calculation>): Result<Finalized, CheckoutError>
    requires p.input.lease < |s.accounts|
  {
    var id := p.input.lease;
    var a := s.accounts[id];
    var refund, deduction := RefundOf(p), DeductionOf(p);
    var normalized := NormalizeState(a.lease);
    if normalized.Failure? then Failure(Rejected(normalized.error))
    else
      var settled := SettledDeposit(normalized.value, refund, deduction, DeductionReason(p.lines, None));
      if settled.Failure? then Failure(Rejected(settled.error))
      else
        var terminated := TerminatedLease(settled.value);
        if terminated.Failure? then Failure(Rejected(terminated.error))
        else
          var stored := WithSettlement(a.lease, terminated.value);
          var lease := stored.(status := Terminated, endDate := p.input.checkoutDate,
                               terminationReason := Some(p.input.reason), version := stored.version + 1);
          var store := s.(accounts := s.accounts[id := Account(lease, WithSettledBill(a.bills, electricity))],
                          ledger := s.ledger + CheckoutEntries(id, p, refund, deduction, electricity));
          var events := DepositEvents(id, refund, deduction) + [LeaseTerminated(id, a.lease.room, a.lease.tenant)];
          Success(Finalized(Outcome(store, events), p.(token := None, finalized := true)))
  }

  function FinalizeOutcome(s: Store, input: CheckoutInput, unitPrice: Option<real>,
                           token: Option<Token>): Result<Finalized, CheckoutError> {
    var normalized := NormalizeInput(input);
    if normalized.Failure? then Failure(normalized.error)
    else if token.None? then Failure(BadRequest("preview_token"))
    else if input.lease >= |s.accounts| then Failure(NoSuchLease)
    else
      var a := s.accounts[input.lease];
      var electricity := CheckoutElectricity(a, normalized.value, unitPrice);
      if electricity.Failure? then Failure(electricity.error)
      else
        var p := Proposal(a, normalized.value, electricity.value);
        if p.blockers != [] then Failure(Blocked(p.blockers))
        else if p.token != token then Failure(Stale)
        else CommitProposal(s, p, electricity.value)
  }

  method SettleElectricityBill(db: LeaseDb, id: nat, i: nat, c: Calculation, expectedVersion: nat) returns (found: bool)
    requires id < |db.accounts| && i < |db.accounts[id].bills|
    modifies db`accounts
    ensures var b := old(db.accounts)[id].bills[i];
            && (found <==> b.version == expectedVersion && b.kind == Electricity && b.status == PendingMeter)
            && var a := old(db.accounts)[id];
               db.accounts == if found then old(db.accounts)[id := a.(bills := a.bills[i := SettledBill(b, c)])]
                              else old(db.accounts)
  {
    var b := db.accounts[id].bills[i];
    found := b.version == expectedVersion && b.kind == Electricity && b.status == PendingMeter;
    if found {
      db.accounts := db.accounts[id := db.accounts[id].(bills := db.accounts[id].bills[i := SettledBill(b, c)])];
    }
  }

  // The bill a calculation settles is one the repository accepts.
  lemma SourceBillIsPending(a: Account, input: CheckoutInput, unitPrice: Option<real>)
    ensures var r := CheckoutElectricity(a, input, unitPrice);
            r.Success? ==> SettlesPendingBill(a.bills, r.value)
  {
    hide Positions, LatestMetered, PreviousReading, ElectricityAmount;
    var source := ResolvableMeterBill(a.bills, input);
    if source.Some? {
      assert source.value in Positions(a.bills, PendingMeters());
      PositionsSelect(a.bills, PendingMeters(), source.value);
    }
  }

  method FinalizeCheckout(db: LeaseDb, input: CheckoutInput, unitPrice: Option<real>, token: Option<Token>)
    returns (r: Result<Settlement, CheckoutError>)
    modifies db
    ensures var f := FinalizeOutcome(old(db.Contents()), input, unitPrice, token);
            && (r.Success? <==> f.Success?)
            && (r.Success? ==> r.value == f.value.settlement &&
                               db.Contents() == Delivered(f.value.outcome.store, f.value.outcome.events))
            && (r.Failure? ==> f == Failure(r.error) && db.Contents() == old(db.Contents()))
  {
    hide Delivered, CheckoutElectricity, Proposal, DeductionReason, DepositEntries, DepositEvents;
    var normalized := NormalizeInput(input);
    if normalized.Failure? {
      return Failure(normalized.error);
    }
    if token.None? {
      return Failure(BadRequest("preview_token"));
    }
    if input.lease >= |db.accounts| {
      return Failure(NoSuchLease);
    }
    var id := input.lease;
    var a := db.accounts[id];
    var calculated := CalculateCheckoutElectricity(a, normalized.value, unitPrice);
    if calculated.Failure? {
      return Failure(calculated.error);
    }
    var electricity := calculated.value;
    var proposal := BuildCheckoutSettlement(a, normalized.value, electricity);
    ProposalInput(a, normalized.value, electricity);
    if proposal.blockers != [] {
      return Failure(Blocked(proposal.blockers));
    }
    if proposal.token != token {
      return Failure(Stale);
    }
    SourceBillIsPending(a, normalized.value, unitPrice);
    r := Commit(db, proposal, electricity);
  }

  lemma ProposalInput(a: Account, input: CheckoutInput, electricity: Option<Calculation>)
    ensures Proposal(a, input, electricity).input == input
  {
  }

  // The accounting rows, and the payment of the bill whose meter the checkout read.
  method RecordCheckout(db: LeaseDb, p: Settlement, refundAmount: int, deductionAmount: int,
                        deductionReason: Option<string>,
                        electricity: Option<Calculation>)
    requires p.input.lease < |db.accounts|
    requires deductionReason == DeductionReason(p.lines, None)
    requires SettlesPendingBill(db.accounts[p.input.lease].bills, electricity)
    modifies db`accounts, db`ledger
    ensures var id, a := p.input.lease, old(db.accounts)[p.input.lease];
            && db.accounts == old(db.accounts)[id := a.(bills := WithSettledBill(a.bills, electricity))]
            && db.ledger == old(db.ledger) + CheckoutEntries(id, p, refundAmount, deductionAmount, electricity)
  {
    hide DeductionReason, DepositEntries, SettledBill;
    var id := p.input.lease;
    var bookedDeduction, bookedReason := deductionAmount, deductionReason;
    if electricity.Some? {
      bookedDeduction := bookedDeduction - electricity.value.amount;
      if bookedDeduction < 0 {
        bookedDeduction := 0;
      }
      bookedReason := CheckoutDeductionReasonExcludingKind(p.lines, Some(ElectricityLine));
    }
    RecordDepositAccountingEntries(db, id, refundAmount, bookedDeduction, ReasonValue(bookedReason));
    ghost var before, deposit := old(db.ledger),
        DepositEntries(id, refundAmount, bookedDeduction, ReasonValue(bookedReason));
    ghost var refund, metered := RentRefundEntries(id, p.input), ElectricityEntries(id, electricity);
    if p.input.rentRefund != 0 {
      db.CreateEntry(Entry(id, RentRefund, -p.input.rentRefund,
                           Some(if p.input.rentRefundReason.Some? then p.input.rentRefundReason.value else "")));
    }
    assert db.ledger == before + deposit + refund;
    ConcatAssociative(before, deposit, refund);
    ConcatAssociative(before, deposit + refund, metered);
    if electricity.Some? {
      if electricity.value.sourceBill.Some? {
        var i := electricity.value.sourceBill.value;
        var found := SettleElectricityBill(db, id, i, electricity.value, db.accounts[id].bills[i].version);
        assert found;
      }
      if electricity.value.amount != 0 {
        db.CreateEntry(Entry(id, ElectricityPayment, electricity.value.amount, Some(Label(ElectricityLine))));
      }
    }
  }

  ghost predicate SettlesPendingBill(bills: seq<Bill>, electricity: Option<Calculation>) {
    electricity.Some? && electricity.value.sourceBill.Some? ==>
      var i := electricity.value.sourceBill.value;
      i < |bills| && bills[i].kind == Electricity && bills[i].status == PendingMeter
  }

  method Commit(db: LeaseDb, p: Settlement, electricity: Option<Calculation>)
    returns (r: Result<Settlement, CheckoutError>)
    requires p.input.lease < |db.accounts|
    requires SettlesPendingBill(db.accounts[p.input.lease].bills, electricity)
    modifies db
    ensures var f := CommitProposal(old(db.Contents()), p, electricity);
            && (r.Success? <==> f.Success?)
            && (r.Success? ==> r.value == f.value.settlement &&
                               db.Contents() == Delivered(f.value.outcome.store, f.value.outcome.events))
            && (r.Failure? ==> f == Failure(r.error) && db.Contents() == old(db.Contents()))
  {
    hide Delivered, DeductionReason, CheckoutEntries, DepositEvents, WithSettledBill, SettlesPendingBill,
        NormalizeState, SettledDeposit;
    var id := p.input.lease;
    var a := db.accounts[id];
    var refundAmount := p.depositAmount - p.totalCharge;
    if refundAmount < 0 {
      refundAmount := 0;
    }
    var deductionAmount := p.totalCharge;
    if deductionAmount > p.depositAmount {
      deductionAmount := p.depositAmount;
    }
    var deductionReason := CheckoutDeductionReasonExcludingKind(p.lines, None);
    var rehydrated := LeaseAggregate.Rehydrate(a.lease);
    if rehydrated.Failure? {
      return Failure(Rejected(rehydrated.error));
    }
    var aggregate := rehydrated.value;
    var settled := aggregate.SettleDeposit(refundAmount, deductionAmount, deductionReason);
    if settled.Failure? {
      return Failure(Rejected(settled.error));
    }
    var terminated := aggregate.Terminate();
    if terminated.Failure? {
      return Failure(Rejected(terminated.error));
    }
    db.SetLease(id, WithSettlement(a.lease, aggregate.state));
    var stored := db.accounts[id].lease;
    db.SetLease(id, stored.(status := Terminated, endDate := p.input.checkoutDate,
                            terminationReason := Some(p.input.reason), version := stored.version + 1));
    RecordCheckout(db, p, refundAmount, deductionAmount, deductionReason, electricity);
    ghost var f := CommitProposal(old(db.Contents()), p, electricity).value;
    assert db.accounts == f.outcome.store.accounts;
    assert db.ledger == f.outcome.store.ledger;
    db.Publish(DepositEvents(id, refundAmount, deductionAmount) + [LeaseTerminated(id, a.lease.room, a.lease.tenant)]);
    return Success(p.(token := None, finalized := true));
  }
}
