/**
 What a checkout preview lists and refuses, and what finalizing it stores, books and announces, field by
 field (internal/application/lease/checkout_settlement.go).
 */
module CheckoutTerms {
  import opened Basics
  import opened Leases
  import opened LeaseStore
  import opened Termination
  import opened LeaseTerms
  import opened Readings
  import opened Checkout
  import opened CheckoutFinalize
  import opened CheckoutTheorems

  // ---------- The input ----------

  // Which inputs are accepted, the refusals in order, and what is kept of an accepted one.
  lemma InputIsAccepted(input: CheckoutInput)
    ensures var r := NormalizeInput(input);
            var blank := TrimSpace(input.reason) == "";
            var belowZero := input.finalReading.Some? && input.finalReading.value < 0;
            var negativeFee := input.cleaningFee < 0 || input.keyCardFee < 0 || input.otherFee < 0;
            && (r == Failure(BadRequest("reason")) <==> blank)
            && (r == Failure(BadRequest("final_meter_reading")) <==> !blank && belowZero)
            && (r == Failure(NegativeFee) <==> !blank && !belowZero && negativeFee)
            && (r == Failure(BadRequest("manual_rent_refund_amount"))
                <==> !blank && !belowZero && !negativeFee && input.rentRefund < 0)
            && (r == Failure(BadRequest("manual_rent_refund_reason"))
                <==> !blank && !belowZero && !negativeFee && input.rentRefund > 0 && !HasText(input.rentRefundReason))
            && (r.Success?
                <==> && !blank && !belowZero && !negativeFee && input.rentRefund >= 0
                     && (input.rentRefund > 0 ==> HasText(input.rentRefundReason)))
            && (r.Success? ==>
                  r.value == input.(reason := TrimSpace(input.reason), otherReason := Trimmed(input.otherReason),
                                    rentRefundReason := Trimmed(input.rentRefundReason), notes := Trimmed(input.notes)))
  {
    hide TrimSpace;
    FieldsDiffer();
  }

  lemma FieldsDiffer()
    ensures |"reason"| == 6 && |"final_meter_reading"| == 19
    ensures |"manual_rent_refund_amount"| == |"manual_rent_refund_reason"| == 25
    ensures "manual_rent_refund_amount"[19] != "manual_rent_refund_reason"[19]
  {
  }

  function Trimmed(text: Option<string>): Option<string> {
    if HasText(text) then Some(TrimSpace(text.value)) else None
  }

  // ---------- The lines ----------

  function Rank(kind: LineKind): nat {
    match kind
    case DepositRefundLine => 0
    case CleaningFeeLine => 1
    case KeyCardLossLine => 2
    case OtherFeeLine => 3
    case RentRefundLine => 4
    case ElectricityLine => 5
  }

  // The line of each kind, if the settlement has one.
  ghost predicate IsLine(line: Line, depositAmount: int, n: CheckoutInput, electricity: Option<Calculation>) {
    match line.kind
    case DepositRefundLine => line == Line(DepositRefundLine, Refund, depositAmount, None, None)
    case CleaningFeeLine => n.cleaningFee > 0 && line == Line(CleaningFeeLine, Charge, n.cleaningFee, None, None)
    case KeyCardLossLine => n.keyCardFee > 0 && line == Line(KeyCardLossLine, Charge, n.keyCardFee, None, None)
    case OtherFeeLine => n.otherFee > 0 && line == Line(OtherFeeLine, Charge, n.otherFee, n.otherReason, None)
    case RentRefundLine =>
      n.rentRefund > 0 && line == Line(RentRefundLine, Refund, n.rentRefund, n.rentRefundReason, None)
    case ElectricityLine =>
      electricity.Some? && line == Line(ElectricityLine, Charge, electricity.value.amount, None, electricity)
  }

  // Exactly the lines that apply, in this order: deposit, cleaning, key card, other fee, rent, electricity.
  lemma LinesAreExact(a: Account, n: CheckoutInput, electricity: Option<Calculation>)
    ensures var lines := Proposal(a, n, electricity).lines;
            && (forall line :: line in lines <==> IsLine(line, a.lease.depositAmount, n, electricity))
            && (forall i, j | 0 <= i < j < |lines| :: Rank(lines[i].kind) < Rank(lines[j].kind))
  {
    hide SettlementBlockers, TotalOf, BillViews, NetOf;
    var d := a.lease.depositAmount;
    assert Proposal(a, n, electricity).lines == SettlementLines(d, n, electricity);
    SettlementLinesAre(d, n, electricity);
    hide SettlementLines, Proposal, IsLine, Rank;
  }

  lemma OneMoreLine(lines: seq<Line>, present: bool, line: Line)
    requires forall l | l in lines :: Rank(l.kind) < Rank(line.kind)
    requires forall i, j | 0 <= i < j < |lines| :: Rank(lines[i].kind) < Rank(lines[j].kind)
    ensures var longer := WithLine(lines, present, line);
            && (forall l :: l in longer <==> l in lines || (present && l == line))
            && (forall i, j | 0 <= i < j < |longer| :: Rank(longer[i].kind) < Rank(longer[j].kind))
  {
    hide Rank;
    assert forall i | 0 <= i < |lines| :: lines[i] in lines;
  }

  function DepositLine(depositAmount: int): Line {
    Line(DepositRefundLine, Refund, depositAmount, None, None)
  }

  function CleaningLine(n: CheckoutInput): Line {
    Line(CleaningFeeLine, Charge, n.cleaningFee, None, None)
  }

  function KeyCardLine(n: CheckoutInput): Line {
    Line(KeyCardLossLine, Charge, n.keyCardFee, None, None)
  }

  function OtherLine(n: CheckoutInput): Line {
    Line(OtherFeeLine, Charge, n.otherFee, n.otherReason, None)
  }

  function RefundLine(n: CheckoutInput): Line {
    Line(RentRefundLine, Refund, n.rentRefund, n.rentRefundReason, None)
  }

  function MeteredLine(electricity: Option<Calculation>): Line {
    Line(ElectricityLine, Charge, ChargeOf(electricity), None, electricity)
  }

  // The lines, one after the other.
  lemma LinesInOrder(depositAmount: int, n: CheckoutInput, electricity: Option<Calculation>)
    returns (cleaned: seq<Line>, locked: seq<Line>, charged: seq<Line>, refunded: seq<Line>)
    ensures cleaned == WithLine([DepositLine(depositAmount)], n.cleaningFee > 0, CleaningLine(n))
    ensures locked == WithLine(cleaned, n.keyCardFee > 0, KeyCardLine(n))
    ensures charged == WithLine(locked, n.otherFee > 0, OtherLine(n))
    ensures refunded == WithLine(charged, n.rentRefund > 0, RefundLine(n))
    ensures SettlementLines(depositAmount, n, electricity)
            == WithLine(refunded, electricity.Some?, MeteredLine(electricity))
  {
    hide WithLine, ChargeOf;
    cleaned := WithLine([DepositLine(depositAmount)], n.cleaningFee > 0, CleaningLine(n));
    locked := WithLine(cleaned, n.keyCardFee > 0, KeyCardLine(n));
    charged := WithLine(locked, n.otherFee > 0, OtherLine(n));
    refunded := WithLine(charged, n.rentRefund > 0, RefundLine(n));
  }

  lemma KindsOfLines(depositAmount: int, n: CheckoutInput, electricity: Option<Calculation>)
    ensures Rank(DepositLine(depositAmount).kind) < Rank(CleaningLine(n).kind) < Rank(KeyCardLine(n).kind)
            < Rank(OtherLine(n).kind) < Rank(RefundLine(n).kind) < Rank(MeteredLine(electricity).kind)
  {
    hide ChargeOf;
  }

  lemma LineCases(line: Line, depositAmount: int, n: CheckoutInput, electricity: Option<Calculation>)
    ensures IsLine(line, depositAmount, n, electricity)
            <==> || line == DepositLine(depositAmount)
                 || (n.cleaningFee > 0 && line == CleaningLine(n))
                 || (n.keyCardFee > 0 && line == KeyCardLine(n))
                 || (n.otherFee > 0 && line == OtherLine(n))
                 || (n.rentRefund > 0 && line == RefundLine(n))
                 || (electricity.Some? && line == MeteredLine(electricity))
  {
  }

  lemma SettlementLinesAre(depositAmount: int, n: CheckoutInput, electricity: Option<Calculation>)
    ensures var lines := SettlementLines(depositAmount, n, electricity);
            && (forall line :: line in lines <==> IsLine(line, depositAmount, n, electricity))
            && (forall i, j | 0 <= i < j < |lines| :: Rank(lines[i].kind) < Rank(lines[j].kind))
  {
    hide *;
    var cleaned, locked, charged, refunded := LinesInOrder(depositAmount, n, electricity);
    KindsOfLines(depositAmount, n, electricity);
    OneMoreLine([DepositLine(depositAmount)], n.cleaningFee > 0, CleaningLine(n));
    OneMoreLine(cleaned, n.keyCardFee > 0, KeyCardLine(n));
    OneMoreLine(locked, n.otherFee > 0, OtherLine(n));
    OneMoreLine(charged, n.rentRefund > 0, RefundLine(n));
    OneMoreLine(refunded, electricity.Some?, MeteredLine(electricity));
    forall line {
      LineCases(line, depositAmount, n, electricity);
    }
  }

  // ---------- The totals ----------

  // What is refunded, what is charged, the difference, and a token exactly when nothing blocks.
  lemma TotalsAreExact(a: Account, n: CheckoutInput, electricity: Option<Calculation>)
    requires n.cleaningFee >= 0 && n.keyCardFee >= 0 && n.otherFee >= 0 && n.rentRefund >= 0
    ensures var p, l := Proposal(a, n, electricity), a.lease;
            var charges := n.cleaningFee + n.keyCardFee + n.otherFee + ChargeOf(electricity);
            && p.input == n && p.depositAmount == l.depositAmount && !p.finalized
            && p.totalRefund == l.depositAmount + n.rentRefund && p.totalCharge == charges
            && p.netAmount == (if p.totalRefund > charges then p.totalRefund - charges else charges - p.totalRefund)
            && (p.netDirection == NetRefund <==> p.totalRefund > charges)
            && (p.netDirection == NetPayable <==> p.totalRefund < charges)
            && (p.token.Some? <==> p.blockers == [])
            && (p.token.Some? ==>
                  && p.token.value.lease == n.lease && p.token.value.leaseVersion == l.version
                  && p.token.value.input == n && p.token.value.lines == p.lines
                  && p.token.value.totalRefund == p.totalRefund && p.token.value.totalCharge == charges
                  && p.token.value.depositAmount == l.depositAmount
                  && |p.token.value.bills| == |a.bills|
                  && forall i | 0 <= i < |a.bills| ::
                       p.token.value.bills[i] == BillView(a.bills[i].kind, a.bills[i].status, a.bills[i].period.first,
                           a.bills[i].period.last, a.bills[i].version))
  {
    LineTotals(a.lease.depositAmount, n, electricity);
    hide SettlementLines, TotalOf, SettlementBlockers, ChargeOf;
  }

  // ---------- The blockers ----------

  lemma {:induction false} BillBlockersAre(bills: seq<Bill>, resolvable: Option<nat>, blocker: Blocker)
    ensures blocker in BillBlockers(bills, resolvable)
            <==> match blocker
                 case UnpaidBillBlocker(i) =>
                   i < |bills| && (bills[i].status == PendingPayment || bills[i].status == Overdue)
                 case PendingMeterBlocker(i) => i < |bills| && bills[i].status == PendingMeter && resolvable != Some(i)
                 case _ => false
  {
    if bills != [] {
      BillBlockersAre(bills[..|bills| - 1], resolvable, blocker);
    }
  }

  // Each blocker is listed exactly in its case.
  lemma BlockersAreExact(a: Account, n: CheckoutInput, electricity: Option<Calculation>, blocker: Blocker)
    requires n.cleaningFee >= 0 && n.keyCardFee >= 0 && n.otherFee >= 0 && n.rentRefund >= 0
    ensures blocker in Proposal(a, n, electricity).blockers
            <==> match blocker
                 case LeaseNotActiveBlocker => a.lease.status != Active && a.lease.status != Expired
                 case DepositNotHeldBlocker => a.lease.depositStatus != DepositHeld
                 case CheckoutBeforeLeaseStart => n.checkoutDate < a.lease.startDate
                 case RentRefundDecisionRequired => n.checkoutDate < a.lease.endDate && n.rentRefundReason.None?
                 case UnpaidBillBlocker(i) =>
                   i < |a.bills| && (a.bills[i].status == PendingPayment || a.bills[i].status == Overdue)
                 case PendingMeterBlocker(i) =>
                   && i < |a.bills| && a.bills[i].status == PendingMeter
                   && !(n.finalReading.Some? && IsFinalBill(a.bills, n, i))
                 case ChargeExceedsDeposit =>
                   n.cleaningFee + n.keyCardFee + n.otherFee + ChargeOf(electricity) > a.lease.depositAmount
  {
    LineTotals(a.lease.depositAmount, n, electricity);
    LeaseBlockersAre(a.lease, n, blocker);
    BillBlockersAre(a.bills, ResolvableMeterBill(a.bills, n), blocker);
    if blocker.PendingMeterBlocker? {
      ResolvableIsFinal(a.bills, n, blocker.bill);
    }
    BlockersOf(a, n, electricity);
    hide Proposal, SettlementLines, TotalOf, LeaseBlockers, BillBlockers, ResolvableMeterBill, IsFinalBill, ChargeOf;
  }

  lemma BlockersOf(a: Account, n: CheckoutInput, electricity: Option<Calculation>)
    ensures Proposal(a, n, electricity).blockers
            == WithBlocker(LeaseBlockers(a.lease, n) + BillBlockers(a.bills, ResolvableMeterBill(a.bills, n)),
                           TotalOf(SettlementLines(a.lease.depositAmount, n, electricity), Charge)
                           > a.lease.depositAmount,
                           ChargeExceedsDeposit)
  {
    hide SettlementLines, TotalOf, LeaseBlockers, BillBlockers, ResolvableMeterBill, BillViews, NetOf;
  }

  lemma LeaseBlockersAre(l: Lease, n: CheckoutInput, blocker: Blocker)
    ensures blocker in LeaseBlockers(l, n)
            <==> match blocker
                 case LeaseNotActiveBlocker => l.status != Active && l.status != Expired
                 case DepositNotHeldBlocker => l.depositStatus != DepositHeld
                 case CheckoutBeforeLeaseStart => n.checkoutDate < l.startDate
                 case RentRefundDecisionRequired => n.checkoutDate < l.endDate && n.rentRefundReason.None?
                 case _ => false
  {
  }

  // ---------- The text of the deduction ----------

  // Joining two lists of reasons puts one separator between them.
  lemma {:induction false} JoinedAppend(a: seq<string>, b: seq<string>)
    requires a != [] && b != []
    ensures Joined(a + b) == Joined(a) + "、" + Joined(b)
  {
    if |a| == 1 {
      assert (a + b)[1..] == b;
    } else {
      ConcatTail(a, b);
      JoinedAppend(a[1..], b);
    }
  }

  function OtherFeeText(reason: Option<string>): string {
    if HasText(reason) then "其他費用: " + TrimSpace(reason.value) else "其他費用"
  }

  function FeeReasons(n: CheckoutInput): seq<string> {
    (if n.cleaningFee > 0 then ["清潔費"] else [])
    + (if n.keyCardFee > 0 then ["門禁卡/鑰匙遺失費"] else [])
    + (if n.otherFee > 0 then [OtherFeeText(n.otherReason)] else [])
  }

  // The reasons of a settlement name its positive charges in the order of the lines.
  lemma ReasonsAreExact(depositAmount: int, n: CheckoutInput, electricity: Option<Calculation>)
    ensures var lines := SettlementLines(depositAmount, n, electricity);
            && Reasons(lines, Some(ElectricityLine)) == FeeReasons(n)
            && Reasons(lines, None) == FeeReasons(n) + if ChargeOf(electricity) > 0 then ["退租電費結算"] else []
  {
    ReasonsOf(depositAmount, n, electricity, None);
    ReasonsOf(depositAmount, n, electricity, Some(ElectricityLine));
    OtherFeeReason(n);
    PlainReasons(n, electricity);
    hide Reasons, SettlementLines, ReasonOf, OtherFeeText;
  }

  lemma PlainReasons(n: CheckoutInput, electricity: Option<Calculation>)
    ensures ReasonOf(CleaningLine(n)) == "清潔費" && ReasonOf(KeyCardLine(n)) == "門禁卡/鑰匙遺失費"
    ensures ReasonOf(MeteredLine(electricity)) == "退租電費結算"
  {
    hide ChargeOf;
  }

  lemma OtherFeeReason(n: CheckoutInput)
    ensures ReasonOf(OtherLine(n)) == OtherFeeText(n.otherReason)
  {
    hide TrimSpace;
    assert "其他費用" + ": " == "其他費用: ";
    if HasText(n.otherReason) {
      ConcatAssociative("其他費用", ": ", TrimSpace(n.otherReason.value));
    }
  }

  function ReasonIf(present: bool, line: Line, excluded: Option<LineKind>): seq<string> {
    if present && line.amount > 0 && excluded != Some(line.kind) then [ReasonOf(line)] else []
  }

  lemma ReasonsWithLine(lines: seq<Line>, present: bool, line: Line, excluded: Option<LineKind>)
    ensures Reasons(WithLine(lines, present, line), excluded)
            == Reasons(lines, excluded) + if line.direction == Charge then ReasonIf(present, line, excluded) else []
  {
    hide ReasonOf;
    assert (lines + [line])[..|lines|] == lines;
  }

  lemma ReasonsOf(depositAmount: int, n: CheckoutInput, electricity: Option<Calculation>, excluded: Option<LineKind>)
    ensures Reasons(SettlementLines(depositAmount, n, electricity), excluded)
            == ReasonIf(n.cleaningFee > 0, CleaningLine(n), excluded)
               + ReasonIf(n.keyCardFee > 0, KeyCardLine(n), excluded)
               + ReasonIf(n.otherFee > 0, OtherLine(n), excluded)
               + ReasonIf(electricity.Some?, MeteredLine(electricity), excluded)
  {
    hide WithLine, Reasons, ReasonOf, ReasonIf, SettlementLines, ChargeOf;
    var cleaned, locked, charged, refunded := LinesInOrder(depositAmount, n, electricity);
    ReasonsWithLine(refunded, electricity.Some?, MeteredLine(electricity), excluded);
    ReasonsWithLine(charged, n.rentRefund > 0, RefundLine(n), excluded);
    ReasonsWithLine(locked, n.otherFee > 0, OtherLine(n), excluded);
    ReasonsWithLine(cleaned, n.keyCardFee > 0, KeyCardLine(n), excluded);
    ReasonsWithLine([DepositLine(depositAmount)], n.cleaningFee > 0, CleaningLine(n), excluded);
    NoReason(DepositLine(depositAmount), excluded);
  }

  lemma NoReason(line: Line, excluded: Option<LineKind>)
    requires line.direction == Refund
    ensures Reasons([line], excluded) == []
  {
    assert [line][..0] == [];
  }

  // ---------- What finalizing stores, books and announces ----------

  function Turn(category: Category): nat {
    match category
    case DepositRefund => 0
    case DepositDeduction => 1
    case RentRefund => 2
    case ElectricityPayment => 3
  }

  // The rows of a checkout, one for each amount that is not zero, in this order.
  ghost predicate CheckoutRows(rows: seq<Entry>, id: nat, refund: int, fees: int, n: CheckoutInput, metered: int) {
    && |rows| == (if refund > 0 then 1 else 0) + (if fees > 0 then 1 else 0) + (if n.rentRefund > 0 then 1 else 0)
                 + (if metered > 0 then 1 else 0)
    && (refund > 0 ==> Entry(id, DepositRefund, -refund, None) in rows)
    && (fees > 0 ==> Entry(id, DepositDeduction, fees, Some(TrimSpace(Joined(FeeReasons(n))))) in rows)
    && (n.rentRefund > 0 ==> Entry(id, RentRefund, -n.rentRefund, n.rentRefundReason) in rows)
    && (metered > 0 ==> Entry(id, ElectricityPayment, metered, Some("退租電費結算")) in rows)
    && (forall i, j | 0 <= i < j < |rows| :: Turn(rows[i].category) < Turn(rows[j].category))
  }

  // The bill of the final reading is paid at its amount; no other bill changes.
  ghost predicate FinalBillPaid(was: seq<Bill>, bills: seq<Bill>, electricity: Option<Calculation>) {
    && |bills| == |was|
    && forall i | 0 <= i < |was| ::
         bills[i] == if electricity.Some? && electricity.value.sourceBill == Some(i)
                     then was[i].(status := Paid, amount := Some(electricity.value.amount),
                                  paidAmount := Some(electricity.value.amount), version := was[i].version + 1,
                                  meter := Some(Meter(electricity.value.previous, electricity.value.current,
                                                      electricity.value.unitPrice)))
                     else was[i]
  }

  // What is committed for a proposal.
  ghost predicate CommittedTo(s: Store, p: Settlement, electricity: Option<Calculation>, f: Finalized) {
    var o, id := f.outcome, p.input.lease;
    && id < |s.accounts| == |o.store.accounts|
    && var was := s.accounts[id];
       && o.store == s.(accounts := s.accounts[id := o.store.accounts[id]], ledger := o.store.ledger)
       && o.store.accounts[id].lease == was.lease.(status := Terminated, endDate := p.input.checkoutDate,
           terminationReason := Some(p.input.reason), refundAmount := Some(RefundOf(p)),
           deductionAmount := Some(DeductionOf(p)), depositStatus := DepositSettled,
           deductionReason := if DeductionOf(p) > 0 then Trimmed(DeductionReason(p.lines, None)) else None,
           version := was.lease.version + 2)
       && FinalBillPaid(was.bills, o.store.accounts[id].bills, electricity)
       && o.store.ledger == s.ledger + CheckoutEntries(id, p, RefundOf(p), DeductionOf(p), electricity)
       && o.events == DepositEvents(id, RefundOf(p), DeductionOf(p))
                      + [LeaseTerminated(id, was.lease.room, was.lease.tenant)]
       && f.settlement == p.(token := None, finalized := true)
  }

  lemma CommittedTerms(s: Store, p: Settlement, electricity: Option<Calculation>)
    requires p.input.lease < |s.accounts| && CommitProposal(s, p, electricity).Success?
    ensures CommittedTo(s, p, electricity, CommitProposal(s, p, electricity).value)
  {
    hide DeductionReason, CheckoutEntries, DepositEvents, TrimSpace, RefundOf, DeductionOf, TrimCadence;
  }

  lemma FeeText(depositAmount: int, n: CheckoutInput, electricity: Option<Calculation>)
    requires n.cleaningFee + n.keyCardFee + n.otherFee > 0
    requires n.cleaningFee >= 0 && n.keyCardFee >= 0 && n.otherFee >= 0
    ensures var excluded := if electricity.Some? then Some(ElectricityLine) else None;
            ReasonValue(DeductionReason(SettlementLines(depositAmount, n, electricity), excluded))
            == TrimSpace(Joined(FeeReasons(n)))
  {
    ReasonsAreExact(depositAmount, n, electricity);
    hide Reasons, SettlementLines, TrimSpace, OtherFeeText, Joined;
    assert FeeReasons(n) != [] && FeeReasons(n) + [] == FeeReasons(n);
  }

  lemma BookedRows(n: CheckoutInput, p: Settlement, electricity: Option<Calculation>)
    requires n.cleaningFee >= 0 && n.keyCardFee >= 0 && n.otherFee >= 0 && n.rentRefund >= 0
    requires n.rentRefund > 0 ==> n.rentRefundReason.Some?
    requires p.input == n && p.lines == SettlementLines(p.depositAmount, n, electricity)
    requires ChargeOf(electricity) >= 0
    requires p.totalCharge == n.cleaningFee + n.keyCardFee + n.otherFee + ChargeOf(electricity) <= p.depositAmount
    ensures RefundOf(p) == p.depositAmount - p.totalCharge && DeductionOf(p) == p.totalCharge
    ensures CheckoutRows(CheckoutEntries(n.lease, p, RefundOf(p), DeductionOf(p), electricity), n.lease,
                         p.depositAmount - p.totalCharge, n.cleaningFee + n.keyCardFee + n.otherFee, n,
                         ChargeOf(electricity))
  {
    hide DeductionReason, SettlementLines, Joined, FeeReasons, TrimSpace, ReasonValue;
    if n.cleaningFee + n.keyCardFee + n.otherFee > 0 {
      FeeText(p.depositAmount, n, electricity);
    }
  }

  // What is committed for a normalized input and the electricity calculated for it.
  ghost predicate FinalizedAs(s: Store, n: CheckoutInput, electricity: Option<Calculation>, f: Finalized) {
    StoredAs(s, n, electricity, f) && BookedAs(s, n, electricity, f)
  }

  function ChargesOf(n: CheckoutInput, electricity: Option<Calculation>): int {
    n.cleaningFee + n.keyCardFee + n.otherFee + ChargeOf(electricity)
  }

  ghost predicate StoredAs(s: Store, n: CheckoutInput, electricity: Option<Calculation>, f: Finalized) {
    var t, id, charges := f.outcome.store, n.lease, ChargesOf(n, electricity);
    && id < |s.accounts| == |t.accounts|
    && var was := s.accounts[id];
       && t == s.(accounts := s.accounts[id := t.accounts[id]], ledger := t.ledger)
       && t.accounts[id].lease == was.lease.(status := Terminated, endDate := n.checkoutDate,
           terminationReason := Some(n.reason), refundAmount := Some(was.lease.depositAmount - charges),
           deductionAmount := Some(charges), depositStatus := DepositSettled,
           deductionReason := if charges > 0 then Trimmed(DeductionReason(f.settlement.lines, None)) else None,
           version := was.lease.version + 2)
       && FinalBillPaid(was.bills, t.accounts[id].bills, electricity)
  }

  ghost predicate BookedAs(s: Store, n: CheckoutInput, electricity: Option<Calculation>, f: Finalized) {
    var ledger, events, id := f.outcome.store.ledger, f.outcome.events, n.lease;
    && id < |s.accounts|
    && var l, charges := s.accounts[id].lease, ChargesOf(n, electricity);
       && s.ledger <= ledger
       && CheckoutRows(ledger[|s.ledger|..], id, l.depositAmount - charges, n.cleaningFee + n.keyCardFee + n.otherFee,
           n,
                       ChargeOf(electricity))
       && |events| > 0 && SettlementEvents(events[..|events| - 1], id, l.depositAmount - charges, charges)
       && events[|events| - 1] == LeaseTerminated(id, l.room, l.tenant)
       && f.settlement == Proposal(s.accounts[id], n, electricity).(token := None, finalized := true)
  }

  // Finalizing ends the lease on the checkout day with its deposit settled, pays the bill of the final
  // reading, books one row for each amount and announces the settlement and then the end of the lease.
  lemma FinalizedTerms(s: Store, input: CheckoutInput, unitPrice: Option<real>, token: Option<Token>)
    returns (n: CheckoutInput, electricity: Option<Calculation>)
    requires unitPrice.Some? ==> unitPrice.value >= 0.0
    requires FinalizeOutcome(s, input, unitPrice, token).Success?
    ensures NormalizeInput(input) == Success(n) && input.lease < |s.accounts|
    ensures CheckoutElectricity(s.accounts[input.lease], n, unitPrice) == Success(electricity)
    ensures FinalizedAs(s, n, electricity, FinalizeOutcome(s, input, unitPrice, token).value)
  {
    hide *;
    n, electricity := FinalizedProposal(s, input, unitPrice, token);
    CalculatedAmount(s.accounts[input.lease], n, unitPrice);
    RefundReasonGiven(input);
    CommittedAs(s, n, Proposal(s.accounts[input.lease], n, electricity), electricity);
  }

  lemma CommittedAs(s: Store, n: CheckoutInput, p: Settlement, electricity: Option<Calculation>)
    requires n.lease < |s.accounts| && p == Proposal(s.accounts[n.lease], n, electricity) && p.input == n
    requires n.cleaningFee >= 0 && n.keyCardFee >= 0 && n.otherFee >= 0 && n.rentRefund >= 0
    requires n.rentRefund > 0 ==> n.rentRefundReason.Some?
    requires p.blockers == [] && ChargeOf(electricity) >= 0 && CommitProposal(s, p, electricity).Success?
    ensures FinalizedAs(s, n, electricity, CommitProposal(s, p, electricity).value)
  {
    hide *;
    ProposalFacts(s.accounts[n.lease], n, electricity);
    LinesOf(s.accounts[n.lease], n, electricity);
    BookedRows(n, p, electricity);
    CommittedTerms(s, p, electricity);
    SettlementIsBooked(n.lease, RefundOf(p), DeductionOf(p), "");
    SumOfCharges(n, electricity);
    var f := CommitProposal(s, p, electricity).value;
    StoredFrom(s, n, p, electricity, f);
    BookedFrom(s, n, p, electricity, f);
    BothParts(s, n, electricity, f);
  }

  lemma SumOfCharges(n: CheckoutInput, electricity: Option<Calculation>)
    ensures ChargesOf(n, electricity) == n.cleaningFee + n.keyCardFee + n.otherFee + ChargeOf(electricity)
  {
  }

  lemma BothParts(s: Store, n: CheckoutInput, electricity: Option<Calculation>, f: Finalized)
    requires StoredAs(s, n, electricity, f) && BookedAs(s, n, electricity, f)
    ensures FinalizedAs(s, n, electricity, f)
  {
  }

  lemma StoredFrom(s: Store, n: CheckoutInput, p: Settlement, electricity: Option<Calculation>, f: Finalized)
    requires CommittedTo(s, p, electricity, f) && p.input == n && n.lease < |s.accounts|
    requires RefundOf(p) == s.accounts[n.lease].lease.depositAmount - ChargesOf(n, electricity)
    requires DeductionOf(p) == ChargesOf(n, electricity)
    ensures StoredAs(s, n, electricity, f)
  {
    hide RefundOf, DeductionOf, ChargesOf, DeductionReason, Trimmed, FinalBillPaid, CheckoutEntries, DepositEvents;
  }

  lemma BookedFrom(s: Store, n: CheckoutInput, p: Settlement, electricity: Option<Calculation>, f: Finalized)
    requires CommittedTo(s, p, electricity, f) && p.input == n && n.lease < |s.accounts|
    requires p == Proposal(s.accounts[n.lease], n, electricity)
    requires RefundOf(p) == s.accounts[n.lease].lease.depositAmount - ChargesOf(n, electricity)
    requires DeductionOf(p) == ChargesOf(n, electricity)
    requires CheckoutRows(CheckoutEntries(n.lease, p, RefundOf(p), DeductionOf(p), electricity), n.lease,
                          RefundOf(p), n.cleaningFee + n.keyCardFee + n.otherFee, n, ChargeOf(electricity))
    requires SettlementEvents(DepositEvents(n.lease, RefundOf(p), DeductionOf(p)), n.lease, RefundOf(p), DeductionOf(p))
    ensures BookedAs(s, n, electricity, f)
  {
    hide RefundOf, DeductionOf, ChargesOf, DeductionReason, Trimmed, FinalBillPaid, CheckoutEntries, DepositEvents,
         Proposal, CheckoutRows, SettlementEvents, ChargeOf;
    var events := f.outcome.events;
    assert events[..|events| - 1] == DepositEvents(n.lease, RefundOf(p), DeductionOf(p));
  }

  lemma LinesOf(a: Account, n: CheckoutInput, electricity: Option<Calculation>)
    ensures Proposal(a, n, electricity).lines == SettlementLines(a.lease.depositAmount, n, electricity)
  {
    hide SettlementLines, SettlementBlockers, TotalOf, BillViews;
  }

  lemma RefundReasonGiven(input: CheckoutInput)
    requires NormalizeInput(input).Success?
    ensures var n := NormalizeInput(input).value; n.rentRefund > 0 ==> n.rentRefundReason.Some?
  {
    hide TrimSpace;
  }

  // On a lease in order, finalizing succeeds exactly for the token of a preview without blockers.
  lemma FinalizingIsAccepted(s: Store, input: CheckoutInput, unitPrice: Option<real>, token: Option<Token>)
    requires unitPrice.Some? ==> unitPrice.value >= 0.0
    requires input.lease < |s.accounts| ==> WellFormed(s.accounts[input.lease].lease)
    ensures var p, f := Preview(s, input, unitPrice), FinalizeOutcome(s, input, unitPrice, token);
            && (f.Success? <==> p.Success? && p.value.blockers == [] && token == p.value.token)
            && (p.Success? ==>
                  && (token.None? ==> f == Failure(BadRequest("preview_token")))
                  && (token.Some? && p.value.blockers != [] ==> f == Failure(Blocked(p.value.blockers)))
                  && (token.Some? && p.value.blockers == [] && token != p.value.token ==> f == Failure(Stale)))
            && (p.Failure? && token.Some? ==> f == Failure(p.error))
  {
    if Preview(s, input, unitPrice).Success? && Preview(s, input, unitPrice).value.blockers == [] {
      PreviewIsLease(s, input, unitPrice);
      UnblockedCheckoutSucceeds(s, input, unitPrice);
    }
    CheckedInOrder(s, input, unitPrice, token);
    hide FinalizeOutcome, Preview;
  }

  lemma PreviewIsLease(s: Store, input: CheckoutInput, unitPrice: Option<real>)
    requires Preview(s, input, unitPrice).Success?
    ensures input.lease < |s.accounts|
  {
    hide NormalizeInput, CheckoutElectricity, Proposal;
  }

  lemma CheckedInOrder(s: Store, input: CheckoutInput, unitPrice: Option<real>, token: Option<Token>)
    ensures var p, f := Preview(s, input, unitPrice), FinalizeOutcome(s, input, unitPrice, token);
            && (p.Failure? ==> f.Failure? && (token.Some? ==> f.error == p.error))
            && (p.Success? ==>
                  && (token.None? ==> f == Failure(BadRequest("preview_token")))
                  && (token.Some? && p.value.blockers != [] ==> f == Failure(Blocked(p.value.blockers)))
                  && (token.Some? && p.value.blockers == [] && token != p.value.token ==> f == Failure(Stale))
                  && (p.value.blockers == [] ==> p.value.token.Some?))
  {
    hide CheckoutElectricity, CommitProposal, SettlementLines, SettlementBlockers, TotalOf, BillViews, TrimSpace;
    if input.lease < |s.accounts| && NormalizeInput(input).Success? {
      var a, n := s.accounts[input.lease], NormalizeInput(input).value;
      SameLeaseAsked(input);
    }
  }

  lemma SameLeaseAsked(input: CheckoutInput)
    requires NormalizeInput(input).Success?
    ensures NormalizeInput(input).value.lease == input.lease
  {
    hide TrimSpace;
  }
}
