/**
 What finalizing a checkout guarantees: money is conserved, an unblocked proposal is never refused and
 leaves no unpaid bill, and the committed settlement is the previewed one.
 */
module CheckoutTheorems {
  import opened Basics
  import opened Leases
  import opened Billing
  import opened BillLists
  import opened LeaseStore
  import opened Termination
  import opened Checkout
  import opened CheckoutFinalize

  // ---------- Totals of the lines ----------

  lemma TotalOfWithLine(lines: seq<Line>, present: bool, line: Line, direction: Direction)
    ensures TotalOf(WithLine(lines, present, line), direction)
            == TotalOf(lines, direction) + if present && line.direction == direction then line.amount else 0
  {
    assert (lines + [line])[..|lines|] == lines;
  }

  // The refunds are the deposit and the rent refund; the charges are the fees and the electricity.
  lemma LineTotals(depositAmount: int, input: CheckoutInput, electricity: Option<Calculation>)
    requires input.cleaningFee >= 0 && input.keyCardFee >= 0 && input.otherFee >= 0 && input.rentRefund >= 0
    ensures var lines := SettlementLines(depositAmount, input, electricity);
            && TotalOf(lines, Refund) == depositAmount + input.rentRefund
            && TotalOf(lines, Charge) == input.cleaningFee + input.keyCardFee + input.otherFee + ChargeOf(electricity)
  {
    forall direction {
      LineTotal(depositAmount, input, electricity, direction);
    }
  }

  lemma LineTotal(depositAmount: int, input: CheckoutInput, electricity: Option<Calculation>, direction: Direction)
    requires input.cleaningFee >= 0 && input.keyCardFee >= 0 && input.otherFee >= 0 && input.rentRefund >= 0
    ensures TotalOf(SettlementLines(depositAmount, input, electricity), direction)
            == match direction
               case Refund => depositAmount + input.rentRefund
               case Charge => input.cleaningFee + input.keyCardFee + input.otherFee + ChargeOf(electricity)
               case Info => 0
  {
    hide WithLine, TotalOf;
    var cleaning, keyCard := Line(CleaningFeeLine, Charge, input.cleaningFee, None, None),
        Line(KeyCardLossLine, Charge, input.keyCardFee, None, None);
    var other := Line(OtherFeeLine, Charge, input.otherFee, input.otherReason, None);
    var refund := Line(RentRefundLine, Refund, input.rentRefund, input.rentRefundReason, None);
    var metered := Line(ElectricityLine, Charge, ChargeOf(electricity), None, electricity);
    var deposit := [Line(DepositRefundLine, Refund, depositAmount, None, None)];
    var cleaned := WithLine(deposit, input.cleaningFee > 0, cleaning);
    var locked := WithLine(cleaned, input.keyCardFee > 0, keyCard);
    var charged := WithLine(locked, input.otherFee > 0, other);
    var refunded := WithLine(charged, input.rentRefund > 0, refund);
    assert SettlementLines(depositAmount, input, electricity) == WithLine(refunded, electricity.Some?, metered);
    hide SettlementLines;
    TotalOfWithLine(refunded, electricity.Some?, metered, direction);
    TotalOfWithLine(charged, input.rentRefund > 0, refund, direction);
    TotalOfWithLine(locked, input.otherFee > 0, other, direction);
    TotalOfWithLine(cleaned, input.keyCardFee > 0, keyCard, direction);
    TotalOfWithLine(deposit, input.cleaningFee > 0, cleaning, direction);
    TotalOfDeposit(depositAmount, direction);
  }

  lemma TotalOfDeposit(depositAmount: int, direction: Direction)
    ensures TotalOf([Line(DepositRefundLine, Refund, depositAmount, None, None)], direction)
            == if direction == Refund then depositAmount else 0
  {
    var deposit := [Line(DepositRefundLine, Refund, depositAmount, None, None)];
    assert deposit[..0] == [];
  }

  // ---------- Reasons ----------

  lemma {:induction false} PositiveChargeHasReason(lines: seq<Line>)
    requires TotalOf(lines, Charge) > 0
    ensures Reasons(lines, None) != []
  {
    hide ReasonOf;
    if !IsReason(lines[|lines| - 1], None) {
      PositiveChargeHasReason(lines[..|lines| - 1]);
    }
  }

  lemma {:induction false} ReasonsArePrinted(lines: seq<Line>, excluded: Option<LineKind>)
    ensures forall r | r in Reasons(lines, excluded) :: r != "" && !IsSpace(r[0])
  {
    if lines != [] {
      ReasonsArePrinted(lines[..|lines| - 1], excluded);
      hide TrimOptional;
    }
  }

  lemma DeductionHasReason(lines: seq<Line>)
    requires TotalOf(lines, Charge) > 0
    ensures TrimOptional(DeductionReason(lines, None)).Some?
  {
    hide TotalOf, Reasons;
    PositiveChargeHasReason(lines);
    ReasonsArePrinted(lines, None);
    var reasons := Reasons(lines, None);
    assert reasons[0] in reasons;
    assert Joined(reasons) != "" && Joined(reasons)[0] == reasons[0][0];
    NotBlank(Joined(reasons));
  }

  // ---------- Unblocked proposals ----------

  lemma {:induction false} NoBillBlockers(bills: seq<Bill>, resolvable: Option<nat>)
    ensures BillBlockers(bills, resolvable) == [] <==>
            forall i: nat | i < |bills| ::
                !OwesPayment(bills[i]) && (bills[i].status == PendingMeter ==> resolvable == Some(i))
  {
    if bills != [] {
      var n := |bills| - 1;
      NoBillBlockers(bills[..n], resolvable);
      assert forall i: nat | i < n :: bills[..n][i] == bills[i];
    }
  }

  lemma Unblocked(a: Account, input: CheckoutInput, lines: seq<Line>)
    requires SettlementBlockers(a, input, lines) == []
    ensures IsLive(a.lease.status) && a.lease.depositStatus == DepositHeld
    ensures a.lease.startDate <= input.checkoutDate
    ensures input.checkoutDate < a.lease.endDate ==> input.rentRefundReason.Some?
    ensures TotalOf(lines, Charge) <= a.lease.depositAmount
    ensures forall b | b in a.bills :: !OwesPayment(b)
    ensures forall i: nat | i < |a.bills| && a.bills[i].status == PendingMeter ::
            ResolvableMeterBill(a.bills, input) == Some(i)
  {
    hide ResolvableMeterBill, TotalOf, BillBlockers;
    NoBillBlockers(a.bills, ResolvableMeterBill(a.bills, input));
  }

  // With no bill blocker, the only bill still awaiting its meter is the one the calculation settles.
  lemma PendingMeterIsSettled(a: Account, input: CheckoutInput, unitPrice: Option<real>, lines: seq<Line>, i: nat)
    requires SettlementBlockers(a, input, lines) == []
    requires CheckoutElectricity(a, input, unitPrice).Success?
    requires i < |a.bills| && a.bills[i].status == PendingMeter
    ensures var electricity := CheckoutElectricity(a, input, unitPrice).value;
            electricity.Some? && electricity.value.sourceBill == Some(i)
  {
    Unblocked(a, input, lines);
    hide SettlementBlockers, Positions, PreviousReading, ElectricityAmount;
  }

  lemma NothingUnpaidAfter(a: Account, input: CheckoutInput, unitPrice: Option<real>, lines: seq<Line>)
    requires SettlementBlockers(a, input, lines) == []
    requires CheckoutElectricity(a, input, unitPrice).Success?
    ensures forall b | b in WithSettledBill(a.bills, CheckoutElectricity(a, input, unitPrice).value) :: !IsUnpaid(b)
  {
    var after := WithSettledBill(a.bills, CheckoutElectricity(a, input, unitPrice).value);
    Unblocked(a, input, lines);
    forall i: nat | i < |after|
      ensures !IsUnpaid(after[i])
    {
      assert a.bills[i] in a.bills;
      if a.bills[i].status == PendingMeter {
        PendingMeterIsSettled(a, input, unitPrice, lines, i);
      }
    }
  }

  lemma CalculatedAmount(a: Account, input: CheckoutInput, unitPrice: Option<real>)
    requires unitPrice.Some? ==> unitPrice.value >= 0.0
    requires CheckoutElectricity(a, input, unitPrice).Success?
    ensures ChargeOf(CheckoutElectricity(a, input, unitPrice).value) >= 0
  {
    hide CalculationAllowed, ResolvableMeterBill, PreviousReading, ElectricityAmount;
    var electricity := CheckoutElectricity(a, input, unitPrice).value;
    if electricity.Some? {
      var c := electricity.value;
      assert c.amount == ElectricityAmount(c.current - c.previous, unitPrice.value);
      AmountMonotone(0, c.current - c.previous, unitPrice.value);
    }
  }

  // ---------- An unblocked checkout is never refused ----------

  // What the proposal of a preview says, in terms of the account and the normalized input.
  ghost predicate PreviewedFrom(s: Store, input: CheckoutInput, unitPrice: Option<real>, p: Settlement,
                                n: CheckoutInput, electricity: Option<Calculation>) {
    && input.lease < |s.accounts|
    && NormalizeInput(input) == Success(n)
    && n.lease == input.lease
    && n.cleaningFee >= 0 && n.keyCardFee >= 0 && n.otherFee >= 0 && n.rentRefund >= 0
    && CheckoutElectricity(s.accounts[input.lease], n, unitPrice) == Success(electricity)
    && p == Proposal(s.accounts[input.lease], n, electricity)
  }

  lemma PreviewFacts(s: Store, input: CheckoutInput, unitPrice: Option<real>)
    returns (n: CheckoutInput, electricity: Option<Calculation>)
    requires Preview(s, input, unitPrice).Success?
    ensures PreviewedFrom(s, input, unitPrice, Preview(s, input, unitPrice).value, n, electricity)
  {
    hide CheckoutElectricity, Proposal, TrimOptional;
    n := NormalizeInput(input).value;
    electricity := CheckoutElectricity(s.accounts[input.lease], n, unitPrice).value;
  }

  lemma ProposalFacts(a: Account, input: CheckoutInput, electricity: Option<Calculation>)
    requires input.cleaningFee >= 0 && input.keyCardFee >= 0 && input.otherFee >= 0 && input.rentRefund >= 0
    requires Proposal(a, input, electricity).blockers == []
    ensures var p := Proposal(a, input, electricity);
            && p.input == input
            && p.depositAmount == a.lease.depositAmount
            && p.totalRefund == p.depositAmount + input.rentRefund
            && p.totalCharge == input.cleaningFee + input.keyCardFee + input.otherFee + ChargeOf(electricity)
                == TotalOf(p.lines, Charge)
            && p.totalCharge <= p.depositAmount
            && p.netAmount == p.totalRefund - p.totalCharge
            && p.netDirection != NetPayable
            && p.token.Some?
  {
    hide SettlementLines, TotalOf, SettlementBlockers, BillViews;
    var lines := SettlementLines(a.lease.depositAmount, input, electricity);
    LineTotals(a.lease.depositAmount, input, electricity);
    Unblocked(a, input, lines);
  }

  // Finalizing a preview on unchanged state succeeds when the preview has no blocker: both aggregate
  // checks pass, the settlement is the previewed one, and no bill of the lease stays unpaid.
  lemma UnblockedCheckoutSucceeds(s: Store, input: CheckoutInput, unitPrice: Option<real>)
    requires unitPrice.Some? ==> unitPrice.value >= 0.0
    requires Preview(s, input, unitPrice).Success?
    requires Preview(s, input, unitPrice).value.blockers == []
    requires WellFormed(s.accounts[input.lease].lease)
    ensures var p := Preview(s, input, unitPrice).value;
            var f := FinalizeOutcome(s, input, unitPrice, p.token);
            && f.Success?
            && f.value.settlement == p.(token := None, finalized := true)
            && input.lease < |f.value.outcome.store.accounts|
            && (forall b | b in f.value.outcome.store.accounts[input.lease].bills :: !IsUnpaid(b))
  {
    var p := Preview(s, input, unitPrice).value;
    var n, electricity := PreviewFacts(s, input, unitPrice);
    var a := s.accounts[input.lease];
    hide Preview, NormalizeInput;
    ProposalFacts(a, n, electricity);
    CalculatedAmount(a, n, unitPrice);
    assert SettlementBlockers(a, n, p.lines) == [];
    NothingUnpaidAfter(a, n, unitPrice, p.lines);
    hide CheckoutElectricity, Proposal;
    CommitSucceeds(s, p, electricity);
  }

  lemma CommitSucceeds(s: Store, p: Settlement, electricity: Option<Calculation>)
    requires p.input.lease < |s.accounts|
    requires WellFormed(s.accounts[p.input.lease].lease)
    requires IsLive(s.accounts[p.input.lease].lease.status)
             && s.accounts[p.input.lease].lease.depositStatus == DepositHeld
    requires p.depositAmount == s.accounts[p.input.lease].lease.depositAmount
    requires 0 <= p.totalCharge == TotalOf(p.lines, Charge) <= p.depositAmount
    ensures var f := CommitProposal(s, p, electricity);
            && f.Success?
            && f.value.settlement == p.(token := None, finalized := true)
            && |f.value.outcome.store.accounts| == |s.accounts|
            && f.value.outcome.store.accounts[p.input.lease].bills
                == WithSettledBill(s.accounts[p.input.lease].bills, electricity)
  {
    if p.totalCharge > 0 {
      DeductionHasReason(p.lines);
    }
    hide DeductionReason, TotalOf, CheckoutEntries, WithSettledBill, TrimOptional;
  }

  // ---------- Conservation of money ----------

  // The magnitude booked under a category.
  function Booked(entries: seq<Entry>, category: Category): int {
    if entries == [] then 0
    else
      (if entries[0].category != category then 0
       else if entries[0].amount < 0 then -entries[0].amount
       else entries[0].amount)
      + Booked(entries[1..], category)
  }

  lemma {:induction false} BookedAppend(a: seq<Entry>, b: seq<Entry>, category: Category)
    ensures Booked(a + b, category) == Booked(a, category) + Booked(b, category)
  {
    if a == [] {
      assert a + b == b;
    } else {
      BookedAppend(a[1..], b, category);
      assert (a + b)[1..] == a[1..] + b;
    }
  }

  lemma BookedDeposit(id: nat, refund: int, deduction: int, reason: string, category: Category)
    requires refund >= 0 && deduction >= 0
    ensures Booked(DepositEntries(id, refund, deduction, reason), category)
            == match category
               case DepositRefund => refund
               case DepositDeduction => deduction
               case _ => 0
  {
    var refunds := if refund > 0 then [Entry(id, DepositRefund, -refund, None)] else [];
    var deductions := if deduction > 0 then [Entry(id, DepositDeduction, deduction, Some(reason))] else [];
    assert DepositEntries(id, refund, deduction, reason) == refunds + deductions;
    BookedAppend(refunds, deductions, category);
  }

  lemma BookedCheckout(id: nat, p: Settlement, refund: int, deduction: int, electricity: Option<Calculation>,
                       category: Category)
    requires refund >= 0 && p.input.rentRefund >= 0 && ChargeOf(electricity) >= 0
    ensures Booked(CheckoutEntries(id, p, refund, deduction, electricity), category)
            == match category
               case DepositRefund => refund
               case DepositDeduction => if BookedDeduction(deduction, electricity) > 0
                   then BookedDeduction(deduction, electricity) else 0
               case RentRefund => p.input.rentRefund
               case ElectricityPayment => ChargeOf(electricity)
  {
    hide DeductionReason, ReasonValue;
    var reason := ReasonValue(DeductionReason(p.lines, if electricity.Some? then Some(ElectricityLine) else None));
    var booked := BookedDeduction(deduction, electricity);
    var deposit := DepositEntries(id, refund, booked, reason);
    assert deposit == DepositEntries(id, refund, if booked > 0 then booked else 0, reason);
    BookedDeposit(id, refund, if booked > 0 then booked else 0, reason, category);
    BookedAppend(deposit + RentRefundEntries(id, p.input), ElectricityEntries(id, electricity), category);
    BookedAppend(deposit, RentRefundEntries(id, p.input), category);
    hide DepositEntries;
  }

  // What a committed settlement says about the rows it adds.
  ghost predicate Conserves(p: Settlement, entries: seq<Entry>) {
    && Booked(entries, DepositRefund) + Booked(entries, DepositDeduction) + Booked(entries, ElectricityPayment)
        == p.depositAmount
    && Booked(entries, DepositRefund) + Booked(entries, RentRefund) == p.netAmount
    && p.netDirection != NetPayable
    && RefundOf(p) == p.depositAmount - p.totalCharge
    && DeductionOf(p) == p.totalCharge
    && Booked(entries, DepositDeduction) == p.totalCharge - Booked(entries, ElectricityPayment)
  }

  lemma EntriesConserve(p: Settlement, electricity: Option<Calculation>)
    requires 0 <= p.input.rentRefund && 0 <= ChargeOf(electricity) <= p.totalCharge <= p.depositAmount
    requires p.netAmount == p.depositAmount + p.input.rentRefund - p.totalCharge && p.netDirection != NetPayable
    ensures Conserves(p.(token := None, finalized := true),
                      CheckoutEntries(p.input.lease, p, RefundOf(p), DeductionOf(p), electricity))
  {
    forall category {
      BookedCheckout(p.input.lease, p, RefundOf(p), DeductionOf(p), electricity, category);
    }
    hide Booked, CheckoutEntries;
  }

  // The proposal a successful finalization committed.
  lemma FinalizedProposal(s: Store, input: CheckoutInput, unitPrice: Option<real>, token: Option<Token>)
    returns (n: CheckoutInput, electricity: Option<Calculation>)
    requires FinalizeOutcome(s, input, unitPrice, token).Success?
    ensures input.lease < |s.accounts| && n.lease == input.lease
    ensures n.cleaningFee >= 0 && n.keyCardFee >= 0 && n.otherFee >= 0 && n.rentRefund >= 0
    ensures NormalizeInput(input) == Success(n)
    ensures CheckoutElectricity(s.accounts[input.lease], n, unitPrice) == Success(electricity)
    ensures var p := Proposal(s.accounts[input.lease], n, electricity);
            && p.blockers == [] && p.token == token && p.input == n
            && FinalizeOutcome(s, input, unitPrice, token) == CommitProposal(s, p, electricity)
  {
    n := NormalizeInput(input).value;
    InputIsNonNegative(input);
    hide NormalizeInput, CheckoutElectricity, CommitProposal;
    electricity := CheckoutElectricity(s.accounts[input.lease], n, unitPrice).value;
    ProposalInput(s.accounts[input.lease], n, electricity);
    hide Proposal;
  }

  // The rows of a finalized checkout: refund, deduction and electricity account for exactly the deposit,
  // deposit refund and rent refund for exactly the net amount, the tenant never owes, and no clamp fires.
  lemma CheckoutConservesMoney(s: Store, input: CheckoutInput, unitPrice: Option<real>, token: Option<Token>)
    requires unitPrice.Some? ==> unitPrice.value >= 0.0
    requires FinalizeOutcome(s, input, unitPrice, token).Success?
    ensures var f := FinalizeOutcome(s, input, unitPrice, token).value;
            s.ledger <= f.outcome.store.ledger && Conserves(f.settlement, f.outcome.store.ledger[|s.ledger|..])
  {
    var n, electricity := FinalizedProposal(s, input, unitPrice, token);
    var a := s.accounts[input.lease];
    var p := Proposal(a, n, electricity);
    hide FinalizeOutcome, NormalizeInput, Conserves;
    ProposalFacts(a, n, electricity);
    CalculatedAmount(a, n, unitPrice);
    hide CheckoutElectricity, Proposal;
    CommittedEntries(s, p, electricity);
    hide CommitProposal, CheckoutEntries;
    EntriesConserve(p, electricity);
  }

  lemma InputIsNonNegative(input: CheckoutInput)
    requires NormalizeInput(input).Success?
    ensures var n := NormalizeInput(input).value;
            n.lease == input.lease && n.cleaningFee >= 0 && n.keyCardFee >= 0 && n.otherFee >= 0 && n.rentRefund >= 0
  {
  }

  lemma CommittedEntries(s: Store, p: Settlement, electricity: Option<Calculation>)
    requires p.input.lease < |s.accounts|
    requires CommitProposal(s, p, electricity).Success?
    ensures var f := CommitProposal(s, p, electricity).value;
            && f.settlement == p.(token := None, finalized := true)
            && s.ledger <= f.outcome.store.ledger
            && f.outcome.store.ledger[|s.ledger|..]
                == CheckoutEntries(p.input.lease, p, RefundOf(p), DeductionOf(p), electricity)
  {
    hide DeductionReason, CheckoutEntries, WithSettledBill, TrimOptional;
  }

  // ---------- The token ----------

  // A token is accepted only for the inputs, lease version, bills and computed lines it was made for,
  // so what is committed is what was previewed.
  lemma TokenBindsPreview(s: Store, input: CheckoutInput, unitPrice: Option<real>,
                          s': Store, input': CheckoutInput, unitPrice': Option<real>)
    requires Preview(s, input, unitPrice).Success?
    requires FinalizeOutcome(s', input', unitPrice', Preview(s, input, unitPrice).value.token).Success?
    ensures var p := Preview(s, input, unitPrice).value;
            var q := FinalizeOutcome(s', input', unitPrice', p.token).value.settlement;
            && q.input == p.input && q.lines == p.lines
            && q.depositAmount == p.depositAmount && q.totalRefund == p.totalRefund && q.totalCharge == p.totalCharge
            && q.netDirection == p.netDirection && q.netAmount == p.netAmount
            && input'.lease == input.lease
            && s'.accounts[input.lease].lease.version == s.accounts[input.lease].lease.version
            && BillViews(s'.accounts[input.lease].bills) == BillViews(s.accounts[input.lease].bills)
  {
    var n, electricity := PreviewFacts(s, input, unitPrice);
    var p := Preview(s, input, unitPrice).value;
    var n' := NormalizeInput(input').value;
    InputIsNonNegative(input');
    var electricity' := CheckoutElectricity(s'.accounts[input'.lease], n', unitPrice').value;
    var p' := Proposal(s'.accounts[input'.lease], n', electricity');
    assert p'.token == p.token;
    CommittedEntries(s', p', electricity');
    hide Preview, NormalizeInput, CheckoutElectricity, SettlementLines, SettlementBlockers, BillViews, CommitProposal,
        CheckoutEntries;
  }

  // What a token stands for.
  ghost predicate SamePayload(s: Store, p: Settlement, s': Store, p': Settlement)
    requires p.input.lease < |s.accounts| && p'.input.lease < |s'.accounts|
  {
    var a, a' := s.accounts[p.input.lease], s'.accounts[p'.input.lease];
    && p'.input == p.input
    && p'.lines == p.lines
    && a'.lease.version == a.lease.version
    && BillViews(a'.bills) == BillViews(a.bills)
  }

  // Proposals without blockers have the same token exactly when inputs, lines, lease version and bills agree:
  // the totals and the deposit are in the lines.
  lemma TokensAgree(a: Account, n: CheckoutInput, electricity: Option<Calculation>,
                    a': Account, n': CheckoutInput, electricity': Option<Calculation>)
    requires Proposal(a, n, electricity).blockers == [] && Proposal(a', n', electricity').blockers == []
    ensures var p, p' := Proposal(a, n, electricity), Proposal(a', n', electricity');
            p'.token == p.token
            <==> && n' == n && p'.lines == p.lines
                 && a'.lease.version == a.lease.version && BillViews(a'.bills) == BillViews(a.bills)
  {
    DepositIsFirstLine(a.lease.depositAmount, n, electricity);
    DepositIsFirstLine(a'.lease.depositAmount, n', electricity');
    hide SettlementLines, SettlementBlockers, BillViews, TotalOf;
  }

  lemma DepositIsFirstLine(depositAmount: int, input: CheckoutInput, electricity: Option<Calculation>)
    ensures SettlementLines(depositAmount, input, electricity) != []
    ensures SettlementLines(depositAmount, input, electricity)[0].amount == depositAmount
  {
    hide ChargeOf;
  }

  // Finalizing one state with the token previewed on another: it is refused as blocked exactly when the
  // second state's proposal is blocked, and otherwise as stale exactly when an input, a line, the lease
  // version or the bill list has changed.
  lemma ChangedStateIsRefused(s: Store, input: CheckoutInput, unitPrice: Option<real>,
                              s': Store, input': CheckoutInput, unitPrice': Option<real>)
    requires Preview(s, input, unitPrice).Success? && Preview(s, input, unitPrice).value.blockers == []
    requires Preview(s', input', unitPrice').Success?
    ensures var p, p' := Preview(s, input, unitPrice).value, Preview(s', input', unitPrice').value;
            var f := FinalizeOutcome(s', input', unitPrice', p.token);
            && p.input.lease < |s.accounts| && p'.input.lease < |s'.accounts|
            && (f == Failure(Blocked(p'.blockers)) <==> p'.blockers != [])
            && (f == Failure(Stale) <==> p'.blockers == [] && !SamePayload(s, p, s', p'))
  {
    var n, electricity := PreviewFacts(s, input, unitPrice);
    var n', electricity' := PreviewFacts(s', input', unitPrice');
    var a, a' := s.accounts[input.lease], s'.accounts[input'.lease];
    hide Preview, NormalizeInput, CheckoutElectricity;
    ProposalInput(a, n, electricity);
    ProposalInput(a', n', electricity');
    TokenIffUnblocked(a, n, electricity);
    TokenIffUnblocked(a', n', electricity');
    CommitIsNotRefused(s', Proposal(a', n', electricity'), electricity');
    hide Proposal, CommitProposal, BillViews;
    if Proposal(a', n', electricity').blockers == [] {
      TokensAgree(a, n, electricity, a', n', electricity');
    }
  }

  lemma TokenIffUnblocked(a: Account, input: CheckoutInput, electricity: Option<Calculation>)
    ensures Proposal(a, input, electricity).token.Some? <==> Proposal(a, input, electricity).blockers == []
  {
    hide SettlementLines, SettlementBlockers, TotalOf, BillViews;
  }

  // Past the token, only the aggregate refuses.
  lemma CommitIsNotRefused(s: Store, p: Settlement, electricity: Option<Calculation>)
    requires p.input.lease < |s.accounts|
    ensures CommitProposal(s, p, electricity).Failure? ==> CommitProposal(s, p, electricity).error.Rejected?
  {
    hide NormalizeState, SettledDeposit, TerminatedLease, CheckoutEntries, WithSettledBill, DeductionReason;
  }
}
