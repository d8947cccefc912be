/**
 Which reading a charge counts from, and when readings and payments are accepted
 (internal/domain/billing/aggregate.go, internal/application/billing/record_meter.go,
 internal/application/lease/checkout_settlement.go).
 */
module Readings {
  import opened Basics
  import opened Leases
  import opened Billing
  import opened BillLists
  import opened Books
  import opened MeterChain
  import opened Checkout

  // ---------- Where the meter of a lease stands ----------

  // An electricity bill with a reading that ends before a day.
  predicate HasReading(b: Bill, before: Day) {
    b.kind == Electricity && b.meter.Some? && b.period.last < before
  }

  // The reading of the last bill read, in the order by period end, due date and creation, or else the
  // starting reading of the lease, or else zero.
  ghost predicate StandsAt(a: Account, before: Day, reading: int) {
    || (exists k: nat :: k < |a.bills| && HasReading(a.bills[k], before) && a.bills[k].meter.value.current == reading
          && forall j: nat | j < |a.bills| && HasReading(a.bills[j], before) :: RanksBefore(a.bills, j, k))
    || ((forall b | b in a.bills :: !HasReading(b, before))
          && reading == match a.lease.startingReading case Some(start) => start case None => 0)
  }

  lemma PreviousStands(a: Account, before: Day)
    ensures StandsAt(a, before, PreviousReading(a, before))
  {
    hide LatestMetered, RanksBefore;
    if LatestMetered(a.bills, before).Some? {
      var k := LatestMeteredIsLast(a.bills, before);
      assert HasReading(a.bills[k], before);
      forall j: nat | j < |a.bills| && HasReading(a.bills[j], before)
        ensures RanksBefore(a.bills, j, k)
      {
        assert MeteredBefore(a.bills[j], before);
      }
    } else {
      forall b | b in a.bills
        ensures !HasReading(b, before)
      {
        assert !MeteredBefore(b, before);
      }
    }
  }

  // There is only one such reading.
  lemma StandsOnce(a: Account, before: Day, x: int, y: int)
    requires StandsAt(a, before, x) && StandsAt(a, before, y)
    ensures x == y
  {
    if exists b :: b in a.bills && HasReading(b, before) {
      var k: nat :| k < |a.bills| && HasReading(a.bills[k], before) && a.bills[k].meter.value.current == x
        && forall j: nat | j < |a.bills| && HasReading(a.bills[j], before) :: RanksBefore(a.bills, j, k);
      var l: nat :| l < |a.bills| && HasReading(a.bills[l], before) && a.bills[l].meter.value.current == y
        && forall j: nat | j < |a.bills| && HasReading(a.bills[j], before) :: RanksBefore(a.bills, j, l);
      assert RanksBefore(a.bills, k, l) && RanksBefore(a.bills, l, k);
    }
  }

  // ---------- Recording a reading ----------

  // A reading is accepted for an electricity bill that awaits it, when a price is known and the meter has
  // not run backwards; it is charged from where the meter stood before the bill's period.
  lemma ReadingIsAccepted(a: Account, i: nat, current: int, unitPrice: Option<real>, stood: int)
    requires i < |a.bills| ==> StandsAt(a, a.bills[i].period.first, stood)
    ensures var r := RecordedReading(a, i, current, unitPrice);
            && (r == Failure(BillNotFound) <==> i >= |a.bills|)
            && (r == Failure(MeterPriceMissing) <==> i < |a.bills| && unitPrice.None?)
            && (r == Failure(BillNotElectricity)
                <==> i < |a.bills| && unitPrice.Some? && a.bills[i].kind != Electricity)
            && (r == Failure(BillStatusNotRecordable)
                <==> i < |a.bills| && unitPrice.Some? && a.bills[i].kind == Electricity
                     && a.bills[i].status != PendingMeter)
            && (r == Failure(ReadingLessThanPrevious)
                <==> i < |a.bills| && unitPrice.Some? && a.bills[i].kind == Electricity
                     && a.bills[i].status == PendingMeter && current < stood)
            && (r.Success?
                <==> i < |a.bills| && unitPrice.Some? && a.bills[i].kind == Electricity
                     && a.bills[i].status == PendingMeter && current >= stood)
            && (r.Success? ==>
                  r.value == a.(bills := a.bills[i := a.bills[i].(
                      status := PendingPayment, meter := Some(Meter(stood, current, unitPrice.value)),
                      amount := Some(ElectricityAmount(current - stood, unitPrice.value)),
                      version := a.bills[i].version + 1)]))
  {
    if i < |a.bills| {
      PreviousStands(a, a.bills[i].period.first);
      StandsOnce(a, a.bills[i].period.first, stood, PreviousReading(a, a.bills[i].period.first));
    }
    hide StandsAt, PreviousReading, ElectricityAmount;
  }

  // ---------- Paying a bill ----------

  // A payment is accepted for a bill that is payable or overdue and for exactly its amount.
  lemma PaymentIsAccepted(a: Account, i: nat, paidAmount: int)
    requires i < |a.bills|
    ensures var r, b := PaidBill(a.bills[i], paidAmount), a.bills[i];
            && (r == Failure(BillAlreadyPaid) <==> b.status == Paid)
            && (r == Failure(BillStatusNotPayable)
                <==> b.status == PendingMeter || b.status == Voided || b.status == WrittenOff)
            && (r == Failure(BillAmountMissing)
                <==> (b.status == PendingPayment || b.status == Overdue) && b.amount.None?)
            && (r == Failure(BillPaidAmountMismatch)
                <==> && (b.status == PendingPayment || b.status == Overdue)
                     && b.amount.Some? && b.amount != Some(paidAmount))
            && (r.Success?
                <==> (b.status == PendingPayment || b.status == Overdue) && b.amount == Some(paidAmount))
    ensures AfterStep(a, PayBill(i, paidAmount))
            == if (a.bills[i].status == PendingPayment || a.bills[i].status == Overdue)
                  && a.bills[i].amount == Some(paidAmount)
               then a.(bills := a.bills[i := a.bills[i].(status := Paid, paidAmount := Some(paidAmount),
                                                         version := a.bills[i].version + 1)])
               else a
  {
  }

  // Only a bill that is payable becomes overdue, and only an active lease expires.
  lemma MarksAndExpiry(a: Account, i: nat)
    ensures AfterStep(a, MarkOverdue(i))
            == if i < |a.bills| && a.bills[i].status == PendingPayment
               then a.(bills := a.bills[i := a.bills[i].(status := Overdue, version := a.bills[i].version + 1)])
               else a
    ensures AfterStep(a, Expire)
            == if a.lease.status == Active
               then a.(lease := a.lease.(status := Expired, version := a.lease.version + 1)) else a
  {
  }

  // ---------- The final reading of a checkout ----------

  // The one bill awaiting its meter, an electricity bill that ends on the checkout day.
  ghost predicate IsFinalBill(bills: seq<Bill>, input: CheckoutInput, i: nat) {
    && i < |bills| && bills[i].kind == Electricity && bills[i].status == PendingMeter
    && bills[i].period.last == input.checkoutDate
    && forall j | 0 <= j < |bills| && bills[j].status == PendingMeter :: j == i
  }

  lemma {:induction false} OnePosition(bills: seq<Bill>, selected: Bill -> bool, i: nat)
    requires i < |bills| && selected(bills[i])
    requires forall j | 0 <= j < |bills| && selected(bills[j]) :: j == i
    ensures Positions(bills, selected) == [i]
  {
    var n := |bills| - 1;
    if i < n {
      OnePosition(bills[..n], selected, i);
    } else {
      forall b | b in bills[..n]
        ensures !selected(b)
      {
        var j :| 0 <= j < n && bills[j] == b;
      }
      NoPositions(bills[..n], selected);
    }
  }

  lemma ResolvableIsFinal(bills: seq<Bill>, input: CheckoutInput, i: nat)
    ensures ResolvableMeterBill(bills, input) == Some(i) <==> input.finalReading.Some? && IsFinalBill(bills, input, i)
  {
    hide Positions;
    var pending := Positions(bills, PendingMeters());
    if IsFinalBill(bills, input, i) {
      OnePosition(bills, PendingMeters(), i);
    }
    if ResolvableMeterBill(bills, input) == Some(i) {
      forall j: nat {
        PositionsSelect(bills, PendingMeters(), j);
      }
      forall j | 0 <= j < |bills| && bills[j].status == PendingMeter
        ensures j == i
      {
        assert j in pending;
      }
      assert i in pending;
    }
  }

  // Nothing is owed, and at most the final bill awaits its meter.
  ghost predicate ReadyForReading(bills: seq<Bill>, input: CheckoutInput) {
    && (forall b | b in bills :: b.status != PendingPayment && b.status != Overdue)
    && ((forall b | b in bills :: b.status != PendingMeter) || exists i: nat :: IsFinalBill(bills, input, i))
  }

  // The day up to which readings count: the start of the final bill, or else the day after the checkout.
  ghost predicate CountsFrom(bills: seq<Bill>, input: CheckoutInput, before: Day) {
    if exists i: nat :: IsFinalBill(bills, input, i)
    then exists i: nat :: IsFinalBill(bills, input, i) && before == bills[i].period.first
    else before == input.checkoutDate + 1
  }

  // The final charge: without a final reading, or with anything else still open, there is none; otherwise
  // it runs from where the meter stood up to the final reading, and a charge of nothing that settles no
  // bill is dropped.
  lemma FinalChargeIsExact(a: Account, input: CheckoutInput, unitPrice: Option<real>, before: Day, stood: int)
    requires CountsFrom(a.bills, input, before) && StandsAt(a, before, stood)
    ensures var r, ready := CheckoutElectricity(a, input, unitPrice),
            input.finalReading.Some? && ReadyForReading(a.bills, input);
            && (!ready ==> r == Success(None))
            && (r == Failure(UnitPriceMissing) <==> ready && unitPrice.None?)
            && (r == Failure(ReadingBelowPrevious) <==> ready && unitPrice.Some? && input.finalReading.value < stood)
            && (ready && unitPrice.Some? && input.finalReading.value >= stood ==>
                  var final := input.finalReading.value;
                  var amount := ElectricityAmount(final - stood, unitPrice.value);
                  && r.Success?
                  && (r.value.None? <==> amount == 0 && forall i: nat :: !IsFinalBill(a.bills, input, i))
                  && (r.value.Some? ==>
                        && r.value.value.previous == stood && r.value.value.current == final
                        && r.value.value.unitPrice == unitPrice.value && r.value.value.amount == amount
                        && (r.value.value.sourceBill.None? <==> forall i: nat :: !IsFinalBill(a.bills, input, i))
                        && (r.value.value.sourceBill.Some? ==>
                              IsFinalBill(a.bills, input, r.value.value.sourceBill.value))))
  {
    forall i: nat {
      ResolvableIsFinal(a.bills, input, i);
    }
    var source := ResolvableMeterBill(a.bills, input);
    hide ResolvableMeterBill, StandsAt, ElectricityAmount, PreviousReading;
    if input.finalReading.Some? && ReadyForReading(a.bills, input) {
      ReadyIsAllowed(a.bills, input, source);
      CountsBefore(a.bills, input, before, source);
      PreviousStands(a, before);
      StandsOnce(a, before, stood, PreviousReading(a, before));
      hide IsFinalBill, ReadyForReading, CountsFrom, CalculationAllowed;
    } else {
      NotReadyIsNotAllowed(a.bills, input, source);
    }
  }

  lemma ReadyIsAllowed(bills: seq<Bill>, input: CheckoutInput, source: Option<nat>)
    requires input.finalReading.Some? && ReadyForReading(bills, input)
    requires source == ResolvableMeterBill(bills, input)
    requires forall i: nat :: source == Some(i) <==> IsFinalBill(bills, input, i)
    ensures CalculationAllowed(bills, input)
  {
    hide ResolvableMeterBill, IsFinalBill;
  }

  lemma NotReadyIsNotAllowed(bills: seq<Bill>, input: CheckoutInput, source: Option<nat>)
    requires !(input.finalReading.Some? && ReadyForReading(bills, input))
    requires source == ResolvableMeterBill(bills, input)
    requires forall i: nat :: source == Some(i) <==> input.finalReading.Some? && IsFinalBill(bills, input, i)
    ensures !CalculationAllowed(bills, input)
  {
    hide ResolvableMeterBill, IsFinalBill;
  }

  lemma CountsBefore(bills: seq<Bill>, input: CheckoutInput, before: Day, source: Option<nat>)
    requires CountsFrom(bills, input, before)
    requires forall i: nat :: source == Some(i) <==> IsFinalBill(bills, input, i)
    ensures source.Some? ==> source.value < |bills|
    ensures before == if source.Some? then bills[source.value].period.first else input.checkoutDate + 1
  {
  }

  // ---------- A chain of readings closed by a checkout ----------

  // n readings recorded in period order, and a checkout that reads the meter after them, whatever else
  // happens in between: the checkout counts from the last of them, and the rounded bills and the final
  // charge together differ from the price of the whole consumption by at most n + 1 halves.
  lemma CheckoutClosesChain(a: Account, between: seq<seq<AccountStep>>, order: seq<nat>, readings: seq<int>,
                            unitPrice: real, after: seq<AccountStep>, input: CheckoutInput, before: Day)
    requires |order| == |readings| == |between| > 0
    requires InPeriodOrder(a.bills, order) && OnlyOtherSteps(between) && OnlyOtherSteps([after])
    requires RecordedReadings(a, between, order, readings, unitPrice, |order|).Success?
    requires a.bills[order[|order| - 1]].period.last < before && NoneBetween(a.bills, order[|order| - 1], before)
    requires var b := Run(Progress(RecordedReadings(a, between, order, readings, unitPrice, |order|).value, []),
                 after).account;
             && CountsFrom(b.bills, input, before) && ReadyForReading(b.bills, input)
             && input.finalReading.Some? && input.finalReading.value >= readings[|order| - 1]
    ensures var n := |order|;
            var b := Run(Progress(RecordedReadings(a, between, order, readings, unitPrice, n).value, []),
                after).account;
            var r := CheckoutElectricity(b, input, Some(unitPrice));
            && r.Success?
            && (r.value.Some? ==> r.value.value.previous == readings[n - 1])
            && Within(BilledTotal(b.bills, order, n) + ChargeOf(r.value),
                      Price(input.finalReading.value - PreviousReading(a, a.bills[order[0]].period.first), unitPrice),
                      n + 1)
  {
    hide *;
    var n := |order|;
    var was := RecordedReadings(a, between, order, readings, unitPrice, n).value;
    var b := Run(Progress(was, []), after).account;
    ReadingsChain(a, between, order, readings, unitPrice, n);
    OtherStepsKeepMeters(was, [after], 0);
    ChainKept(a, was, b, order, readings, unitPrice, n);
    PreviousAfterChain(a, b, order, readings, unitPrice, n, before);
    PreviousStands(b, before);
    FinalChargeIsExact(b, input, Some(unitPrice), before, readings[n - 1]);
    FinalAmount(b, input, unitPrice, readings[n - 1]);
    ChainTotalIsClose(a, b, order, readings, unitPrice, n);
    ChainEnds(a, order, readings);
    BillAddsHalf(BilledTotal(b.bills, order, n), unitPrice, PreviousReading(a, a.bills[order[0]].period.first),
        readings[n - 1], input.finalReading.value, n);
  }

  lemma FinalAmount(a: Account, input: CheckoutInput, unitPrice: real, stood: int)
    requires input.finalReading.Some?
    requires var r, amount := CheckoutElectricity(a, input, Some(unitPrice)),
                 ElectricityAmount(input.finalReading.value - stood, unitPrice);
             r.Success? && (r.value.None? ==> amount == 0) && (r.value.Some? ==> r.value.value.amount == amount)
    ensures ChargeOf(CheckoutElectricity(a, input, Some(unitPrice)).value)
            == ElectricityAmount(input.finalReading.value - stood, unitPrice)
  {
    hide CheckoutElectricity, ElectricityAmount;
  }
}
