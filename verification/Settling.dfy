/**
 Runs that settle an account: every open bill is metered where it has to be, and paid. They reach the
 accounts on which the limits of a replacement show.
 */
module Settling {
  import opened Basics
  import opened Leases
  import opened Billing
  import opened Books

  predicate IsOpen(status: BillStatus) {
    status == PendingMeter || status == PendingPayment || status == Overdue
  }

  // Open bills can be metered or paid, and no reading lies above the given one.
  ghost predicate Settleable(a: Account, reading: int) {
    && (a.lease.startingReading.Some? ==> a.lease.startingReading.value <= reading)
    && 0 <= reading
    && forall b | b in a.bills ::
         && (b.status == PendingMeter ==> b.kind == Electricity)
         && (b.status == PendingPayment || b.status == Overdue ==> b.amount.Some?)
         && (b.meter.Some? ==> b.meter.value.current <= reading)
  }

  function SettlingSteps(a: Account, i: nat, reading: int, unitPrice: real): seq<AccountStep>
    requires i < |a.bills|
  {
    var b := a.bills[i];
    if b.status == PendingMeter then
      [ReadMeter(i, reading, Some(unitPrice)),
       PayBill(i, ElectricityAmount(reading - PreviousReading(a, b.period.first), unitPrice))]
    else if IsOpen(b.status) && b.amount.Some? then [PayBill(i, b.amount.value)]
    else []
  }

  // A bill once settled: unchanged unless it was open, and metered at the reading if it waited for it.
  predicate Settles(b: Bill, c: Bill, reading: int) {
    && c.period == b.period && c.kind == b.kind
    && (!IsOpen(b.status) ==> c == b)
    && (IsOpen(b.status) ==> c.status == Paid && c.amount.Some?)
    && (b.status == PendingMeter ==> c.meter.Some? && c.meter.value.current == reading)
    && (b.status != PendingMeter ==> c.meter == b.meter)
  }

  // The first n bills of b are those of a, settled; the others are untouched.
  ghost predicate SettledTo(a: Account, b: Account, n: nat, reading: int) {
    && b.lease == a.lease
    && |b.bills| == |a.bills|
    && (forall i | 0 <= i < |a.bills| ::
        if i < n then Settles(a.bills[i], b.bills[i], reading) else b.bills[i] == a.bills[i])
  }

  lemma PreviousIsBelow(a: Account, before: Day, reading: int)
    requires Settleable(a, reading)
    ensures PreviousReading(a, before) <= reading
  {
  }

  lemma RunOne(p: Progress, step: AccountStep)
    requires !step.UpdateRent?
    ensures Run(p, [step]) == Progress(AfterStep(p.account, step), p.changes)
  {
    hide AfterStep;
    assert [step][1..] == [];
  }

  lemma Paying(a: Account, i: nat) returns (c: Bill)
    requires i < |a.bills| && (a.bills[i].status == PendingPayment || a.bills[i].status == Overdue)
             && a.bills[i].amount.Some?
    ensures AfterStep(a, PayBill(i, a.bills[i].amount.value)) == a.(bills := a.bills[i := c])
    ensures c.status == Paid && c.period == a.bills[i].period && c.kind == a.bills[i].kind
            && c.meter == a.bills[i].meter && c.amount == a.bills[i].amount
  {
    c := AfterStep(a, PayBill(i, a.bills[i].amount.value)).bills[i];
  }

  lemma Metering(a: Account, i: nat, reading: int, unitPrice: real) returns (c: Bill)
    requires Settleable(a, reading)
    requires i < |a.bills| && a.bills[i].status == PendingMeter
    ensures AfterStep(a, ReadMeter(i, reading, Some(unitPrice))) == a.(bills := a.bills[i := c])
    ensures c.status == PendingPayment && c.period == a.bills[i].period && c.kind == a.bills[i].kind
            && c.amount == Some(ElectricityAmount(reading - PreviousReading(a, a.bills[i].period.first), unitPrice))
            && c.meter.Some? && c.meter.value.current == reading
  {
    assert a.bills[i] in a.bills;
    PreviousIsBelow(a, a.bills[i].period.first, reading);
    hide PreviousReading, ElectricityAmount;
    c := AfterStep(a, ReadMeter(i, reading, Some(unitPrice))).bills[i];
  }

  lemma SettleOne(a: Account, i: nat, reading: int, unitPrice: real, changes: seq<RentChange>) returns (c: Bill)
    requires Settleable(a, reading) && i < |a.bills|
    ensures Settles(a.bills[i], c, reading)
    ensures Run(Progress(a, changes), SettlingSteps(a, i, reading, unitPrice))
            == Progress(a.(bills := a.bills[i := c]), changes)
  {
    hide PreviousReading, ElectricityAmount, AfterStep;
    assert a.bills[i] in a.bills;
    var b, steps := a.bills[i], SettlingSteps(a, i, reading, unitPrice);
    c := b;
    if b.status == PendingMeter {
      var metered := Metering(a, i, reading, unitPrice);
      var mid := a.(bills := a.bills[i := metered]);
      c := Paying(mid, i);
      assert steps == [steps[0]] + [steps[1]];
      RunAppend(Progress(a, changes), [steps[0]], [steps[1]]);
      RunOne(Progress(a, changes), steps[0]);
      RunOne(Progress(mid, changes), steps[1]);
      assert mid.bills[i := c] == a.bills[i := c];
    } else if IsOpen(b.status) {
      c := Paying(a, i);
      RunOne(Progress(a, changes), steps[0]);
    }
  }

  lemma SettledStaysSettleable(a: Account, i: nat, c: Bill, reading: int)
    requires Settleable(a, reading) && i < |a.bills|
    requires Settles(a.bills[i], c, reading)
    ensures Settleable(a.(bills := a.bills[i := c]), reading)
  {
    assert a.bills[i] in a.bills;
    forall b | b in a.bills[i := c]
      ensures b in a.bills || b == c
    {
    }
  }

  // Every account whose open bills can be metered or paid is settled by some run without rent changes.
  lemma {:induction false} SettleFirst(a: Account, n: nat, reading: int, unitPrice: real, changes: seq<RentChange>)
    returns (steps: seq<AccountStep>)
    requires Settleable(a, reading) && n <= |a.bills|
    ensures var r := Run(Progress(a, changes), steps);
            r.changes == changes && Settleable(r.account, reading) && SettledTo(a, r.account, n, reading)
  {
    hide Settleable, Settles, SettlingSteps;
    steps := [];
    if n > 0 {
      var before := SettleFirst(a, n - 1, reading, unitPrice, changes);
      var was := Run(Progress(a, changes), before).account;
      var c := SettleOne(was, n - 1, reading, unitPrice, changes);
      SettledStaysSettleable(was, n - 1, c, reading);
      steps := before + SettlingSteps(was, n - 1, reading, unitPrice);
      hide Run;
      RunAppend(Progress(a, changes), before, SettlingSteps(was, n - 1, reading, unitPrice));
    }
  }

  lemma SettleAll(a: Account, reading: int, unitPrice: real, changes: seq<RentChange>) returns (steps: seq<AccountStep>)
    requires Settleable(a, reading)
    ensures var r := Run(Progress(a, changes), steps);
            r.changes == changes && SettledTo(a, r.account, |a.bills|, reading)
  {
    hide *;
    steps := SettleFirst(a, |a.bills|, reading, unitPrice, changes);
  }
}
