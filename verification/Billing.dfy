/**
 internal/domain/billing/aggregate.go and internal/application/billing/record_meter.go: the bill state
 machine, and electricity readings that each start where the lease's last recorded reading ended.
 */
module Billing {
  import opened Basics
  import opened Leases

  datatype BillError =
    | BillNotFound
    | BillAlreadyPaid
    | BillStatusNotPayable
    | BillAmountMissing
    | BillPaidAmountMismatch
    | BillNotElectricity
    | BillStatusNotRecordable
    | ReadingLessThanPrevious
    | MeterPriceMissing

  // ---------- Rounded amounts ----------

  // math.Round: to the nearest integer, halves away from zero.
  function Round(x: real): int {
    if x >= 0.0 then (x + 0.5).Floor else -((-x + 0.5).Floor)
  }

  function Price(usage: int, unitPrice: real): real {
    unitPrice * usage as real
  }

  function ElectricityAmount(usage: int, unitPrice: real): int {
    Round(Price(usage, unitPrice))
  }

  lemma AmountIsClose(usage: int, unitPrice: real)
    ensures -0.5 <= ElectricityAmount(usage, unitPrice) as real - Price(usage, unitPrice) <= 0.5
  {
  }

  lemma RoundMonotone(x: real, y: real)
    requires x <= y
    ensures Round(x) <= Round(y)
  {
  }

  // An exact half is rounded away from zero.
  lemma HalvesRoundAway(usage: int, unitPrice: real, n: nat)
    ensures unitPrice * usage as real == n as real + 0.5 ==> ElectricityAmount(usage, unitPrice) == n + 1
    ensures unitPrice * usage as real == -(n as real + 0.5) ==> ElectricityAmount(usage, unitPrice) == -(n + 1)
  {
    assert Price(usage, unitPrice) == unitPrice * usage as real;
    hide Price;
    assert (n as real + 0.5 + 0.5).Floor == n + 1;
  }

  // A price less than half from a whole amount is billed as that amount.
  lemma NearestIsBilled(usage: int, unitPrice: real, n: int)
    ensures n as real - 0.5 < unitPrice * usage as real < n as real + 0.5 ==> ElectricityAmount(usage, unitPrice) == n
  {
    assert Price(usage, unitPrice) == unitPrice * usage as real;
    hide Price;
  }

  // Amounts are never negative and never fall when the reading rises.
  lemma AmountMonotone(usage: nat, more: nat, unitPrice: real)
    requires usage <= more && unitPrice >= 0.0
    ensures 0 <= ElectricityAmount(usage, unitPrice) <= ElectricityAmount(more, unitPrice)
  {
    PriceSplits(unitPrice, 0, usage, more);
    assert Price(usage, unitPrice) >= 0.0 && Price(more - usage, unitPrice) >= 0.0;
    RoundMonotone(Price(usage, unitPrice), Price(more, unitPrice));
    RoundMonotone(0.0, Price(usage, unitPrice));
  }

  // ---------- The bill aggregate ----------

  function MeteredBill(b: Bill, previous: int, current: int, unitPrice: real): Result<Bill, BillError> {
    if b.kind != Electricity then Failure(BillNotElectricity)
    else if b.status != PendingMeter then Failure(BillStatusNotRecordable)
    else if current < previous then Failure(ReadingLessThanPrevious)
    else Success(b.(meter := Some(Meter(previous, current, unitPrice)),
                    amount := Some(ElectricityAmount(current - previous, unitPrice)),
                    status := PendingPayment))
  }

  function PaidBill(b: Bill, paidAmount: int): Result<Bill, BillError> {
    if b.status == Paid then Failure(BillAlreadyPaid)
    else if b.status != PendingPayment && b.status != Overdue then Failure(BillStatusNotPayable)
    else if b.amount.None? then Failure(BillAmountMissing)
    else if paidAmount != b.amount.value then Failure(BillPaidAmountMismatch)
    else Success(b.(paidAmount := Some(paidAmount), status := Paid))
  }

  class BillAggregate {
    var state: Bill

    constructor (state: Bill)
      ensures this.state == state
    {
      this.state := state;
    }

    method RecordMeter(previous: int, current: int, unitPrice: real) returns (r: Result<(), BillError>)
      modifies this
      ensures r.Success? ==> MeteredBill(old(state), previous, current, unitPrice) == Success(state)
      ensures r.Failure? ==>
                MeteredBill(old(state), previous, current, unitPrice) == Failure(r.error) && state == old(state)
    {
      if state.kind != Electricity {
        return Failure(BillNotElectricity);
      }
      if state.status != PendingMeter {
        return Failure(BillStatusNotRecordable);
      }
      if current < previous {
        return Failure(ReadingLessThanPrevious);
      }
      var usage := current - previous;
      var amount := ElectricityAmount(usage, unitPrice);
      state := state.(meter := Some(Meter(previous, current, unitPrice)));
      state := state.(amount := Some(amount));
      state := state.(status := PendingPayment);
      return Success(());
    }

    method RecordPayment(paidAmount: int) returns (r: Result<(), BillError>)
      modifies this
      ensures r.Success? ==> PaidBill(old(state), paidAmount) == Success(state)
      ensures r.Failure? ==> PaidBill(old(state), paidAmount) == Failure(r.error) && state == old(state)
    {
      if state.status == Paid {
        return Failure(BillAlreadyPaid);
      }
      if state.status != PendingPayment && state.status != Overdue {
        return Failure(BillStatusNotPayable);
      }
      if state.amount.None? {
        return Failure(BillAmountMissing);
      }
      if paidAmount != state.amount.value {
        return Failure(BillPaidAmountMismatch);
      }
      state := state.(paidAmount := Some(paidAmount));
      state := state.(status := Paid);
      return Success(());
    }
  }

  // ---------- The previous reading of a lease ----------

  predicate MeteredBefore(b: Bill, before: Day) {
    b.kind == Electricity && b.meter.Some? && b.period.last < before
  }

  // Latest by period end, then by due date, then by creation.
  function LatestMetered(bills: seq<Bill>, before: Day): (latest: Option<Bill>)
    ensures latest.Some? ==> latest.value in bills && MeteredBefore(latest.value, before)
    ensures forall b | b in bills && MeteredBefore(b, before) ::
              latest.Some? && b.period.last <= latest.value.period.last
  {
    if bills == [] then None
    else
      var earlier, b := LatestMetered(bills[..|bills| - 1], before), bills[|bills| - 1];
      if !MeteredBefore(b, before) then earlier
      else if earlier.Some? && (earlier.value.period.last > b.period.last ||
                                (earlier.value.period.last == b.period.last && earlier.value.period.due > b.period.due))
      then earlier
      else Some(b)
  }

  // Position j comes before position k, or is k, in the order by period end, due date and creation.
  predicate RanksBefore(bills: seq<Bill>, j: nat, k: nat)
    requires j < |bills| && k < |bills|
  {
    var p, q := bills[j].period, bills[k].period;
    p.last < q.last || (p.last == q.last && (p.due < q.due || (p.due == q.due && j <= k)))
  }

  // The reading that counts is the last in that order.
  lemma {:induction false} LatestMeteredIsLast(bills: seq<Bill>, before: Day) returns (k: nat)
    requires LatestMetered(bills, before).Some?
    ensures k < |bills| && bills[k] == LatestMetered(bills, before).value && MeteredBefore(bills[k], before)
    ensures forall j: nat | j < |bills| && MeteredBefore(bills[j], before) :: RanksBefore(bills, j, k)
  {
    var n := |bills| - 1;
    var earlier := LatestMetered(bills[..n], before);
    k := n;
    if earlier.Some? {
      var e := LatestMeteredIsLast(bills[..n], before);
      assert bills[..n][e] == bills[e];
      if !MeteredBefore(bills[n], before) || !RanksBefore(bills, e, n) {
        k := e;
      }
      forall j: nat | j < |bills| && MeteredBefore(bills[j], before)
        ensures RanksBefore(bills, j, k)
      {
        if j < n {
          assert bills[..n][j] == bills[j];
          assert RanksBefore(bills[..n], j, e);
        }
      }
    } else {
      forall j: nat | j < n
        ensures !MeteredBefore(bills[j], before)
      {
        assert bills[..n][j] == bills[j];
      }
    }
  }

  function PreviousReading(a: Account, before: Day): int {
    var latest := LatestMetered(a.bills, before);
    if latest.Some? then latest.value.meter.value.current
    else if a.lease.startingReading.Some? then a.lease.startingReading.value
    else 0
  }

  // ---------- RecordMeterService ----------

  function RecordedReading(a: Account, i: nat, current: int, unitPrice: Option<real>): Result<Account, BillError> {
    if i >= |a.bills| then Failure(BillNotFound)
    else if unitPrice.None? then Failure(MeterPriceMissing)
    else
      var r := MeteredBill(a.bills[i], PreviousReading(a, a.bills[i].period.first), current, unitPrice.value);
      if r.Failure? then Failure(r.error)
      else Success(a.(bills := a.bills[i := r.value.(version := r.value.version + 1)]))
  }

  method RecordMeter(a: Account, i: nat, current: int, unitPrice: Option<real>)
    returns (r: Result<Account, BillError>)
    ensures r == RecordedReading(a, i, current, unitPrice)
  {
    if i >= |a.bills| {
      return Failure(BillNotFound);
    }
    var previous := PreviousReading(a, a.bills[i].period.first);
    if unitPrice.None? {
      return Failure(MeterPriceMissing);
    }
    var aggregate := new BillAggregate(a.bills[i]);
    var recorded := aggregate.RecordMeter(previous, current, unitPrice.value);
    if recorded.Failure? {
      return Failure(recorded.error);
    }
    var updated := aggregate.state.(version := a.bills[i].version + 1);
    return Success(a.(bills := a.bills[i := updated]));
  }

  // ---------- Sums of rounded amounts ----------

  function BilledTotal(bills: seq<Bill>, order: seq<nat>, n: nat): int
    requires n <= |order|
  {
    if n == 0 then 0 else BilledTotal(bills, order, n - 1) + AmountAt(bills, order[n - 1])
  }

  function AmountAt(bills: seq<Bill>, i: nat): int {
    if i < |bills| && bills[i].amount.Some? then bills[i].amount.value else 0
  }

  // The total lies within n halves of the exact price.
  predicate Within(total: int, exact: real, n: nat) {
    -0.5 * n as real <= total as real - exact <= 0.5 * n as real
  }

  lemma ZeroIsExact(unitPrice: real)
    ensures Within(0, Price(0, unitPrice), 0)
  {
  }

  lemma BillAddsHalf(total: int, unitPrice: real, first: int, was: int, now: int, n: nat)
    requires Within(total, Price(was - first, unitPrice), n)
    ensures Within(total + ElectricityAmount(now - was, unitPrice), Price(now - first, unitPrice), n + 1)
  {
    AmountIsClose(now - was, unitPrice);
    PriceSplits(unitPrice, first, was, now);
    hide ElectricityAmount, Price;
  }

  lemma PriceSplits(unitPrice: real, a: int, b: int, c: int)
    ensures Price(c - a, unitPrice) == Price(b - a, unitPrice) + Price(c - b, unitPrice)
  {
    assert (c - a) as real == (b - a) as real + (c - b) as real;
  }
}
