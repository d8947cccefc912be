/**
 A chain of meter readings of one lease, recorded in period order over any run of other steps
 (internal/application/billing/record_meter.go, internal/domain/billing/aggregate.go).
 */
module MeterChain {
  import opened Basics
  import opened Schedules
  import opened BillingPeriods
  import opened Leases
  import opened Billing
  import opened BillLists
  import opened Books

  // ---------- Other steps leave the meters alone ----------

  // The bills of b continue those of a: only rent bills are new, and no reading changed.
  ghost predicate ReadingsKept(a: Account, b: Account) {
    && b.lease.startingReading == a.lease.startingReading
    && |a.bills| <= |b.bills|
    && (forall i | 0 <= i < |a.bills| ::
          b.bills[i].period == a.bills[i].period && b.bills[i].kind == a.bills[i].kind
              && b.bills[i].meter == a.bills[i].meter)
    && (forall i | |a.bills| <= i < |b.bills| :: b.bills[i].kind == Rent)
  }

  ghost predicate MetersKept(a: Account, b: Account) {
    && ReadingsKept(a, b)
    && (forall i | 0 <= i < |a.bills| && a.bills[i].kind == Electricity :: b.bills[i].amount == a.bills[i].amount)
  }

  lemma StepKeepsMeters(a: Account, step: AccountStep)
    requires !step.ReadMeter?
    ensures MetersKept(a, AfterStep(a, step))
  {
    hide RentSchedule, FirstPointAfter, PaymentGrid, HasLockedRent;
  }

  lemma {:induction false} RunKeepsMeters(p: Progress, steps: seq<AccountStep>)
    requires forall step | step in steps :: !step.ReadMeter?
    ensures MetersKept(p.account, Run(p, steps).account)
    decreases |steps|
  {
    if steps != [] {
      StepKeepsMeters(p.account, steps[0]);
      hide AfterStep;
      RunKeepsMeters(Progress(AfterStep(p.account, steps[0]), ChangesAfter(p.account, p.changes, steps[0])),
          steps[1..]);
    }
  }

  // ---------- The chain ----------

  // The first n readings, each recorded after steps of its own.
  function RecordedReadings(a: Account, between: seq<seq<AccountStep>>, order: seq<nat>, readings: seq<int>,
                            unitPrice: real, n: nat): Result<Account, BillError>
    requires n <= |order| == |readings| == |between|
  {
    if n == 0 then Success(a)
    else
      var r := RecordedReadings(a, between, order, readings, unitPrice, n - 1);
      if r.Failure? then r
      else RecordedReading(Run(Progress(r.value, []), between[n - 1]).account, order[n - 1], readings[n - 1],
          Some(unitPrice))
  }

  // Bills of the account, one period after the other; none metered already ends between two of them.
  ghost predicate InPeriodOrder(bills: seq<Bill>, order: seq<nat>) {
    && (forall j | 0 <= j < |order| :: order[j] < |bills|)
    && (forall j, k | 0 <= j < k < |order| ::
          bills[order[j]].period.last < bills[order[k]].period.first <= bills[order[k]].period.last)
    && (forall i, j | 0 <= i < |bills| && bills[i].kind == Electricity && bills[i].meter.Some? && 0 < j < |order| ::
          bills[i].period.last < bills[order[j - 1]].period.last
              || bills[i].period.last >= bills[order[j]].period.first)
  }

  ghost predicate OnlyOtherSteps(between: seq<seq<AccountStep>>) {
    forall steps, step | steps in between && step in steps :: !step.ReadMeter?
  }

  // Where reading j of the chain starts.
  function ReadingBefore(a: Account, order: seq<nat>, readings: seq<int>, j: nat): int
    requires j <= |readings|
  {
    if j > 0 then readings[j - 1]
    else if order != [] && order[0] < |a.bills| then PreviousReading(a, a.bills[order[0]].period.first)
    else 0
  }

  // What is left untouched: everything but the readings of the chain so far.
  ghost predicate FrameKept(a: Account, b: Account, done: seq<nat>) {
    && b.lease.startingReading == a.lease.startingReading
    && |a.bills| <= |b.bills|
    && (forall i | 0 <= i < |a.bills| :: b.bills[i].period == a.bills[i].period && b.bills[i].kind == a.bills[i].kind)
    && (forall i | 0 <= i < |a.bills| && i !in done :: b.bills[i].meter == a.bills[i].meter)
    && (forall i | |a.bills| <= i < |b.bills| :: b.bills[i].kind == Rent)
  }

  // Link j of the chain.
  ghost predicate Linked(a: Account, b: Account, order: seq<nat>, readings: seq<int>, unitPrice: real, j: nat)
    requires j < |order| == |readings|
  {
    var before := ReadingBefore(a, order, readings, j);
    && order[j] < |a.bills| && order[j] < |b.bills|
    && a.bills[order[j]].kind == b.bills[order[j]].kind == Electricity
    && before <= readings[j]
    && b.bills[order[j]].meter == Some(Meter(before, readings[j], unitPrice))
    && b.bills[order[j]].amount == Some(ElectricityAmount(readings[j] - before, unitPrice))
  }

  // The first n bills are metered from where the one before ended; no other reading changed.
  ghost predicate ChainRecorded(a: Account, b: Account, order: seq<nat>, readings: seq<int>, unitPrice: real, n: nat)
    requires n <= |order| == |readings|
  {
    && FrameKept(a, b, order[..n])
    && forall j: nat | j < n :: Linked(a, b, order, readings, unitPrice, j)
  }

  lemma ChainKept(a: Account, was: Account, b: Account, order: seq<nat>, readings: seq<int>, unitPrice: real, n: nat)
    requires n <= |order| == |readings|
    requires ChainRecorded(a, was, order, readings, unitPrice, n) && MetersKept(was, b)
    ensures ChainRecorded(a, b, order, readings, unitPrice, n)
  {
    hide FrameKept, Linked, MetersKept;
    FrameKeptOn(a, was, b, order[..n]);
    forall j: nat | j < n
      ensures Linked(a, b, order, readings, unitPrice, j)
    {
      LinkKept(a, was, b, order, readings, unitPrice, j);
    }
  }

  lemma FrameKeptOn(a: Account, was: Account, b: Account, done: seq<nat>)
    requires FrameKept(a, was, done) && MetersKept(was, b)
    ensures FrameKept(a, b, done)
  {
  }

  lemma LinkKept(a: Account, was: Account, b: Account, order: seq<nat>, readings: seq<int>, unitPrice: real, j: nat)
    requires j < |order| == |readings|
    requires Linked(a, was, order, readings, unitPrice, j) && MetersKept(was, b)
    ensures Linked(a, b, order, readings, unitPrice, j)
  {
    hide ReadingBefore, ElectricityAmount;
  }

  // Lists with the same readings have the same latest one.
  lemma SameLatest(a: Account, b: Account, before: Day)
    requires ReadingsKept(a, b)
    ensures PreviousReading(a, before) == PreviousReading(b, before)
  {
    hide LatestMetered;
    var x, y := LatestMetered(a.bills, before), LatestMetered(b.bills, before);
    forall i: nat | i < |b.bills|
      ensures MeteredBefore(b.bills[i], before) <==> i < |a.bills| && MeteredBefore(a.bills[i], before)
    {
    }
    forall i: nat | i < |a.bills| && MeteredBefore(a.bills[i], before)
      ensures x.Some? && y.Some?
    {
      assert a.bills[i] in a.bills && b.bills[i] in b.bills;
    }
    hide ReadingsKept, MeteredBefore;
    if y.Some? {
      var l := LatestMeteredIsLast(b.bills, before);
      var k := LatestMeteredIsLast(a.bills, before);
      SameRank(a, b, k, l);
    }
  }

  lemma SameRank(a: Account, b: Account, k: nat, l: nat)
    requires ReadingsKept(a, b)
    requires k < |a.bills| && l < |a.bills|
    requires RanksBefore(a.bills, l, k) && RanksBefore(b.bills, k, l)
    ensures k == l && a.bills[k].meter == b.bills[l].meter
  {
  }

  // No bill of the account that is metered already ends from one bill of the chain up to a later day.
  ghost predicate NoneBetween(bills: seq<Bill>, from: nat, before: Day)
    requires from < |bills|
  {
    forall i | 0 <= i < |bills| && bills[i].kind == Electricity && bills[i].meter.Some? ::
      bills[i].period.last < bills[from].period.last || bills[i].period.last >= before
  }

  lemma PreviousIsLastRecorded(a: Account, was: Account, order: seq<nat>, readings: seq<int>, unitPrice: real, n: nat)
    requires n < |order| == |readings|
    requires InPeriodOrder(a.bills, order)
    requires ChainRecorded(a, was, order, readings, unitPrice, n)
    ensures PreviousReading(was, was.bills[order[n]].period.first) == ReadingBefore(a, order, readings, n)
  {
    hide ElectricityAmount, LatestMetered, PreviousReading;
    var before := was.bills[order[n]].period.first;
    if n == 0 {
      assert order[..0] == [];
      SameLatest(a, was, before);
    } else {
      assert NoneBetween(a.bills, order[n - 1], before);
      PreviousAfterChain(a, was, order, readings, unitPrice, n, before);
    }
  }

  // Before any later day, the meter stands where the last bill of the chain left it.
  lemma PreviousAfterChain(a: Account, was: Account, order: seq<nat>, readings: seq<int>, unitPrice: real, n: nat,
                           before: Day)
    requires 0 < n <= |order| == |readings|
    requires InPeriodOrder(a.bills, order)
    requires ChainRecorded(a, was, order, readings, unitPrice, n)
    requires a.bills[order[n - 1]].period.last < before && NoneBetween(a.bills, order[n - 1], before)
    ensures PreviousReading(was, before) == readings[n - 1]
  {
    hide ElectricityAmount, LatestMetered;
    assert Linked(a, was, order, readings, unitPrice, n - 1);
    assert MeteredBefore(was.bills[order[n - 1]], before);
    var k := LatestMeteredIsLast(was.bills, before);
    assert RanksBefore(was.bills, order[n - 1], k);
    if k in order[..n] {
      var j :| 0 <= j < n && order[..n][j] == k;
      assert Linked(a, was, order, readings, unitPrice, j);
    }
  }

  lemma ChainStart(a: Account, order: seq<nat>, readings: seq<int>, unitPrice: real)
    requires |order| == |readings|
    ensures ChainRecorded(a, a, order, readings, unitPrice, 0)
  {
  }

  lemma RecordedFacts(was: Account, i: nat, reading: int, unitPrice: real, b: Account)
    requires RecordedReading(was, i, reading, Some(unitPrice)) == Success(b)
    ensures i < |was.bills| == |b.bills| && b.lease == was.lease
    ensures forall j | 0 <= j < |b.bills| && j != i :: b.bills[j] == was.bills[j]
    ensures b.bills[i].period == was.bills[i].period && b.bills[i].kind == was.bills[i].kind == Electricity
    ensures var previous := PreviousReading(was, was.bills[i].period.first);
            && previous <= reading
            && b.bills[i].meter == Some(Meter(previous, reading, unitPrice))
            && b.bills[i].amount == Some(ElectricityAmount(reading - previous, unitPrice))
  {
    hide PreviousReading, ElectricityAmount;
  }

  // A reading of one bill leaves the frame of the chain and every earlier link as they were.
  ghost predicate OneMore(was: Account, b: Account, i: nat) {
    && b.lease == was.lease
    && i < |was.bills| == |b.bills|
    && (forall j | 0 <= j < |b.bills| && j != i :: b.bills[j] == was.bills[j])
    && b.bills[i].period == was.bills[i].period && b.bills[i].kind == was.bills[i].kind
  }

  lemma FrameStep(a: Account, was: Account, b: Account, done: seq<nat>, i: nat)
    requires FrameKept(a, was, done) && OneMore(was, b, i)
    ensures FrameKept(a, b, done + [i])
  {
  }

  lemma LinkStays(a: Account, was: Account, b: Account, order: seq<nat>, readings: seq<int>, unitPrice: real, j: nat,
                  i: nat)
    requires j < |order| == |readings|
    requires Linked(a, was, order, readings, unitPrice, j) && OneMore(was, b, i) && order[j] != i
    ensures Linked(a, b, order, readings, unitPrice, j)
  {
    hide ReadingBefore, ElectricityAmount;
  }

  lemma NewLink(a: Account, was: Account, b: Account, order: seq<nat>, readings: seq<int>, unitPrice: real, n: nat)
    requires n < |order| == |readings|
    requires order[n] < |a.bills| && order[n] < |was.bills| && a.bills[order[n]].kind == was.bills[order[n]].kind
    requires PreviousReading(was, was.bills[order[n]].period.first) == ReadingBefore(a, order, readings, n)
    requires RecordedReading(was, order[n], readings[n], Some(unitPrice)) == Success(b)
    ensures OneMore(was, b, order[n]) && Linked(a, b, order, readings, unitPrice, n)
  {
    RecordedFacts(was, order[n], readings[n], unitPrice, b);
    hide RecordedReading, ReadingBefore, ElectricityAmount, PreviousReading;
  }

  lemma ChainStep(a: Account, was: Account, b: Account, order: seq<nat>, readings: seq<int>, unitPrice: real, n: nat)
    requires n < |order| == |readings|
    requires InPeriodOrder(a.bills, order)
    requires ChainRecorded(a, was, order, readings, unitPrice, n)
    requires order[n] < |was.bills|
    requires PreviousReading(was, was.bills[order[n]].period.first) == ReadingBefore(a, order, readings, n)
    requires RecordedReading(was, order[n], readings[n], Some(unitPrice)) == Success(b)
    ensures ChainRecorded(a, b, order, readings, unitPrice, n + 1)
  {
    hide InPeriodOrder, FrameKept, Linked, OneMore, RecordedReading, PreviousReading, ReadingBefore, ElectricityAmount;
    NextBill(a, was, order, readings, unitPrice, n);
    NewLink(a, was, b, order, readings, unitPrice, n);
    FrameStep(a, was, b, order[..n], order[n]);
    assert order[..n + 1] == order[..n] + [order[n]];
    forall j: nat | j < n
      ensures Linked(a, b, order, readings, unitPrice, j)
    {
      LinkStays(a, was, b, order, readings, unitPrice, j, order[n]);
    }
  }

  lemma NextBill(a: Account, was: Account, order: seq<nat>, readings: seq<int>, unitPrice: real, n: nat)
    requires n < |order| == |readings|
    requires InPeriodOrder(a.bills, order)
    requires ChainRecorded(a, was, order, readings, unitPrice, n)
    ensures order[n] < |a.bills| <= |was.bills| && a.bills[order[n]].kind == was.bills[order[n]].kind
    ensures forall j | 0 <= j < n :: order[j] != order[n]
  {
    hide ReadingBefore, ElectricityAmount;
  }

  // Recorded in period order, from any account and with any other steps in between, every bill is metered
  // from where the one before it ended, the first from where the lease's readings stood.
  lemma {:induction false} ReadingsChain(a: Account, between: seq<seq<AccountStep>>, order: seq<nat>,
                                         readings: seq<int>,
                                         unitPrice: real, n: nat)
    requires n <= |order| == |readings| == |between|
    requires InPeriodOrder(a.bills, order) && OnlyOtherSteps(between)
    requires RecordedReadings(a, between, order, readings, unitPrice, n).Success?
    ensures ChainRecorded(a, RecordedReadings(a, between, order, readings, unitPrice, n).value, order, readings,
            unitPrice, n)
    decreases n
  {
    hide *;
    if n == 0 {
      NothingRecorded(a, between, order, readings, unitPrice);
      ChainStart(a, order, readings, unitPrice);
    } else {
      LastReading(a, between, order, readings, unitPrice, n);
      ReadingsChain(a, between, order, readings, unitPrice, n - 1);
      var was := RecordedReadings(a, between, order, readings, unitPrice, n - 1).value;
      var mid := Run(Progress(was, []), between[n - 1]).account;
      OtherStepsKeepMeters(was, between, n - 1);
      ChainKept(a, was, mid, order, readings, unitPrice, n - 1);
      NextBill(a, mid, order, readings, unitPrice, n - 1);
      PreviousIsLastRecorded(a, mid, order, readings, unitPrice, n - 1);
      ChainStep(a, mid, RecordedReadings(a, between, order, readings, unitPrice, n).value, order, readings, unitPrice,
          n - 1);
    }
  }

  lemma NothingRecorded(a: Account, between: seq<seq<AccountStep>>, order: seq<nat>, readings: seq<int>,
                        unitPrice: real)
    requires |order| == |readings| == |between|
    ensures RecordedReadings(a, between, order, readings, unitPrice, 0) == Success(a)
  {
  }

  lemma LastReading(a: Account, between: seq<seq<AccountStep>>, order: seq<nat>, readings: seq<int>, unitPrice: real,
                    n: nat)
    requires 0 < n <= |order| == |readings| == |between|
    requires RecordedReadings(a, between, order, readings, unitPrice, n).Success?
    ensures var r := RecordedReadings(a, between, order, readings, unitPrice, n - 1);
            && r.Success?
            && RecordedReading(Run(Progress(r.value, []), between[n - 1]).account, order[n - 1], readings[n - 1],
                Some(unitPrice))
               == RecordedReadings(a, between, order, readings, unitPrice, n)
  {
    hide RecordedReading, Run;
  }

  lemma OtherStepsKeepMeters(was: Account, between: seq<seq<AccountStep>>, j: nat)
    requires j < |between| && OnlyOtherSteps(between)
    ensures MetersKept(was, Run(Progress(was, []), between[j]).account)
  {
    hide Run, MetersKept;
    assert between[j] in between;
    RunKeepsMeters(Progress(was, []), between[j]);
  }

  // ---------- The rounding error ----------

  lemma ChainAmount(a: Account, b: Account, order: seq<nat>, readings: seq<int>, unitPrice: real, j: nat)
    requires j < |order| == |readings|
    requires ChainRecorded(a, b, order, readings, unitPrice, |order|)
    ensures AmountAt(b.bills, order[j])
            == ElectricityAmount(ReadingBefore(a, order, readings, j + 1) - ReadingBefore(a, order, readings, j),
                unitPrice)
  {
    hide ElectricityAmount, PreviousReading, FrameKept;
    assert Linked(a, b, order, readings, unitPrice, j);
  }

  lemma {:induction false} ChainTotalIsClose(
    a: Account, b: Account, order: seq<nat>, readings: seq<int>, unitPrice: real, n: nat)
    requires n <= |order| == |readings|
    requires ChainRecorded(a, b, order, readings, unitPrice, |order|)
    ensures Within(BilledTotal(b.bills, order, n),
                   Price(ReadingBefore(a, order, readings, n) - ReadingBefore(a, order, readings, 0), unitPrice), n)
    decreases n
  {
    hide ElectricityAmount, Within, Price, ChainRecorded, ReadingBefore, AmountAt;
    var first := ReadingBefore(a, order, readings, 0);
    if n > 0 {
      var was, now := ReadingBefore(a, order, readings, n - 1), ReadingBefore(a, order, readings, n);
      ChainAmount(a, b, order, readings, unitPrice, n - 1);
      ChainTotalIsClose(a, b, order, readings, unitPrice, n - 1);
      BillAddsHalf(BilledTotal(b.bills, order, n - 1), unitPrice, first, was, now, n - 1);
    } else {
      ZeroIsExact(unitPrice);
    }
  }

  // n readings recorded in period order, whatever else happens in between: their rounded bills differ from
  // the price of the whole consumption by at most n halves.
  lemma RoundingErrorIsBounded(a: Account, between: seq<seq<AccountStep>>, order: seq<nat>, readings: seq<int>,
                               unitPrice: real)
    requires |order| == |readings| == |between| > 0
    requires InPeriodOrder(a.bills, order) && OnlyOtherSteps(between)
    requires RecordedReadings(a, between, order, readings, unitPrice, |order|).Success?
    ensures var n := |order|;
            var b := RecordedReadings(a, between, order, readings, unitPrice, n).value;
            Within(BilledTotal(b.bills, order, n),
                   Price(readings[n - 1] - PreviousReading(a, a.bills[order[0]].period.first), unitPrice), n)
  {
    hide *;
    ReadingsChain(a, between, order, readings, unitPrice, |order|);
    ChainTotalIsClose(a, RecordedReadings(a, between, order, readings, unitPrice, |order|).value, order, readings,
        unitPrice, |order|);
    ChainEnds(a, order, readings);
  }

  lemma ChainEnds(a: Account, order: seq<nat>, readings: seq<int>)
    requires |order| == |readings| > 0 && InPeriodOrder(a.bills, order)
    ensures order[0] < |a.bills|
    ensures ReadingBefore(a, order, readings, 0) == PreviousReading(a, a.bills[order[0]].period.first)
    ensures ReadingBefore(a, order, readings, |order|) == readings[|order| - 1]
  {
    hide PreviousReading;
  }
}
