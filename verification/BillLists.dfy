/**
 The bills of one lease as a list, and the statements the lease repository runs on them
 (internal/platform/database/leases/repository.go).
 */
module BillLists {
  import opened Basics
  import opened Schedules
  import opened Leases

  // ---------- Generated bills ----------

  function RentSeed(p: BillingPeriod, rentAmount: int): Bill {
    Bill(Rent, PendingPayment, Some(rentAmount), p, None, None, 1)
  }

  function ElectricitySeed(p: BillingPeriod): Bill {
    Bill(Electricity, PendingMeter, None, p, None, None, 1)
  }

  function RentSeeds(periods: seq<BillingPeriod>, rentAmount: int): seq<Bill> {
    seq(|periods|, i requires 0 <= i < |periods| => RentSeed(periods[i], rentAmount))
  }

  function ElectricitySeeds(periods: seq<BillingPeriod>): seq<Bill> {
    seq(|periods|, i requires 0 <= i < |periods| => ElectricitySeed(periods[i]))
  }

  method BuildRentBillSeeds(rentAmount: int, rentPeriods: seq<BillingPeriod>) returns (bills: seq<Bill>)
    ensures bills == RentSeeds(rentPeriods, rentAmount)
  {
    bills := [];
    for i := 0 to |rentPeriods|
      invariant bills == RentSeeds(rentPeriods, rentAmount)[..i]
    {
      bills := bills + [RentSeed(rentPeriods[i], rentAmount)];
    }
  }

  method BuildBillSeeds(rentAmount: int, rentPeriods: seq<BillingPeriod>, electricityPeriods: seq<BillingPeriod>)
    returns (bills: seq<Bill>)
    ensures bills == RentSeeds(rentPeriods, rentAmount) + ElectricitySeeds(electricityPeriods)
  {
    bills := [];
    for i := 0 to |rentPeriods|
      invariant bills == RentSeeds(rentPeriods, rentAmount)[..i]
    {
      bills := bills + [RentSeed(rentPeriods[i], rentAmount)];
    }
    for i := 0 to |electricityPeriods|
      invariant bills == RentSeeds(rentPeriods, rentAmount) + ElectricitySeeds(electricityPeriods)[..i]
    {
      bills := bills + [ElectricitySeed(electricityPeriods[i])];
    }
  }

  // ---------- Locking and voiding ----------

  function MapBills(bills: seq<Bill>, f: Bill -> Bill): seq<Bill> {
    seq(|bills|, i requires 0 <= i < |bills| => f(bills[i]))
  }

  predicate IsPending(status: BillStatus) {
    status == PendingPayment || status == PendingMeter
  }

  predicate IsLockedRent(b: Bill, due: Day) {
    b.kind == Rent && b.period.due >= due && !IsPending(b.status) && b.status != Voided
  }

  predicate HasLockedRent(bills: seq<Bill>, due: Day) {
    exists b | b in bills :: IsLockedRent(b, due)
  }

  function VoidBill(b: Bill): Bill {
    b.(status := Voided, version := b.version + 1)
  }

  function VoidIfRentDue(due: Day): Bill -> Bill {
    (b: Bill) => if b.kind == Rent && b.period.due >= due && IsPending(b.status) then VoidBill(b) else b
  }

  function VoidRentFrom(bills: seq<Bill>, due: Day): seq<Bill> {
    MapBills(bills, VoidIfRentDue(due))
  }

  function VoidIfEndsFrom(boundary: Day): Bill -> Bill {
    (b: Bill) => if b.period.last >= boundary && IsPending(b.status) then VoidBill(b) else b
  }

  function VoidPendingFrom(bills: seq<Bill>, boundary: Day): seq<Bill> {
    MapBills(bills, VoidIfEndsFrom(boundary))
  }

  // ---------- The live rent bills ----------

  datatype RentLine = RentLine(period: BillingPeriod, amount: Option<int>)

  predicate IsLiveRent(b: Bill) {
    b.kind == Rent && b.status != Voided
  }

  function LineOf(b: Bill): seq<RentLine> {
    if IsLiveRent(b) then [RentLine(b.period, b.amount)] else []
  }

  function LiveRent(bills: seq<Bill>): seq<RentLine> {
    if bills == [] then [] else LineOf(bills[0]) + LiveRent(bills[1..])
  }

  function ElectricityOf(b: Bill): seq<BillingPeriod> {
    if b.kind == Electricity then [b.period] else []
  }

  function ElectricityPeriods(bills: seq<Bill>): seq<BillingPeriod> {
    if bills == [] then [] else ElectricityOf(bills[0]) + ElectricityPeriods(bills[1..])
  }

  lemma {:induction false} LiveRentAppend(a: seq<Bill>, b: seq<Bill>)
    ensures LiveRent(a + b) == LiveRent(a) + LiveRent(b)
  {
    if a == [] {
      assert a + b == b;
    } else {
      LiveRentAppend(a[1..], b);
      ConcatTail(a, b);
      ConcatAssociative(LineOf(a[0]), LiveRent(a[1..]), LiveRent(b));
    }
  }

  lemma {:induction false} ElectricityAppend(a: seq<Bill>, b: seq<Bill>)
    ensures ElectricityPeriods(a + b) == ElectricityPeriods(a) + ElectricityPeriods(b)
  {
    if a == [] {
      assert a + b == b;
    } else {
      ElectricityAppend(a[1..], b);
      ConcatTail(a, b);
      ConcatAssociative(ElectricityOf(a[0]), ElectricityPeriods(a[1..]), ElectricityPeriods(b));
    }
  }

  function RentLines(periods: seq<BillingPeriod>, rentAmount: int): seq<RentLine> {
    seq(|periods|, i requires 0 <= i < |periods| => RentLine(periods[i], Some(rentAmount)))
  }

  lemma {:induction false} ListsOfRentSeeds(periods: seq<BillingPeriod>, rentAmount: int)
    ensures LiveRent(RentSeeds(periods, rentAmount)) == RentLines(periods, rentAmount)
    ensures ElectricityPeriods(RentSeeds(periods, rentAmount)) == []
  {
    if periods != [] {
      ListsOfRentSeeds(periods[1..], rentAmount);
      assert RentSeeds(periods, rentAmount)[1..] == RentSeeds(periods[1..], rentAmount);
      assert RentLines(periods, rentAmount)[1..] == RentLines(periods[1..], rentAmount);
    }
  }

  lemma {:induction false} ListsOfElectricitySeeds(periods: seq<BillingPeriod>)
    ensures LiveRent(ElectricitySeeds(periods)) == []
    ensures ElectricityPeriods(ElectricitySeeds(periods)) == periods
  {
    if periods != [] {
      ListsOfElectricitySeeds(periods[1..]);
      assert ElectricitySeeds(periods)[1..] == ElectricitySeeds(periods[1..]);
    }
  }

  function DueBefore(lines: seq<RentLine>, due: Day): seq<RentLine> {
    if lines == [] then []
    else (if lines[0].period.due < due then [lines[0]] else []) + DueBefore(lines[1..], due)
  }

  // Without locked bills, voiding leaves exactly the live rent bills due earlier.
  lemma {:induction false} VoidingKeepsEarlier(bills: seq<Bill>, due: Day)
    requires !HasLockedRent(bills, due)
    ensures LiveRent(VoidRentFrom(bills, due)) == DueBefore(LiveRent(bills), due)
  {
    if bills != [] {
      var b, c := bills[0], VoidIfRentDue(due)(bills[0]);
      assert !IsLockedRent(b, due);
      assert LineOf(c) == DueBefore(LineOf(b), due);
      VoidingKeepsEarlier(bills[1..], due);
      assert VoidRentFrom(bills, due) == [c] + VoidRentFrom(bills[1..], due);
      DueBeforeAppend(LineOf(b), LiveRent(bills[1..]), due);
    }
  }

  lemma {:induction false} DueBeforeAppend(a: seq<RentLine>, b: seq<RentLine>, due: Day)
    ensures DueBefore(a + b, due) == DueBefore(a, due) + DueBefore(b, due)
  {
    if a == [] {
      assert a + b == b;
    } else {
      DueBeforeAppend(a[1..], b, due);
      ConcatTail(a, b);
      ConcatAssociative(if a[0].period.due < due then [a[0]] else [], DueBefore(a[1..], due), DueBefore(b, due));
    }
  }

  lemma {:induction false} VoidingKeepsElectricity(bills: seq<Bill>, due: Day)
    ensures ElectricityPeriods(VoidRentFrom(bills, due)) == ElectricityPeriods(bills)
  {
    if bills != [] {
      VoidingKeepsElectricity(bills[1..], due);
      assert VoidRentFrom(bills, due)[1..] == VoidRentFrom(bills[1..], due);
    }
  }

  lemma {:induction false} DueBeforePrefix(lines: seq<RentLine>, due: Day, k: nat)
    requires k <= |lines|
    requires forall j | 0 <= j < |lines| :: lines[j].period.due < due <==> j < k
    ensures DueBefore(lines, due) == lines[..k]
  {
    if lines != [] {
      if k > 0 {
        DueBeforePrefix(lines[1..], due, k - 1);
        assert lines[..k] == [lines[0]] + lines[1..][..k - 1];
      } else {
        DueBeforePrefix(lines[1..], due, 0);
      }
    }
  }

  // A bill that keeps its kind, period and liveness, and its amount if it is a rent bill.
  predicate SameLine(b: Bill, c: Bill) {
    && c.kind == b.kind
    && c.period == b.period
    && (b.status == Voided <==> c.status == Voided)
    && (b.kind == Rent ==> c.amount == b.amount)
  }

  lemma {:induction false} ListsAfterTouch(bills: seq<Bill>, i: nat, b: Bill)
    requires i < |bills|
    requires SameLine(bills[i], b)
    ensures LiveRent(bills[i := b]) == LiveRent(bills)
    ensures ElectricityPeriods(bills[i := b]) == ElectricityPeriods(bills)
  {
    if i == 0 {
      assert bills[i := b][1..] == bills[1..];
    } else {
      ListsAfterTouch(bills[1..], i - 1, b);
      assert bills[i := b][1..] == bills[1..][i - 1 := b];
    }
  }

  // ---------- The positions of the bills that meet a condition ----------

  function Positions(bills: seq<Bill>, selected: Bill -> bool): seq<nat> {
    if bills == [] then []
    else
      var n := |bills| - 1;
      Positions(bills[..n], selected) + if selected(bills[n]) then [n] else []
  }

  lemma {:induction false} PositionsSelect(bills: seq<Bill>, selected: Bill -> bool, i: nat)
    ensures i in Positions(bills, selected) <==> i < |bills| && selected(bills[i])
  {
    if bills != [] {
      PositionsSelect(bills[..|bills| - 1], selected, i);
    }
  }

  lemma NoPositions(bills: seq<Bill>, selected: Bill -> bool)
    ensures Positions(bills, selected) == [] <==> forall b | b in bills :: !selected(b)
  {
    forall i: nat {
      PositionsSelect(bills, selected, i);
    }
    if b :| b in bills && selected(b) {
      var i :| 0 <= i < |bills| && bills[i] == b;
      assert i in Positions(bills, selected);
    } else if Positions(bills, selected) != [] {
      assert Positions(bills, selected)[0] in Positions(bills, selected);
    }
  }
}
