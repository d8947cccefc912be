/**
 What a successful replacement leaves behind: the paid bills before the boundary and the successor's
 bills tile the joined lease, and nothing else is live exactly when no bill from the boundary on had
 been settled or was overdue.
 */
module ReplacementTheorems {
  import opened Basics
  import opened Calendar
  import opened Schedules
  import opened BillingPeriods
  import opened Leases
  import opened BillLists
  import opened LeaseStore
  import opened Books
  import opened Replacement

  // ---------- Periods that end before a day ----------

  function EndingBefore(ps: seq<BillingPeriod>, day: Day): seq<BillingPeriod> {
    if ps == [] then []
    else (if ps[0].last < day then [ps[0]] else []) + EndingBefore(ps[1..], day)
  }

  lemma {:induction false} EndingBeforePrefix(ps: seq<BillingPeriod>, day: Day, k: nat)
    requires k <= |ps|
    requires forall j | 0 <= j < |ps| :: ps[j].last < day <==> j < k
    ensures EndingBefore(ps, day) == ps[..k]
  {
    if ps != [] {
      if k > 0 {
        EndingBeforePrefix(ps[1..], day, k - 1);
        assert ps[..k] == [ps[0]] + ps[1..][..k - 1];
      } else {
        EndingBeforePrefix(ps[1..], day, 0);
      }
    }
  }

  lemma {:induction false} EndingBeforeAppend(a: seq<BillingPeriod>, b: seq<BillingPeriod>, day: Day)
    ensures EndingBefore(a + b, day) == EndingBefore(a, day) + EndingBefore(b, day)
  {
    if a == [] {
      assert a + b == b;
    } else {
      EndingBeforeAppend(a[1..], b, day);
      ConcatTail(a, b);
      ConcatAssociative(if a[0].last < day then [a[0]] else [], EndingBefore(a[1..], day), EndingBefore(b, day));
    }
  }

  // Cutting a schedule at one of its later points keeps exactly the periods before that point.
  lemma CutAtPoint(g: Grid, due: Day -> Day, s: Day, e: Day, day: Day)
    requires Advances(g)
    requires IsLaterPoint(g, s, day) && day <= e + 1
    ensures EndingBefore(Cut(g, due, s, e), day) == Cut(g, due, s, day - 1)
    ensures Tiles(EndingBefore(Cut(g, due, s, e), day), s, day)
    ensures forall p | p in Cut(g, due, s, e) :: p.last < day || p.first >= day
  {
    var ps := Cut(g, due, s, e);
    var k: nat :| k >= 1 && Point(g, s, k) == day;
    CutPrefix(g, due, s, e, k);
    forall j: nat | j < |ps|
      ensures ps[j].last < day <==> j < k
      ensures ps[j].last < day || ps[j].first >= day
    {
      CutPeriod(g, due, s, e, j);
      CutLength(g, due, s, e, j);
      assert Point(g, s, j + 1) == g(Point(g, s, j));
      if j < k {
        PointsIncrease(g, s, j + 1, k);
      } else {
        PointsIncrease(g, s, k, j);
      }
    }
    EndingBeforePrefix(ps, day, k);
    PointsIncrease(g, s, 0, k);
    CutTiles(g, due, s, day - 1);
  }

  // ---------- The bills that end before a boundary ----------

  function PeriodsOf(lines: seq<RentLine>): seq<BillingPeriod> {
    seq(|lines|, i requires 0 <= i < |lines| => lines[i].period)
  }

  // The periods of all bills of a kind that end before a day, whatever their status.
  function BilledBefore(bills: seq<Bill>, kind: BillKind, day: Day): seq<BillingPeriod> {
    if bills == [] then []
    else (if bills[0].kind == kind && bills[0].period.last < day then [bills[0].period] else [])
         + BilledBefore(bills[1..], kind, day)
  }

  // Every bill that ends before a day is paid.
  ghost predicate PaidBefore(bills: seq<Bill>, day: Day) {
    forall b | b in bills :: !IsUnsettled(day)(b)
  }

  lemma {:induction false} PaidBillsBefore(bills: seq<Bill>, day: Day)
    requires PaidBefore(bills, day)
    ensures BilledBefore(bills, Rent, day) == EndingBefore(PeriodsOf(LiveRent(bills)), day)
  {
    if bills != [] {
      var b := bills[0];
      PaidBillsBefore(bills[1..], day);
      assert !IsUnsettled(day)(b);
      assert PeriodsOf(LiveRent(bills)) == PeriodsOf(LineOf(b)) + PeriodsOf(LiveRent(bills[1..]));
      EndingBeforeAppend(PeriodsOf(LineOf(b)), PeriodsOf(LiveRent(bills[1..])), day);
      assert EndingBefore(PeriodsOf(LineOf(b)), day) == if b.kind == Rent && b.period.last < day then [b.period]
          else [];
    }
  }

  lemma {:induction false} ElectricityBillsBefore(bills: seq<Bill>, day: Day)
    ensures BilledBefore(bills, Electricity, day) == EndingBefore(ElectricityPeriods(bills), day)
  {
    if bills != [] {
      ElectricityBillsBefore(bills[1..], day);
      EndingBeforeAppend(ElectricityOf(bills[0]), ElectricityPeriods(bills[1..]), day);
    }
  }

  lemma {:induction false} VoidingKeepsBilledBefore(bills: seq<Bill>, kind: BillKind, day: Day)
    ensures BilledBefore(VoidPendingFrom(bills, day), kind, day) == BilledBefore(bills, kind, day)
  {
    if bills != [] {
      VoidingKeepsBilledBefore(bills[1..], kind, day);
      assert VoidPendingFrom(bills, day) == [VoidIfEndsFrom(day)(bills[0])] + VoidPendingFrom(bills[1..], day);
    }
  }

  // ---------- No gap, no overlap ----------

  ghost predicate ReplacementApplies(s: Store, input: ReplaceInput, original: int, changes: seq<RentChange>) {
    && input.lease < |s.accounts|
    && InBook(s.accounts[input.lease], original, changes)
    && ReplaceLeaseOutcome(s, input).Success?
  }

  lemma NowApplies(s: Store, input: ReplaceInput, original: int, changes: seq<RentChange>)
    requires input.lease < |s.accounts|
    requires InBook(s.accounts[input.lease], original, changes) && ReplaceLeaseOutcome(s, input).Success?
    ensures ReplacementApplies(s, input, original, changes)
  {
  }

  lemma ReplacementFacts(s: Store, input: ReplaceInput, original: int, changes: seq<RentChange>)
    requires ReplacementApplies(s, input, original, changes)
    ensures var after := ReplaceLeaseOutcome(s, input).value.store;
            var a := s.accounts[input.lease];
            && |after.accounts| == |s.accounts| + 1
            && WellFormed(SuccessorOf(a.lease, input))
            && after.accounts[|s.accounts|] == NewAccount(SuccessorOf(a.lease, input))
            && after.accounts[|s.accounts|].lease == SuccessorOf(a.lease, input)
            && after.accounts[input.lease].bills == VoidPendingFrom(a.bills, input.effectiveStart)
            && IsBoundary(a.lease, a.bills, input.effectiveStart)
            && PaidBefore(a.bills, input.effectiveStart)
  {
    SuccessorIsNormalized(s.accounts[input.lease].lease, input);
    hide IsBoundary, VoidPendingFrom, RentSchedule, ElectricitySchedule, InBook, Positions, NormalizeState, SuccessorOf,
         TrimCadence, TrimSpace, WellFormed, IsReplacementReason, ChangedFields, NewAccount;
    NewLeaseAccount(SuccessorOf(s.accounts[input.lease].lease, input));
    NoPositions(s.accounts[input.lease].bills, IsUnsettled(input.effectiveStart));
  }

  function Scheduled(l: Lease, kind: BillKind): seq<BillingPeriod>
    requires WellFormed(l)
  {
    match kind
    case Rent => RentPeriods(l)
    case Electricity => ElectricitySpans(l)
  }

  lemma ScheduleTiles(l: Lease, kind: BillKind)
    requires WellFormed(l)
    ensures Tiles(Scheduled(l, kind), l.startDate, l.endDate + 1)
  {
    hide Tiles, RentSchedule, ElectricitySchedule, DayOfMonth;
    SchedulesSucceed(l);
    SchedulesPartition(l.startDate, l.endDate, l.rentCadence, DayOfMonth(l.startDate));
    SchedulesPartition(l.startDate, l.endDate, l.electricityCadence, DayOfMonth(l.startDate));
  }

  lemma ScheduleStarts(l: Lease, kind: BillKind)
    requires WellFormed(l)
    ensures Scheduled(l, kind) != [] && Scheduled(l, kind)[0].first == l.startDate
  {
  }

  lemma ScheduleCutAtBoundary(l: Lease, kind: BillKind, day: Day)
    requires WellFormed(l)
    requires IsLaterPoint(GridOf(l, kind), l.startDate, day) && day <= l.endDate + 1
    ensures Tiles(EndingBefore(Scheduled(l, kind), day), l.startDate, day)
    ensures forall p | p in Scheduled(l, kind) :: p.last < day || p.first >= day
  {
    hide Tiles, EndingBefore, IsLaterPoint;
    GridsAdvance(l.rentCadence, l.electricityCadence, DayOfMonth(l.startDate));
    match kind
    case Rent =>
      CutAtPoint(GridOf(l, Rent), AtStart(), l.startDate, l.endDate, day);
    case Electricity =>
      CutAtPoint(GridOf(l, Electricity), InMonth(DayOfMonth(l.startDate)), l.startDate, l.endDate, day);
  }

  lemma BookCutAtBoundary(a: Account, original: int, changes: seq<RentChange>, day: Day, kind: BillKind)
    requires InBook(a, original, changes)
    requires IsBoundary(a.lease, a.bills, day)
    requires PaidBefore(a.bills, day)
    ensures Tiles(BilledBefore(a.bills, kind, day), a.lease.startDate, day)
    ensures forall b | b in a.bills && b.kind == kind :: b.period.last < day || b.period.first >= day
  {
    BoundaryIsExact(a, original, changes, a.bills, day);
    ScheduleCutAtBoundary(a.lease, kind, day);
    hide IsBoundary, RentPeriods, ElectricitySpans, WellFormed, IsLaterPoint, Tiles, GridOf;
    match kind
    case Rent =>
      assert PeriodsOf(LiveRent(a.bills)) == RentPeriods(a.lease);
      PaidBillsBefore(a.bills, day);
    case Electricity =>
      ElectricityBillsBefore(a.bills, day);
      forall b | b in a.bills && b.kind == Electricity
        ensures b.period in ElectricitySpans(a.lease)
      {
        ElectricityHasBill(a.bills, b.period);
      }
  }

  // The bills of each kind before a day and the successor's periods tile the joined lease.
  ghost predicate JoinedAt(bills: seq<Bill>, successor: Lease, start: Day, day: Day) {
    && WellFormed(successor)
    && forall kind :: Tiles(BilledBefore(bills, kind, day) + Scheduled(successor, kind), start, successor.endDate + 1)
  }

  // A bill ends before the day and is paid, or it begins on it or later.
  ghost predicate CleanCut(bills: seq<Bill>, day: Day) {
    forall b | b in bills :: (b.period.last < day && b.status == Paid) || b.period.first >= day
  }

  lemma BooksJoin(was: Account, original: int, changes: seq<RentChange>, successor: Lease, day: Day)
    requires InBook(was, original, changes)
    requires IsBoundary(was.lease, was.bills, day)
    requires PaidBefore(was.bills, day)
    requires WellFormed(successor) && successor.startDate == day
    ensures JoinedAt(VoidPendingFrom(was.bills, day), successor, was.lease.startDate, day)
  {
    hide InBook, IsBoundary, Scheduled, Tiles, WellFormed, BilledBefore, VoidPendingFrom, IsUnsettled;
    forall kind: BillKind
      ensures Tiles(BilledBefore(VoidPendingFrom(was.bills, day), kind, day) + Scheduled(successor, kind),
                    was.lease.startDate, successor.endDate + 1)
    {
      BookCutAtBoundary(was, original, changes, day, kind);
      ScheduleTiles(successor, kind);
      VoidingKeepsBilledBefore(was.bills, kind, day);
      TilesJoin(BilledBefore(was.bills, kind, day), Scheduled(successor, kind), was.lease.startDate, day,
          successor.endDate + 1);
    }
  }

  lemma BooksCutCleanly(was: Account, original: int, changes: seq<RentChange>, day: Day)
    requires InBook(was, original, changes)
    requires IsBoundary(was.lease, was.bills, day)
    requires PaidBefore(was.bills, day)
    ensures CleanCut(VoidPendingFrom(was.bills, day), day)
  {
    BookCutAtBoundary(was, original, changes, day, Rent);
    BookCutAtBoundary(was, original, changes, day, Electricity);
    hide InBook, IsBoundary, Tiles, BilledBefore;
    forall b | b in VoidPendingFrom(was.bills, day)
      ensures (b.period.last < day && b.status == Paid) || b.period.first >= day
    {
      var i :| 0 <= i < |was.bills| && VoidPendingFrom(was.bills, day)[i] == b;
      assert b == VoidIfEndsFrom(day)(was.bills[i]) && was.bills[i] in was.bills;
    }
  }

  // A replacement leaves no gap and no overlap: the predecessor's bills before the boundary, all paid,
  // and the successor's bills tile the days from the old start to the new end, for rent and for
  // electricity; no predecessor bill straddles the boundary; the successor starts a book of its own.
  lemma ReplacementTiles(s: Store, input: ReplaceInput, original: int, changes: seq<RentChange>)
    requires ReplacementApplies(s, input, original, changes)
    ensures var after := ReplaceLeaseOutcome(s, input).value.store;
            var old', new' := after.accounts[input.lease], after.accounts[|s.accounts|];
            && new'.lease.startDate == input.effectiveStart && new'.lease.endDate == input.newEndDate
            && InBook(new', input.newRentAmount, [])
            && JoinedAt(old'.bills, new'.lease, s.accounts[input.lease].lease.startDate, input.effectiveStart)
            && CleanCut(old'.bills, input.effectiveStart)
  {
    var was := s.accounts[input.lease];
    var successor := SuccessorOf(was.lease, input);
    ReplacementFacts(s, input, original, changes);
    hide ReplaceLeaseOutcome, InBook, JoinedAt, CleanCut, WellFormed, NewAccount, IsBoundary, VoidPendingFrom,
        PaidBefore;
    NewAccountInBook(successor);
    BooksJoin(was, original, changes, successor, input.effectiveStart);
    BooksCutCleanly(was, original, changes, input.effectiveStart);
  }

  // ---------- What stays live on and after the boundary ----------

  predicate IsSettled(b: Bill) {
    b.status != Voided && !IsPending(b.status)
  }

  // Live periods of a kind, the predecessor's followed by the successor's.
  function LivePeriods(bills: seq<Bill>, kind: BillKind): seq<BillingPeriod> {
    if bills == [] then []
    else (if bills[0].kind == kind && bills[0].status != Voided then [bills[0].period]
        else []) + LivePeriods(bills[1..], kind)
  }

  // When every settled bill ends before the boundary, voiding leaves exactly the bills before it live.
  lemma {:induction false} OnlyEarlierStayLive(bills: seq<Bill>, kind: BillKind, day: Day)
    requires PaidBefore(bills, day)
    requires forall b | b in bills && b.kind == kind && b.period.last >= day :: !IsSettled(b)
    ensures LivePeriods(VoidPendingFrom(bills, day), kind) == BilledBefore(VoidPendingFrom(bills, day), kind, day)
  {
    if bills != [] {
      var b, c := bills[0], VoidIfEndsFrom(day)(bills[0]);
      assert !IsUnsettled(day)(b);
      assert b.kind == kind && b.period.last >= day ==> !IsSettled(b);
      OnlyEarlierStayLive(bills[1..], kind, day);
      assert VoidPendingFrom(bills, day) == [c] + VoidPendingFrom(bills[1..], day);
    }
  }

  lemma {:induction false} LivePeriodsHaveBill(bills: seq<Bill>, b: Bill)
    requires b in bills && b.status != Voided
    ensures b.period in LivePeriods(bills, b.kind)
  {
    if b != bills[0] {
      LivePeriodsHaveBill(bills[1..], b);
    }
  }

  lemma {:induction false} TilesOrdered(ps: seq<BillingPeriod>, qs: seq<BillingPeriod>, from: Day, until: Day,
                                        p: BillingPeriod)
    requires Tiles(ps + qs, from, until)
    requires p in ps && qs != []
    ensures p.last < qs[0].first
  {
    assert (ps + qs)[1..] == ps[1..] + qs;
    if p in ps[1..] {
      TilesOrdered(ps[1..], qs, ps[0].last + 1, until, p);
    } else if |ps| == 1 {
      assert ps[1..] + qs == qs;
    } else {
      TilesOrdered(ps[1..], qs, ps[0].last + 1, until, ps[1]);
      assert ps[1].first == ps[0].last + 1;
    }
  }

  lemma SettledStaysLive(bills: seq<Bill>, day: Day, b: Bill)
    requires b in bills && IsSettled(b)
    ensures b in VoidPendingFrom(bills, day) && b.status != Voided
  {
    var i :| 0 <= i < |bills| && bills[i] == b;
    assert VoidPendingFrom(bills, day)[i] == VoidIfEndsFrom(day)(b);
  }

  // Nothing of a kind that ends on or after a day has been paid, written off or marked overdue.
  ghost predicate NothingSettledFrom(bills: seq<Bill>, kind: BillKind, day: Day) {
    forall b | b in bills && b.kind == kind && b.period.last >= day :: !IsSettled(b)
  }

  lemma LiveTilesIffNothingSettled(bills: seq<Bill>, kind: BillKind, next: seq<BillingPeriod>, start: Day, day: Day,
                                   until: Day)
    requires PaidBefore(bills, day)
    requires next != [] && next[0].first == day
    requires Tiles(BilledBefore(VoidPendingFrom(bills, day), kind, day) + next, start, until)
    ensures Tiles(LivePeriods(VoidPendingFrom(bills, day), kind) + next, start, until)
            <==> NothingSettledFrom(bills, kind, day)
  {
    hide Tiles, VoidPendingFrom, BilledBefore, LivePeriods, IsUnsettled, IsSettled;
    if NothingSettledFrom(bills, kind, day) {
      OnlyEarlierStayLive(bills, kind, day);
    } else {
      var b :| b in bills && b.kind == kind && b.period.last >= day && IsSettled(b);
      SettledStaysLive(bills, day, b);
      LivePeriodsHaveBill(VoidPendingFrom(bills, day), b);
      if Tiles(LivePeriods(VoidPendingFrom(bills, day), kind) + next, start, until) {
        TilesOrdered(LivePeriods(VoidPendingFrom(bills, day), kind), next, start, until, b.period);
      }
    }
  }

  // The live bills of a lease and then the successor's periods tile the joined lease.
  ghost predicate CoversOnce(bills: seq<Bill>, successor: Lease, kind: BillKind, start: Day)
    requires WellFormed(successor)
  {
    Tiles(LivePeriods(bills, kind) + Scheduled(successor, kind), start, successor.endDate + 1)
  }

  lemma JoinIsExclusive(was: Account, original: int, changes: seq<RentChange>, successor: Lease, day: Day,
                        kind: BillKind)
    requires InBook(was, original, changes)
    requires IsBoundary(was.lease, was.bills, day)
    requires PaidBefore(was.bills, day)
    requires WellFormed(successor) && successor.startDate == day
    ensures CoversOnce(VoidPendingFrom(was.bills, day), successor, kind, was.lease.startDate)
            <==> NothingSettledFrom(was.bills, kind, day)
  {
    hide InBook, WellFormed, IsBoundary, VoidPendingFrom, PaidBefore, Scheduled, Tiles, LivePeriods,
        NothingSettledFrom, BilledBefore;
    ScheduleStarts(successor, kind);
    BooksJoin(was, original, changes, successor, day);
    LiveTilesIffNothingSettled(was.bills, kind, Scheduled(successor, kind), was.lease.startDate, day,
        successor.endDate + 1);
  }

  // The live bills of both leases together cover every day exactly once if and only if no bill of the
  // kind that ends on or after the boundary had been paid, written off or marked overdue.
  lemma ReplacementIsExclusive(s: Store, input: ReplaceInput, original: int, changes: seq<RentChange>, kind: BillKind)
    requires ReplacementApplies(s, input, original, changes)
    ensures var after := ReplaceLeaseOutcome(s, input).value.store;
            var was, successor := s.accounts[input.lease], after.accounts[|s.accounts|].lease;
            && WellFormed(successor)
            && (CoversOnce(after.accounts[input.lease].bills, successor, kind, was.lease.startDate)
                <==> NothingSettledFrom(was.bills, kind, input.effectiveStart))
  {
    var was, day := s.accounts[input.lease], input.effectiveStart;
    var successor := SuccessorOf(was.lease, input);
    ReplacementFacts(s, input, original, changes);
    hide ReplaceLeaseOutcome, InBook, WellFormed, NewAccount, IsBoundary, VoidPendingFrom, PaidBefore, CoversOnce,
         NothingSettledFrom;
    JoinIsExclusive(was, original, changes, successor, day, kind);
  }

  // ---------- When a replacement is accepted ----------

  predicate IsNamedReason(reason: string) {
    reason == "cadence_change" || reason == "renewal" || reason == "contract_reissue" || reason == "other_exception"
  }

  // The terms asked for make a lease: a positive rent, dates in order and cadences the builders support.
  predicate HasSoundTerms(input: ReplaceInput) {
    var rent, electricity := TrimCadence(input.newRentCadence), TrimCadence(input.newElectricityCadence);
    && input.newRentAmount > 0
    && input.effectiveStart <= input.newEndDate
    && (rent == Monthly || rent == Quarterly || rent == Semiannual || rent == Annual)
    && (electricity == Monthly || electricity == Bimonthly)
  }

  lemma SoundTermsMakeLease(l: Lease, input: ReplaceInput)
    requires WellFormed(l)
    ensures HasSoundTerms(input) <==> WellFormed(SuccessorOf(l, input))
    ensures HasSoundTerms(input) ==> TrimCadence(input.newRentCadence) != OtherCadence("")
  {
    hide TrimCadence;
  }

  // A day that both schedules cut at after the start, whatever the end.
  ghost predicate IsCommonPoint(l: Lease, day: Day) {
    IsLaterPoint(GridOf(l, Rent), l.startDate, day) && IsLaterPoint(GridOf(l, Electricity), l.startDate, day)
  }

  // Everything a replacement asks for but the payment of the bills before the boundary. The boundary is
  // stated as membership in both unbounded schedules.
  ghost predicate OtherwiseAcceptable(s: Store, input: ReplaceInput)
    requires input.lease < |s.accounts|
    requires WellFormed(s.accounts[input.lease].lease)
  {
    var l, day := s.accounts[input.lease].lease, input.effectiveStart;
    && input.carryDepositOver
    && IsNamedReason(TrimSpace(input.reason))
    && l.status == Active
    && l.depositStatus == DepositHeld
    && l.tenant in s.tenants
    && l.room in s.rooms
    && s.rooms[l.room].property == l.property
    && IsLaterPoint(GridOf(l, Rent), l.startDate, day)
    && IsLaterPoint(GridOf(l, Electricity), l.startDate, day)
    && day <= l.endDate + 1
    && HasSoundTerms(input)
  }

  // On a kept book, exactly these requests succeed: the settlement test takes every bill before the
  // boundary, voided and written-off ones too. Otherwise acceptable requests fail on those bills alone.
  lemma ReplacementIsAccepted(s: Store, input: ReplaceInput, original: int, changes: seq<RentChange>)
    requires input.lease < |s.accounts|
    requires InBook(s.accounts[input.lease], original, changes)
    ensures var bills, day := s.accounts[input.lease].bills, input.effectiveStart;
            && (ReplaceLeaseOutcome(s, input).Success?
                <==> OtherwiseAcceptable(s, input) && forall b | b in bills && b.period.last < day :: b.status == Paid)
            && (OtherwiseAcceptable(s, input) && ReplaceLeaseOutcome(s, input).Failure? ==>
                  ReplaceLeaseOutcome(s, input) == Failure(UnsettledBills(Positions(bills, IsUnsettled(day)))))
  {
    var a, day := s.accounts[input.lease], input.effectiveStart;
    WellFormedBook(a, original, changes);
    BoundaryIsExact(a, original, changes, a.bills, day);
    NoPositions(a.bills, IsUnsettled(day));
    LaterPointIsAfterStart(a.lease, day);
    SoundTermsMakeLease(a.lease, input);
    SameReasons(TrimSpace(input.reason));
    ReplacementChecks(s, input);
    hide ReplaceLeaseOutcome, InBook, IsBoundary, GridOf, IsLaterPoint, Positions, SuccessorOf, WellFormed,
        NormalizeState, HasSoundTerms, IsNamedReason, TrimCadence, TrimSpace, IsReplacementReason;
    if TrimCadence(input.newRentCadence) != OtherCadence("") {
      SuccessorIsNormalized(a.lease, input);
    }
  }

  lemma WellFormedBook(a: Account, original: int, changes: seq<RentChange>)
    requires InBook(a, original, changes)
    ensures WellFormed(a.lease)
  {
    hide RentPeriods, ElectricitySpans, WellFormed;
  }

  // Everything the command checks but the settlement of the bills.
  predicate OtherChecksPass(s: Store, input: ReplaceInput)
    requires input.lease < |s.accounts|
  {
    var l := s.accounts[input.lease].lease;
    && input.carryDepositOver
    && IsReplacementReason(TrimSpace(input.reason))
    && TrimCadence(input.newRentCadence) != OtherCadence("")
    && l.status == Active
    && l.depositStatus == DepositHeld
    && l.tenant in s.tenants
    && l.room in s.rooms
    && s.rooms[l.room].property == l.property
    && IsBoundary(l, s.accounts[input.lease].bills, input.effectiveStart)
    && NormalizeState(SuccessorOf(l, input)).Success?
    && input.effectiveStart - 1 >= l.startDate
  }

  lemma ReplacementChecks(s: Store, input: ReplaceInput)
    requires input.lease < |s.accounts|
    ensures var unsettled := Positions(s.accounts[input.lease].bills, IsUnsettled(input.effectiveStart));
            && (ReplaceLeaseOutcome(s, input).Success? <==> OtherChecksPass(s, input) && unsettled == [])
            && (OtherChecksPass(s, input) && unsettled != [] ==>
                  ReplaceLeaseOutcome(s, input) == Failure(UnsettledBills(unsettled)))
  {
    hide IsBoundary, Positions, SuccessorOf, NormalizeState, TrimCadence, TrimSpace, IsReplacementReason, NewAccount,
        VoidPendingFrom, ChangedFields, WellFormed;
  }

  lemma SameReasons(reason: string)
    ensures IsReplacementReason(reason) <==> IsNamedReason(reason)
  {
  }

  lemma LaterPointIsAfterStart(l: Lease, day: Day)
    requires WellFormed(l)
    ensures IsLaterPoint(GridOf(l, Rent), l.startDate, day) ==> day > l.startDate
  {
    GridsAdvance(l.rentCadence, l.electricityCadence, DayOfMonth(l.startDate));
    hide GridOf;
    if k: nat :| k >= 1 && Point(GridOf(l, Rent), l.startDate, k) == day {
      PointsIncrease(GridOf(l, Rent), l.startDate, 0, k);
    }
  }
}
