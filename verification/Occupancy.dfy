/**
 Runs of the whole lease system. Every command's events are delivered, in recorded order, before the
 next command (internal/platform/database/txrunner/runner.go, internal/application/lease/subscribers.go).
 On every run, rooms and tenants follow the live leases, and every live lease keeps its book.
 */
module Occupancy {
  import opened Basics
  import opened Leases
  import opened BillLists
  import opened LeaseStore
  import opened RentUpdates
  import opened Books
  import opened Replacement
  import opened ReplacementTheorems
  import opened Termination
  import opened Checkout
  import opened CheckoutFinalize
  import opened CheckoutTheorems

  datatype Command =
    | CreateCommand(create: CreateInput)
    | RentCommand(id: nat, rentAmount: int, operationDate: Day)
    | AccountCommand(id: nat, step: AccountStep)
    | DepositCommand(id: nat, refund: int, deduction: int, reason: Option<string>)
    | ReplaceCommand(replace: ReplaceInput)
    | TerminateCommand(id: nat, refund: int, deduction: int, reason: Option<string>, today: Day)
    | ForceCommand(id: nat, forceReason: string, handling: DepositHandling, date: Day)
    | CheckoutCommand(checkout: CheckoutInput, unitPrice: Option<real>, token: Option<Token>)

  function Published(s: Store, r: Result<Outcome, LeaseError>): Store {
    if r.Success? then Delivered(r.value.store, r.value.events) else s
  }

  // A refused command leaves the store as it was.
  function AfterCommand(s: Store, c: Command): Store {
    match c
    case CreateCommand(input) => Published(s, CreateLeaseOutcome(s, input))
    case RentCommand(id, rentAmount, operationDate) =>
      Published(s, UpdateLeaseOutcome(s, id, Some(rentAmount), None, None, operationDate))
    case AccountCommand(id, step) =>
      if id < |s.accounts| then s.(accounts := s.accounts[id := Books.AfterStep(s.accounts[id], step)]) else s
    case DepositCommand(id, refund, deduction, reason) => Published(s,
        UpdateDepositOutcome(s, id, refund, deduction, reason))
    case ReplaceCommand(input) => Published(s, ReplaceLeaseOutcome(s, input))
    case TerminateCommand(id, refund, deduction, reason, today) =>
      Published(s, TerminateLeaseOutcome(s, id, refund, deduction, reason, today))
    case ForceCommand(id, reason, handling, date) => Published(s, ForceTerminateOutcome(s, id, reason, handling, date))
    case CheckoutCommand(input, unitPrice, token) =>
      var f := FinalizeOutcome(s, input, unitPrice, token);
      if f.Success? then Delivered(f.value.outcome.store, f.value.outcome.events) else s
  }

  // What was agreed on a lease's rent: the rent it was signed at, and the changes accepted since.
  datatype Agreement = Agreement(original: int, changes: seq<RentChange>)

  // The store, the rents agreed on for every lease, and the leases that a successor has replaced.
  datatype System = System(store: Store, agreements: seq<Agreement>, replaced: set<nat>)

  function Stepped(y: System, id: nat, step: AccountStep): seq<Agreement> {
    if id < |y.store.accounts| && id < |y.agreements| then
      var g := y.agreements[id];
      y.agreements[id := g.(changes := ChangesAfter(y.store.accounts[id], g.changes, step))]
    else y.agreements
  }

  function AgreedAfter(y: System, c: Command): seq<Agreement> {
    match c
    case CreateCommand(input) =>
      if CreateLeaseOutcome(y.store, input).Success? then y.agreements + [Agreement(input.rentAmount, [])]
          else y.agreements
    case ReplaceCommand(input) =>
      if ReplaceLeaseOutcome(y.store, input).Success? then y.agreements + [Agreement(input.newRentAmount, [])]
          else y.agreements
    case RentCommand(id, rentAmount, operationDate) => Stepped(y, id, UpdateRent(rentAmount, operationDate))
    case AccountCommand(id, step) => Stepped(y, id, step)
    case _ => y.agreements
  }

  function ReplacedAfter(y: System, c: Command): set<nat> {
    if c.ReplaceCommand? && ReplaceLeaseOutcome(y.store, c.replace).Success? then y.replaced + {c.replace.lease}
    else y.replaced
  }

  function AfterOne(y: System, c: Command): System {
    System(AfterCommand(y.store, c), AgreedAfter(y, c), ReplacedAfter(y, c))
  }

  function RunCommands(y: System, commands: seq<Command>): System
    decreases |commands|
  {
    if commands == [] then y
    else RunCommands(AfterOne(y, commands[0]), commands[1..])
  }

  // ---------- The invariant ----------

  predicate LiveAt(s: Store, id: int) {
    0 <= id < |s.accounts| && IsLive(s.accounts[id].lease.status)
  }

  ghost predicate Housed(s: Store, l: Lease) {
    && l.room in s.rooms && s.rooms[l.room].status == Occupied
    && l.tenant in s.tenants && s.tenants[l.tenant] == TenantActive
  }

  ghost predicate AllHoused(s: Store) {
    forall id | LiveAt(s, id) :: Housed(s, s.accounts[id].lease)
  }

  ghost predicate OccupiedByLeases(s: Store) {
    forall r | r in s.rooms && s.rooms[r].status == Occupied :: exists id ::
      LiveAt(s, id) && s.accounts[id].lease.room == r
  }

  ghost predicate OneLeaseARoom(s: Store) {
    forall i, k | LiveAt(s, i) && LiveAt(s, k) && s.accounts[i].lease.room == s.accounts[k].lease.room :: i == k
  }

  // The room of any lease, past ones included, is occupied or vacant, and its tenant is active only with a
  // live lease.
  ghost predicate Followed(s: Store, l: Lease) {
    && l.room in s.rooms && s.rooms[l.room].status != Maintenance
    && l.tenant in s.tenants
    && (s.tenants[l.tenant] == TenantActive ==> exists k :: LiveAt(s, k) && s.accounts[k].lease.tenant == l.tenant)
  }

  ghost predicate AllFollowed(s: Store) {
    forall id | 0 <= id < |s.accounts| :: Followed(s, s.accounts[id].lease)
  }

  // A room is occupied exactly when it has a live lease and no room has two; of the tenants that ever had
  // a lease, exactly those with a live one are active.
  ghost predicate Consistent(s: Store) {
    AllHoused(s) && OccupiedByLeases(s) && OneLeaseARoom(s) && AllFollowed(s)
  }

  // What this says about one lease.
  lemma LeaseIsFollowed(s: Store, id: nat)
    requires Consistent(s) && id < |s.accounts|
    ensures var l := s.accounts[id].lease;
            && l.room in s.rooms && l.tenant in s.tenants
            && s.rooms[l.room].status
               == (if exists k :: LiveAt(s, k) && s.accounts[k].lease.room == l.room then Occupied else Vacant)
            && (s.tenants[l.tenant] == TenantActive
                <==> exists k :: LiveAt(s, k) && s.accounts[k].lease.tenant == l.tenant)
  {
    assert Followed(s, s.accounts[id].lease);
  }

  ghost predicate BookKept(a: Account, g: Agreement) {
    InBook(a, g.original, g.changes)
  }

  // The bills of every live lease are those of its schedules, at the rents agreed on.
  ghost predicate BooksKept(s: Store, agreements: seq<Agreement>) {
    && |agreements| == |s.accounts|
    && forall id | LiveAt(s, id) :: BookKept(s.accounts[id], agreements[id])
  }

  // ---------- Three ways a command changes the leases ----------

  predicate SameTenancy(l: Lease, m: Lease) {
    l.room == m.room && l.tenant == m.tenant && (IsLive(l.status) <==> IsLive(m.status))
  }

  lemma LeaseChanged(s: Store, gs: seq<Agreement>, id: nat, a: Account, g: Agreement, ledger: seq<Entry>)
    requires Consistent(s) && BooksKept(s, gs) && id < |s.accounts| == |gs|
    requires SameTenancy(s.accounts[id].lease, a.lease)
    requires BookKept(s.accounts[id], gs[id]) ==> BookKept(a, g)
    ensures Consistent(s.(accounts := s.accounts[id := a], ledger := ledger))
    ensures BooksKept(s.(accounts := s.accounts[id := a], ledger := ledger), gs[id := g])
  {
    hide BookKept, OccupiedByLeases, AllFollowed;
    RoomsStayOccupied(s, id, a, ledger);
    StayFollowed(s, id, a, ledger);
  }

  lemma StayFollowed(s: Store, id: nat, a: Account, ledger: seq<Entry>)
    requires AllFollowed(s) && id < |s.accounts| && SameTenancy(s.accounts[id].lease, a.lease)
    ensures AllFollowed(s.(accounts := s.accounts[id := a], ledger := ledger))
  {
    hide Followed;
    var t := s.(accounts := s.accounts[id := a], ledger := ledger);
    forall i | 0 <= i < |t.accounts|
      ensures Followed(t, t.accounts[i].lease)
    {
      FollowedOn(s, id, a, ledger, s.accounts[i].lease);
      SameNames(t, s.accounts[i].lease, t.accounts[i].lease);
    }
  }

  lemma FollowedOn(s: Store, id: nat, a: Account, ledger: seq<Entry>, l: Lease)
    requires id < |s.accounts| && SameTenancy(s.accounts[id].lease, a.lease) && Followed(s, l)
    ensures Followed(s.(accounts := s.accounts[id := a], ledger := ledger), l)
  {
    if s.tenants[l.tenant] == TenantActive {
      var k :| LiveAt(s, k) && s.accounts[k].lease.tenant == l.tenant;
      assert LiveAt(s.(accounts := s.accounts[id := a], ledger := ledger), k);
    }
  }

  lemma RoomsStayOccupied(s: Store, id: nat, a: Account, ledger: seq<Entry>)
    requires OccupiedByLeases(s) && id < |s.accounts| && SameTenancy(s.accounts[id].lease, a.lease)
    ensures OccupiedByLeases(s.(accounts := s.accounts[id := a], ledger := ledger))
  {
    var t := s.(accounts := s.accounts[id := a], ledger := ledger);
    forall r | r in t.rooms && t.rooms[r].status == Occupied
      ensures exists k :: LiveAt(t, k) && t.accounts[k].lease.room == r
    {
      var k :| LiveAt(s, k) && s.accounts[k].lease.room == r;
      assert LiveAt(t, k);
    }
  }

  lemma LeaseEnded(s: Store, gs: seq<Agreement>, id: nat, a: Account, ledger: seq<Entry>)
    requires Consistent(s) && BooksKept(s, gs) && LiveAt(s, id)
    requires a.lease.room == s.accounts[id].lease.room && a.lease.tenant == s.accounts[id].lease.tenant
             && !IsLive(a.lease.status)
    ensures var t := Handled(s.(accounts := s.accounts[id := a], ledger := ledger),
            LeaseTerminated(id, a.lease.room, a.lease.tenant));
            Consistent(t) && BooksKept(t, gs)
  {
    hide BookKept, Handled, HasLiveLease, AllHoused, OccupiedByLeases, AllFollowed;
    var t := Handled(s.(accounts := s.accounts[id := a], ledger := ledger),
        LeaseTerminated(id, a.lease.room, a.lease.tenant));
    EndedStore(s, id, a, ledger);
    RestAreHoused(s, t, id, a);
    RestStayOccupied(s, t, id, a);
    RestStayFollowed(s, t, id, a);
  }

  // The room is released, the others stay, and only a tenant without live leases is deactivated.
  ghost predicate Releases(s: Store, t: Store, id: nat, a: Account)
    requires id < |s.accounts|
  {
    && t.accounts == s.accounts[id := a]
    && t.rooms == (if a.lease.room in s.rooms then
        s.rooms[a.lease.room := s.rooms[a.lease.room].(status := Vacant)] else s.rooms)
    && t.tenants == (if a.lease.tenant in s.tenants && !HasLiveLease(t.accounts, a.lease.tenant) then
        s.tenants[a.lease.tenant := TenantInactive] else s.tenants)
  }

  lemma EndedStore(s: Store, id: nat, a: Account, ledger: seq<Entry>)
    requires id < |s.accounts|
    ensures Releases(s, Handled(s.(accounts := s.accounts[id := a], ledger := ledger),
            LeaseTerminated(id, a.lease.room, a.lease.tenant)), id, a)
  {
    hide HasLiveLease;
  }

  lemma RestAreHoused(s: Store, t: Store, id: nat, a: Account)
    requires LiveAt(s, id) && Releases(s, t, id, a) && !IsLive(a.lease.status)
    requires AllHoused(s) && OneLeaseARoom(s) && a.lease.room == s.accounts[id].lease.room
    ensures AllHoused(t)
  {
    forall k | LiveAt(t, k)
      ensures Housed(t, t.accounts[k].lease)
    {
      assert LiveAt(s, k) && k != id;
      assert t.accounts[k] in t.accounts;
    }
  }

  lemma RestStayOccupied(s: Store, t: Store, id: nat, a: Account)
    requires LiveAt(s, id) && Releases(s, t, id, a) && a.lease.room == s.accounts[id].lease.room
    requires AllHoused(s) && OccupiedByLeases(s)
    ensures OccupiedByLeases(t)
  {
    hide HasLiveLease;
    assert Housed(s, s.accounts[id].lease);
    forall r | r in t.rooms && t.rooms[r].status == Occupied
      ensures exists k :: LiveAt(t, k) && t.accounts[k].lease.room == r
    {
      var k :| LiveAt(s, k) && s.accounts[k].lease.room == r;
      assert LiveAt(t, k);
    }
  }

  lemma RestStayFollowed(s: Store, t: Store, id: nat, a: Account)
    requires LiveAt(s, id) && Releases(s, t, id, a) && AllFollowed(s)
    requires a.lease.room == s.accounts[id].lease.room && a.lease.tenant == s.accounts[id].lease.tenant
    ensures AllFollowed(t)
  {
    hide Followed, Releases;
    forall i | 0 <= i < |t.accounts|
      ensures Followed(t, t.accounts[i].lease)
    {
      assert t.accounts == s.accounts[id := a] by { ReleasedAccounts(s, t, id, a); }
      RestFollowed(s, t, id, a, s.accounts[i].lease);
      SameNames(t, s.accounts[i].lease, t.accounts[i].lease);
    }
  }

  lemma ReleasedAccounts(s: Store, t: Store, id: nat, a: Account)
    requires id < |s.accounts| && Releases(s, t, id, a)
    ensures t.accounts == s.accounts[id := a]
  {
  }

  lemma SameNames(s: Store, l: Lease, m: Lease)
    requires Followed(s, l) && l.room == m.room && l.tenant == m.tenant
    ensures Followed(s, m)
  {
  }

  lemma RestFollowed(s: Store, t: Store, id: nat, a: Account, l: Lease)
    requires LiveAt(s, id) && Releases(s, t, id, a) && Followed(s, l)
    requires a.lease.tenant == s.accounts[id].lease.tenant
    ensures Followed(t, l)
  {
    if t.tenants[l.tenant] == TenantActive {
      if l.tenant == a.lease.tenant {
        HasLiveAt(t, l.tenant);
      } else {
        var k :| LiveAt(s, k) && s.accounts[k].lease.tenant == l.tenant;
        assert LiveAt(t, k);
      }
    }
  }

  lemma HasLiveAt(s: Store, tenant: nat)
    requires HasLiveLease(s.accounts, tenant)
    ensures exists k :: LiveAt(s, k) && s.accounts[k].lease.tenant == tenant
  {
    var b :| b in s.accounts && b.lease.tenant == tenant && IsLive(b.lease.status);
    var k :| 0 <= k < |s.accounts| && s.accounts[k] == b;
    assert LiveAt(s, k);
  }

  lemma LeaseAdded(s: Store, gs: seq<Agreement>, a: Account, g: Agreement)
    requires Consistent(s) && BooksKept(s, gs)
    requires IsLive(a.lease.status) && BookKept(a, g)
    requires a.lease.tenant in s.tenants
    requires a.lease.room in s.rooms && s.rooms[a.lease.room].status == Vacant
    ensures var t := Handled(s.(accounts := s.accounts + [a]),
            LeaseCreated(|s.accounts|, a.lease.room, a.lease.tenant));
            Consistent(t) && BooksKept(t, gs + [g])
  {
    hide BookKept, Handled, AllHoused, OccupiedByLeases, OneLeaseARoom, AllFollowed;
    var t := Handled(s.(accounts := s.accounts + [a]), LeaseCreated(|s.accounts|, a.lease.room, a.lease.tenant));
    AddedStore(s, a);
    AddedIsHoused(s, t, a);
    AddedOccupies(s, t, a);
    AddedIsAlone(s, t, a);
    AddedIsFollowed(s, t, a);
  }

  ghost predicate Adds(s: Store, t: Store, a: Account)
    requires a.lease.room in s.rooms
  {
    && t.accounts == s.accounts + [a]
    && t.rooms == s.rooms[a.lease.room := s.rooms[a.lease.room].(status := Occupied)]
    && t.tenants == s.tenants[a.lease.tenant := TenantActive]
  }

  lemma AddedStore(s: Store, a: Account)
    requires a.lease.room in s.rooms && a.lease.tenant in s.tenants
    ensures Adds(s, Handled(s.(accounts := s.accounts + [a]),
            LeaseCreated(|s.accounts|, a.lease.room, a.lease.tenant)), a)
  {
  }

  lemma AddedIsHoused(s: Store, t: Store, a: Account)
    requires a.lease.room in s.rooms && Adds(s, t, a) && AllHoused(s)
    ensures AllHoused(t)
  {
    forall k | LiveAt(t, k)
      ensures Housed(t, t.accounts[k].lease)
    {
      assert k == |s.accounts| || LiveAt(s, k);
    }
  }

  lemma AddedOccupies(s: Store, t: Store, a: Account)
    requires a.lease.room in s.rooms && Adds(s, t, a) && OccupiedByLeases(s) && IsLive(a.lease.status)
    ensures OccupiedByLeases(t)
  {
    forall r | r in t.rooms && t.rooms[r].status == Occupied
      ensures exists k :: LiveAt(t, k) && t.accounts[k].lease.room == r
    {
      if r == a.lease.room {
        assert LiveAt(t, |s.accounts|);
      } else {
        var k :| LiveAt(s, k) && s.accounts[k].lease.room == r;
        assert LiveAt(t, k);
      }
    }
  }

  lemma AddedIsAlone(s: Store, t: Store, a: Account)
    requires a.lease.room in s.rooms && Adds(s, t, a) && s.rooms[a.lease.room].status == Vacant
    requires AllHoused(s) && OneLeaseARoom(s)
    ensures OneLeaseARoom(t)
  {
    forall k | LiveAt(t, k)
      ensures k == |s.accounts| || (LiveAt(s, k) && s.accounts[k].lease.room != a.lease.room)
    {
    }
  }

  lemma AddedIsFollowed(s: Store, t: Store, a: Account)
    requires a.lease.room in s.rooms && Adds(s, t, a) && AllFollowed(s) && IsLive(a.lease.status)
    ensures AllFollowed(t)
  {
    hide Followed;
    AddedItself(s, t, a);
    forall i | 0 <= i < |t.accounts|
      ensures Followed(t, t.accounts[i].lease)
    {
      if i < |s.accounts| {
        EarlierIsFollowed(s, t, a, s.accounts[i].lease);
      }
    }
  }

  lemma AddedItself(s: Store, t: Store, a: Account)
    requires a.lease.room in s.rooms && Adds(s, t, a) && IsLive(a.lease.status)
    ensures Followed(t, a.lease)
  {
    assert LiveAt(t, |s.accounts|);
  }

  lemma EarlierIsFollowed(s: Store, t: Store, a: Account, l: Lease)
    requires a.lease.room in s.rooms && Adds(s, t, a) && Followed(s, l) && IsLive(a.lease.status)
    ensures Followed(t, l)
  {
    if l.tenant == a.lease.tenant {
      assert LiveAt(t, |s.accounts|);
    } else if t.tenants[l.tenant] == TenantActive {
      var k :| LiveAt(s, k) && s.accounts[k].lease.tenant == l.tenant;
      assert LiveAt(t, k);
    }
  }

  // Termination and creation hit the same room and tenant, in that order: the hand-over comes to the
  // same as ending the one lease and then adding the other.
  lemma LeaseHandedOver(s: Store, gs: seq<Agreement>, id: nat, a: Account, b: Account, g: Agreement)
    requires Consistent(s) && BooksKept(s, gs) && LiveAt(s, id)
    requires !IsLive(a.lease.status) && IsLive(b.lease.status) && BookKept(b, g)
    requires a.lease.room == b.lease.room == s.accounts[id].lease.room
    requires a.lease.tenant == b.lease.tenant == s.accounts[id].lease.tenant
    ensures var between := Handled(s.(accounts := s.accounts[id := a] + [b]),
            LeaseTerminated(id, a.lease.room, a.lease.tenant));
            var t := Handled(between, LeaseCreated(|s.accounts|, b.lease.room, b.lease.tenant));
            Consistent(t) && BooksKept(t, gs + [g])
  {
    hide *;
    var room, tenant := b.lease.room, b.lease.tenant;
    LiveIsHoused(s, id);
    LeaseEnded(s, gs, id, a, s.ledger);
    var before := s.(accounts := s.accounts[id := a], ledger := s.ledger);
    var ended := Handled(before, LeaseTerminated(id, room, tenant));
    EndedRoom(before, id, room, tenant);
    LeaseAdded(ended, gs, b, g);
    SameHandOver(s, id, a, b);
  }

  lemma LiveIsHoused(s: Store, id: nat)
    requires Consistent(s) && LiveAt(s, id)
    ensures id < |s.accounts| && s.accounts[id].lease.room in s.rooms && s.accounts[id].lease.tenant in s.tenants
    ensures s.tenants[s.accounts[id].lease.tenant] == TenantActive
  {
    assert Housed(s, s.accounts[id].lease);
  }

  lemma EndedRoom(s: Store, id: nat, room: nat, tenant: nat)
    requires room in s.rooms && tenant in s.tenants
    ensures var ended := Handled(s, LeaseTerminated(id, room, tenant));
            ended.accounts == s.accounts && room in ended.rooms && ended.rooms[room].status == Vacant
            && tenant in ended.tenants
  {
    hide HasLiveLease;
  }

  lemma SameHandOver(s: Store, id: nat, a: Account, b: Account)
    requires id < |s.accounts| && b.lease.room in s.rooms && b.lease.tenant in s.tenants
    requires s.tenants[b.lease.tenant] == TenantActive && IsLive(b.lease.status)
    ensures var room, tenant := b.lease.room, b.lease.tenant;
            var ended := Handled(s.(accounts := s.accounts[id := a]), LeaseTerminated(id, room, tenant));
            var between := Handled(s.(accounts := s.accounts[id := a] + [b]), LeaseTerminated(id, room, tenant));
            Handled(between, LeaseCreated(|s.accounts|, room, tenant))
            == Handled(ended.(accounts := ended.accounts + [b]), LeaseCreated(|s.accounts|, room, tenant))
  {
    var between := s.accounts[id := a] + [b];
    assert b in between;
  }

  // ---------- Events ----------

  // Events that no subscriber acts on.
  lemma {:induction false} QuietEvents(s: Store, quiet: seq<Event>, rest: seq<Event>)
    requires forall e | e in quiet :: e.DepositRefunded? || e.DepositDeducted?
    ensures Delivered(s, quiet + rest) == Delivered(s, rest)
  {
    if quiet == [] {
      assert quiet + rest == rest;
    } else {
      assert quiet[0] in quiet;
      assert (quiet + rest)[1..] == quiet[1..] + rest;
      QuietEvents(s, quiet[1..], rest);
    }
  }

  lemma NoEvents(s: Store)
    ensures Delivered(s, []) == s
  {
  }

  lemma OneEvent(s: Store, event: Event)
    ensures Delivered(s, [event]) == Handled(s, event)
  {
    assert [event][1..] == [];
  }

  lemma EndingEvents(s: Store, id: nat, refund: int, deduction: int, event: Event)
    ensures Delivered(s, DepositEvents(id, refund, deduction)) == s
    ensures Delivered(s, DepositEvents(id, refund, deduction) + [event]) == Handled(s, event)
  {
    var quiet := DepositEvents(id, refund, deduction);
    QuietEvents(s, quiet, []);
    QuietEvents(s, quiet, [event]);
    assert quiet + [] == quiet;
    OneEvent(s, event);
  }

  predicate SameTerms(l: Lease, m: Lease) {
    l.startDate == m.startDate && l.endDate == m.endDate && l.rentAmount == m.rentAmount
        && l.depositAmount == m.depositAmount
    && l.rentCadence == m.rentCadence && l.electricityCadence == m.electricityCadence
  }

  lemma SameTermsKeepBook(a: Account, m: Lease, g: Agreement)
    requires SameTerms(a.lease, m) && BookKept(a, g)
    ensures BookKept(a.(lease := m), g)
  {
    assert RentPeriods(m) == RentPeriods(a.lease);
    assert ElectricitySpans(m) == ElectricitySpans(a.lease);
    hide RentPeriods, ElectricitySpans;
  }

  lemma StepKeepsTenancy(a: Account, step: AccountStep, g: Agreement)
    ensures SameTenancy(a.lease, AfterStep(a, step).lease)
    ensures BookKept(a, g) ==> BookKept(AfterStep(a, step), g.(changes := ChangesAfter(a, g.changes, step)))
  {
    StepKeepsRoom(a, step);
    hide InBook, AfterStep, ChangesAfter;
    if BookKept(a, g) {
      StepKeepsBook(a, step, g.original, g.changes);
    }
  }

  lemma StepKeepsRoom(a: Account, step: AccountStep)
    ensures SameTenancy(a.lease, AfterStep(a, step).lease)
  {
  }

  // The accepted rent change is the account step of the same name.
  lemma RentCommandIsStep(s: Store, id: nat, rentAmount: int, operationDate: Day)
    requires UpdateLeaseOutcome(s, id, Some(rentAmount), None, None, operationDate).Success?
    ensures id < |s.accounts|
    ensures AfterCommand(s, RentCommand(id, rentAmount, operationDate))
            == s.(accounts := s.accounts[id := AfterStep(s.accounts[id], UpdateRent(rentAmount, operationDate))])
  {
    hide UpdatedRent, Delivered;
    var r := UpdatedRent(s.accounts[id], rentAmount, operationDate);
    if r.value.Changed? {
      var after := s.(accounts := s.accounts[id := r.value.account]);
      OneEvent(after, LeaseConditionChanged(id, rentAmount, r.value.from));
    } else {
      NoEvents(s);
      assert s.accounts == s.accounts[id := s.accounts[id]];
    }
  }

  // ---------- The invariant, command by command ----------

  ghost predicate Good(y: System) {
    Consistent(y.store) && BooksKept(y.store, y.agreements)
  }

  lemma CreateKeeps(y: System, input: CreateInput)
    requires Good(y)
    ensures Good(AfterOne(y, CreateCommand(input)))
  {
    hide Consistent, BooksKept, InBook, Delivered, RentPeriods, ElectricitySpans, RentSeeds, ElectricitySeeds,
         TrimCadence, NormalizeState;
    var s := y.store;
    var r := CreateLeaseOutcome(s, input);
    if r.Success? {
      CreatedLease(s.rooms[input.room], input);
      var lease := NormalizeState(RequestedLease(s.rooms[input.room], input)).value;
      NewAccountInBook(lease);
      hide WellFormed, Handled;
      LeaseAdded(s, y.agreements, NewAccount(lease), Agreement(lease.rentAmount, []));
      OneEvent(s.(accounts := s.accounts + [NewAccount(lease)]), LeaseCreated(|s.accounts|, input.room, input.tenant));
    }
  }

  lemma CreatedLease(room: Room, input: CreateInput)
    requires NormalizeState(RequestedLease(room, input)).Success?
    ensures var l := NormalizeState(RequestedLease(room, input)).value;
            && WellFormed(l) && l.rentAmount == input.rentAmount && l.room == input.room && l.tenant == input.tenant
            && l.status == Active
  {
    NormalizedIsWellFormed(RequestedLease(room, input));
  }

  lemma StepKeeps(y: System, id: nat, step: AccountStep)
    requires Good(y) && id < |y.store.accounts| == |y.agreements|
    ensures var s := y.store;
            Good(System(s.(accounts := s.accounts[id := AfterStep(s.accounts[id], step)]), Stepped(y, id, step),
                y.replaced))
  {
    var s, g := y.store, y.agreements[id];
    StepKeepsTenancy(s.accounts[id], step, g);
    hide Consistent, BooksKept, BookKept, AfterStep, ChangesAfter, SameTenancy;
    var a := AfterStep(s.accounts[id], step);
    LeaseChanged(s, y.agreements, id, a, g.(changes := ChangesAfter(s.accounts[id], g.changes, step)), s.ledger);
    assert s.(accounts := s.accounts[id := a], ledger := s.ledger) == s.(accounts := s.accounts[id := a]);
  }

  // A refused rent change leaves the lease and its agreement as they are.
  lemma RefusedRent(y: System, id: nat, rentAmount: int, operationDate: Day)
    requires UpdateLeaseOutcome(y.store, id, Some(rentAmount), None, None, operationDate).Failure?
    ensures AfterOne(y, RentCommand(id, rentAmount, operationDate)) == y
  {
    hide UpdatedRent;
    if id < |y.agreements| {
      assert y.agreements[id := y.agreements[id]] == y.agreements;
    }
  }

  lemma DepositKeeps(y: System, c: Command)
    requires c.DepositCommand?
    requires Good(y) && |y.store.accounts| == |y.agreements|
    ensures Good(AfterOne(y, c))
  {
    hide Consistent, BooksKept, BookKept, InBook, Delivered, DepositEvents, DepositEntries, TrimOptional, ReasonValue;
    var s, gs := y.store, y.agreements;
    var r := UpdateDepositOutcome(s, c.id, c.refund, c.deduction, c.reason);
    if r.Success? {
      var a, after := s.accounts[c.id], r.value.store.accounts[c.id];
      if BookKept(a, gs[c.id]) {
        SameTermsKeepBook(a, after.lease, gs[c.id]);
      }
      LeaseChanged(s, gs, c.id, after, gs[c.id], r.value.store.ledger);
      assert gs[c.id := gs[c.id]] == gs;
      EndingEvents(r.value.store, c.id, c.refund, c.deduction, LeaseTerminated(0, 0, 0));
    }
  }

  lemma TerminateKeeps(y: System, c: Command)
    requires c.TerminateCommand?
    requires Good(y)
    ensures Good(AfterOne(y, c))
  {
    hide Consistent, BooksKept, Delivered, Handled, DepositEvents, DepositEntries, Positions, TrimOptional, ReasonValue;
    var s := y.store;
    var r := TerminateLeaseOutcome(s, c.id, c.refund, c.deduction, c.reason, c.today);
    if r.Success? {
      var l := s.accounts[c.id].lease;
      LeaseEnded(s, y.agreements, c.id, r.value.store.accounts[c.id], r.value.store.ledger);
      EndingEvents(r.value.store, c.id, c.refund, c.deduction, LeaseTerminated(c.id, l.room, l.tenant));
    }
  }

  lemma ForceKeeps(y: System, c: Command)
    requires c.ForceCommand?
    requires Good(y)
    ensures Good(AfterOne(y, c))
  {
    hide Consistent, BooksKept, Delivered, Handled, Positions, WriteOffEntries, WrittenOffAt, TrimSpace;
    var s := y.store;
    var r := ForceTerminateOutcome(s, c.id, c.forceReason, c.handling, c.date);
    if r.Success? {
      var l := s.accounts[c.id].lease;
      LeaseEnded(s, y.agreements, c.id, r.value.store.accounts[c.id], r.value.store.ledger);
      OneEvent(r.value.store, LeaseTerminated(c.id, l.room, l.tenant));
    }
  }

  // A committed checkout ends a live lease and touches no other account.
  lemma CommittedLease(s: Store, p: Settlement, electricity: Option<Calculation>)
    requires p.input.lease < |s.accounts|
    requires CommitProposal(s, p, electricity).Success?
    ensures var id, l, o := p.input.lease, s.accounts[p.input.lease].lease,
            CommitProposal(s, p, electricity).value.outcome;
            && LiveAt(s, id)
            && |o.store.accounts| == |s.accounts|
            && var a := o.store.accounts[id];
            && a.lease.room == l.room && a.lease.tenant == l.tenant && !IsLive(a.lease.status)
            && o.store == s.(accounts := s.accounts[id := a], ledger := o.store.ledger)
            && o.events == DepositEvents(id, RefundOf(p), DeductionOf(p)) + [LeaseTerminated(id, l.room, l.tenant)]
  {
    hide DepositEvents, CheckoutEntries, WithSettledBill, DeductionReason, TrimOptional, RefundOf, DeductionOf;
  }

  lemma CheckoutKeeps(y: System, c: Command)
    requires c.CheckoutCommand?
    requires Good(y)
    ensures Good(AfterOne(y, c))
  {
    hide Consistent, BooksKept, Delivered, Handled, DepositEvents, CheckoutElectricity, Proposal, NormalizeInput;
    var s := y.store;
    var f := FinalizeOutcome(s, c.checkout, c.unitPrice, c.token);
    if f.Success? {
      var id := c.checkout.lease;
      var n := NormalizeInput(c.checkout).value;
      var electricity := CheckoutElectricity(s.accounts[id], n, c.unitPrice).value;
      var p := Proposal(s.accounts[id], n, electricity);
      ProposalInput(s.accounts[id], n, electricity);
      NormalizedInputLease(c.checkout);
      hide CommitProposal, RefundOf, DeductionOf;
      CommittedLease(s, p, electricity);
      var l, t := s.accounts[id].lease, f.value.outcome.store;
      LeaseEnded(s, y.agreements, id, t.accounts[id], t.ledger);
      EndingEvents(t, id, RefundOf(p), DeductionOf(p), LeaseTerminated(id, l.room, l.tenant));
    }
  }

  lemma NormalizedInputLease(input: CheckoutInput)
    requires NormalizeInput(input).Success?
    ensures NormalizeInput(input).value.lease == input.lease
  {
  }

  lemma ReplaceKeeps(y: System, c: Command)
    requires c.ReplaceCommand?
    requires Good(y)
    ensures Good(AfterOne(y, c))
  {
    hide Consistent, BooksKept, InBook, Delivered, IsBoundary, Positions, RentPeriods, ElectricitySpans,
         RentSeeds, ElectricitySeeds, VoidPendingFrom, TrimCadence, TrimSpace, NormalizeState, IsReplacementReason,
             ChangedFields;
    var s := y.store;
    var r := ReplaceLeaseOutcome(s, c.replace);
    if r.Success? {
      var id, l := c.replace.lease, s.accounts[c.replace.lease].lease;
      var successor := SuccessorOf(l, c.replace);
      SuccessorIsNormalized(l, c.replace);
      NewAccountInBook(successor);
      hide WellFormed, NewAccount, Handled;
      NewAccountLease(successor);
      LeaseHandedOver(s, y.agreements, id, r.value.store.accounts[id], NewAccount(successor),
          Agreement(successor.rentAmount, []));
      HandOverEvents(r.value.store, id, |s.accounts|, l.room, l.tenant, TrimSpace(c.replace.reason),
          ChangedFields(l, successor));
    }
  }

  lemma NewAccountLease(l: Lease)
    requires WellFormed(l)
    ensures NewAccount(l).lease == l
  {
  }

  lemma HandOverEvents(s: Store, id: nat, successor: nat, room: nat, tenant: nat, reason: string, fields: seq<string>)
    ensures Delivered(s, [LeaseTerminated(id, room, tenant), LeaseCreated(successor, room, tenant),
                          LeaseReplaced(id, successor, reason, fields)])
            == Handled(Handled(s, LeaseTerminated(id, room, tenant)), LeaseCreated(successor, room, tenant))
  {
    var last := LeaseReplaced(id, successor, reason, fields);
    var events := [LeaseTerminated(id, room, tenant), LeaseCreated(successor, room, tenant), last];
    assert events[1..] == [LeaseCreated(successor, room, tenant), last];
    assert events[1..][1..] == [last];
    OneEvent(Handled(Handled(s, events[0]), events[1]), last);
  }

  lemma CommandKeeps(y: System, c: Command)
    requires Good(y)
    ensures Good(AfterOne(y, c))
  {
    assert |y.store.accounts| == |y.agreements|;
    hide Good, AfterOne, Stepped;
    match c
    case CreateCommand(input) => CreateKeeps(y, input);
    case RentCommand(id, rentAmount, operationDate) => RentKeeps(y, id, rentAmount, operationDate);
    case AccountCommand(id, step) => AccountKeeps(y, id, step);
    case DepositCommand(_, _, _, _) => DepositKeeps(y, c);
    case ReplaceCommand(_) => ReplaceKeeps(y, c);
    case TerminateCommand(_, _, _, _, _) => TerminateKeeps(y, c);
    case ForceCommand(_, _, _, _) => ForceKeeps(y, c);
    case CheckoutCommand(_, _, _) => CheckoutKeeps(y, c);
  }

  lemma RentKeeps(y: System, id: nat, rentAmount: int, operationDate: Day)
    requires Good(y) && |y.store.accounts| == |y.agreements|
    ensures Good(AfterOne(y, RentCommand(id, rentAmount, operationDate)))
  {
    hide Good, Stepped, AfterStep, UpdateLeaseOutcome, AfterCommand;
    if UpdateLeaseOutcome(y.store, id, Some(rentAmount), None, None, operationDate).Success? {
      RentCommandIsStep(y.store, id, rentAmount, operationDate);
      StepKeeps(y, id, UpdateRent(rentAmount, operationDate));
    } else {
      RefusedRent(y, id, rentAmount, operationDate);
    }
  }

  lemma AccountKeeps(y: System, id: nat, step: AccountStep)
    requires Good(y) && |y.store.accounts| == |y.agreements|
    ensures Good(AfterOne(y, AccountCommand(id, step)))
  {
    hide Good, AfterStep, ChangesAfter;
    if id < |y.store.accounts| {
      StepKeeps(y, id, step);
    }
  }

  // On every run of commands: a room is occupied exactly when it has a live lease, no room has two, of the
  // tenants that had a lease exactly those with a live one are active, and the bills of every live lease are
  // those of its schedules, each rent bill at the rent of the last change accepted for its due date, or else
  // at the signed rent.
  lemma {:induction false} RunKeeps(y: System, commands: seq<Command>)
    requires Good(y)
    ensures Good(RunCommands(y, commands))
    decreases |commands|
  {
    if commands != [] {
      hide Good, AfterOne;
      CommandKeeps(y, commands[0]);
      RunKeeps(AfterOne(y, commands[0]), commands[1..]);
    }
  }

  // A system without leases and without occupied rooms.
  predicate IsEmpty(s: Store) {
    s.accounts == [] && forall r | r in s.rooms :: s.rooms[r].status != Occupied
  }

  lemma RunFromEmpty(start: Store, commands: seq<Command>)
    requires IsEmpty(start)
    ensures Good(RunCommands(System(start, [], {}), commands))
  {
    RunKeeps(System(start, [], {}), commands);
  }

  // ---------- What holds in every reachable state ----------

  // Every replacement accepted on a run leaves no gap and no overlap.
  lemma EveryReplacementTiles(start: Store, commands: seq<Command>, input: ReplaceInput)
    requires IsEmpty(start)
    requires ReplaceLeaseOutcome(RunCommands(System(start, [], {}), commands).store, input).Success?
    ensures var s := RunCommands(System(start, [], {}), commands).store;
            var after := ReplaceLeaseOutcome(s, input).value.store;
            && input.lease < |s.accounts| < |after.accounts|
            && JoinedAt(after.accounts[input.lease].bills, after.accounts[|s.accounts|].lease,
                        s.accounts[input.lease].lease.startDate, input.effectiveStart)
            && CleanCut(after.accounts[input.lease].bills, input.effectiveStart)
  {
    hide *;
    var y := RunCommands(System(start, [], {}), commands);
    RunFromEmpty(start, commands);
    ReplacedIsLive(y.store, input);
    LiveLeaseInBook(y, input.lease);
    var g := y.agreements[input.lease];
    NowApplies(y.store, input, g.original, g.changes);
    ReplacementTiles(y.store, input, g.original, g.changes);
  }

  lemma ReplacedIsLive(s: Store, input: ReplaceInput)
    requires ReplaceLeaseOutcome(s, input).Success?
    ensures LiveAt(s, input.lease) && input.lease < |s.accounts|
    ensures |ReplaceLeaseOutcome(s, input).value.store.accounts| == |s.accounts| + 1
  {
    hide IsBoundary, Positions, VoidPendingFrom, NewAccount, NormalizeState, TrimCadence, TrimSpace, ChangedFields;
  }

  lemma LiveLeaseInBook(y: System, id: nat)
    requires Good(y) && LiveAt(y.store, id)
    ensures id < |y.store.accounts| && id < |y.agreements|
    ensures InBook(y.store.accounts[id], y.agreements[id].original, y.agreements[id].changes)
    ensures WellFormed(y.store.accounts[id].lease)
  {
    hide RentPeriods, ElectricitySpans;
  }

  // Every unblocked preview taken on a run is accepted when it is finalized, and leaves no unpaid bill.
  lemma EveryUnblockedCheckoutSucceeds(start: Store, commands: seq<Command>, input: CheckoutInput,
                                       unitPrice: Option<real>)
    requires IsEmpty(start)
    requires unitPrice.Some? ==> unitPrice.value >= 0.0
    requires Preview(RunCommands(System(start, [], {}), commands).store, input, unitPrice).Success?
    requires Preview(RunCommands(System(start, [], {}), commands).store, input, unitPrice).value.blockers == []
    ensures var s := RunCommands(System(start, [], {}), commands).store;
            var p := Preview(s, input, unitPrice).value;
            var f := FinalizeOutcome(s, input, unitPrice, p.token);
            && f.Success?
            && f.value.settlement == p.(token := None, finalized := true)
            && input.lease < |f.value.outcome.store.accounts|
            && (forall b | b in f.value.outcome.store.accounts[input.lease].bills :: !IsUnpaid(b))
  {
    hide *;
    var y := RunCommands(System(start, [], {}), commands);
    RunFromEmpty(start, commands);
    UnblockedIsLive(y.store, input, unitPrice);
    LiveLeaseInBook(y, input.lease);
    UnblockedCheckoutSucceeds(y.store, input, unitPrice);
  }

  lemma UnblockedIsLive(s: Store, input: CheckoutInput, unitPrice: Option<real>)
    requires Preview(s, input, unitPrice).Success? && Preview(s, input, unitPrice).value.blockers == []
    ensures LiveAt(s, input.lease)
  {
    var n, electricity := PreviewFacts(s, input, unitPrice);
    var p := Preview(s, input, unitPrice).value;
    hide Preview, NormalizeInput, CheckoutElectricity, BillBlockers, ResolvableMeterBill;
    Unblocked(s.accounts[input.lease], n, p.lines);
  }
}
