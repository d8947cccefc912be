/**
 What the events leave alone (internal/application/lease/subscribers.go): on every run a room or tenant
 that no lease names stays as it was at the start.
 */
module Tenancies {
  import opened Basics
  import opened Leases
  import opened LeaseStore
  import opened Books
  import opened Replacement
  import opened ReplacementTerms
  import opened Termination
  import opened LeaseTerms
  import opened CheckoutFinalize
  import opened Occupancy

  predicate NamesRoom(accounts: seq<Account>, room: nat) {
    exists a | a in accounts :: a.lease.room == room
  }

  predicate NamesTenant(accounts: seq<Account>, tenant: nat) {
    exists a | a in accounts :: a.lease.tenant == tenant
  }

  // No room or tenant is added or lost, a room changes its status only, and one that no lease names
  // does not change at all.
  ghost predicate OthersStay(s: Store, t: Store) {
    && t.rooms.Keys == s.rooms.Keys && t.tenants.Keys == s.tenants.Keys
    && (forall r | r in t.rooms :: t.rooms[r] == s.rooms[r].(status := t.rooms[r].status))
    && (forall r | r in t.rooms && !NamesRoom(t.accounts, r) :: t.rooms[r] == s.rooms[r])
    && (forall n | n in t.tenants && !NamesTenant(t.accounts, n) :: t.tenants[n] == s.tenants[n])
  }

  // The leases keep their rooms and tenants; new ones may follow.
  ghost predicate NamesKept(a: seq<Account>, b: seq<Account>) {
    |a| <= |b| && forall i | 0 <= i < |a| ::
        b[i].lease.room == a[i].lease.room && b[i].lease.tenant == a[i].lease.tenant
  }

  predicate IsNamed(accounts: seq<Account>, event: Event) {
    match event
    case LeaseCreated(_, room, tenant) => NamesRoom(accounts, room) && NamesTenant(accounts, tenant)
    case LeaseTerminated(_, room, tenant) => NamesRoom(accounts, room) && NamesTenant(accounts, tenant)
    case _ => true
  }

  lemma NamesStay(a: seq<Account>, b: seq<Account>)
    requires NamesKept(a, b)
    ensures forall r | NamesRoom(a, r) :: NamesRoom(b, r)
    ensures forall n | NamesTenant(a, n) :: NamesTenant(b, n)
  {
    forall r | NamesRoom(a, r)
      ensures NamesRoom(b, r)
    {
      var i :| 0 <= i < |a| && a[i].lease.room == r;
      assert b[i] in b;
    }
    forall n | NamesTenant(a, n)
      ensures NamesTenant(b, n)
    {
      var i :| 0 <= i < |a| && a[i].lease.tenant == n;
      assert b[i] in b;
    }
  }

  lemma OthersStayOn(s: Store, t: Store, u: Store)
    requires OthersStay(s, t) && OthersStay(t, u) && NamesKept(t.accounts, u.accounts)
    ensures OthersStay(s, u)
  {
    NamesStay(t.accounts, u.accounts);
    hide NamesKept, NamesRoom, NamesTenant;
  }

  lemma HandledStays(s: Store, event: Event)
    requires IsNamed(s.accounts, event)
    ensures OthersStay(s, Handled(s, event)) && Handled(s, event).accounts == s.accounts
  {
    hide NamesRoom, NamesTenant, HasLiveLease;
  }

  lemma {:induction false} DeliveredStays(s: Store, events: seq<Event>)
    requires forall e | e in events :: IsNamed(s.accounts, e)
    ensures OthersStay(s, Delivered(s, events)) && Delivered(s, events).accounts == s.accounts
    decreases |events|
  {
    hide IsNamed, Handled, OthersStay;
    if events == [] {
      NothingStays(s);
    } else {
      HandledStays(s, events[0]);
      DeliveredStays(Handled(s, events[0]), events[1..]);
      SameNamesKept(s.accounts);
      OthersStayOn(s, Handled(s, events[0]), Delivered(s, events));
    }
  }

  lemma NothingStays(s: Store)
    ensures OthersStay(s, s)
  {
  }

  lemma SameNamesKept(accounts: seq<Account>)
    ensures NamesKept(accounts, accounts)
  {
  }

  // ---------- What a command commits ----------

  // The command changes accounts and ledger only, keeps the names, and its events name leases.
  ghost predicate CommitsTo(s: Store, t: Store, events: seq<Event>) {
    && t.rooms == s.rooms && t.tenants == s.tenants
    && NamesKept(s.accounts, t.accounts)
    && forall e | e in events :: IsNamed(t.accounts, e)
  }

  lemma CommittedStays(s: Store, t: Store, events: seq<Event>)
    requires CommitsTo(s, t, events)
    ensures OthersStay(s, Delivered(t, events)) && NamesKept(s.accounts, Delivered(t, events).accounts)
  {
    hide NamesKept, IsNamed, NamesRoom, NamesTenant;
    DeliveredStays(t, events);
  }

  // One account changes and keeps its names; its events name it.
  lemma OneCommits(s: Store, t: Store, id: nat, events: seq<Event>)
    requires id < |s.accounts| == |t.accounts|
    requires t == s.(accounts := s.accounts[id := t.accounts[id]], ledger := t.ledger)
    requires t.accounts[id].lease.room == s.accounts[id].lease.room
    requires t.accounts[id].lease.tenant == s.accounts[id].lease.tenant
    requires forall e | e in events ::
               || e.DepositRefunded? || e.DepositDeducted? || e.LeaseConditionChanged?
               || e == LeaseTerminated(id, s.accounts[id].lease.room, s.accounts[id].lease.tenant)
    ensures CommitsTo(s, t, events)
  {
    assert t.accounts[id] in t.accounts;
  }

  lemma SettlementEventsAre(events: seq<Event>, id: nat, refund: int, deduction: int)
    requires SettlementEvents(events, id, refund, deduction)
    ensures forall e | e in events :: e.DepositRefunded? || e.DepositDeducted?
  {
  }

  lemma CreateCommits(s: Store, input: CreateInput)
    requires CreateLeaseOutcome(s, input).Success?
    ensures var o := CreateLeaseOutcome(s, input).value; CommitsTo(s, o.store, o.events)
  {
    CreatedTerms(s, input);
    hide CreateLeaseOutcome, AllUnpaid, WellFormed, ElectricityOf, TrimCadence;
    var o := CreateLeaseOutcome(s, input).value;
    assert o.store.accounts[|s.accounts|] in o.store.accounts;
  }

  // One account changes and one is added, for the same room and tenant, and the events name them.
  lemma HandOverCommits(s: Store, t: Store, id: nat, events: seq<Event>)
    requires id < |s.accounts| && |t.accounts| == |s.accounts| + 1
    requires t == s.(accounts := s.accounts[id := t.accounts[id]] + [t.accounts[|s.accounts|]])
    requires t.accounts[id].lease.room == s.accounts[id].lease.room == t.accounts[|s.accounts|].lease.room
    requires t.accounts[id].lease.tenant == s.accounts[id].lease.tenant == t.accounts[|s.accounts|].lease.tenant
    requires |events| == 3 && events[2].LeaseReplaced?
    requires events[0] == LeaseTerminated(id, s.accounts[id].lease.room, s.accounts[id].lease.tenant)
    requires events[1] == LeaseCreated(|s.accounts|, s.accounts[id].lease.room, s.accounts[id].lease.tenant)
    ensures CommitsTo(s, t, events)
  {
    assert t.accounts[id] in t.accounts;
  }

  lemma ReplaceCommits(s: Store, input: ReplaceInput)
    requires ReplaceLeaseOutcome(s, input).Success?
    ensures var o := ReplaceLeaseOutcome(s, input).value; CommitsTo(s, o.store, o.events)
  {
    hide *;
    SuccessorTerms(s, input);
    PredecessorTerms(s, input);
    ReplacementEvents(s, input);
    var o := ReplaceLeaseOutcome(s, input).value;
    HandOverCommits(s, o.store, input.lease, o.events);
  }

  lemma DepositCommits(s: Store, id: nat, refund: int, deduction: int, reason: Option<string>)
    requires UpdateDepositOutcome(s, id, refund, deduction, reason).Success?
    ensures var o := UpdateDepositOutcome(s, id, refund, deduction, reason).value; CommitsTo(s, o.store, o.events)
  {
    DepositIsSettled(s, id, refund, deduction, reason);
    hide UpdateDepositOutcome, SettlementRows, SettlementEvents, IsInOrder, SettlesDeposit, TrimSpace, CommitsTo;
    var o := UpdateDepositOutcome(s, id, refund, deduction, reason).value;
    SettlementEventsAre(o.events, id, refund, deduction);
    OneCommits(s, o.store, id, o.events);
  }

  lemma TerminateCommits(s: Store, id: nat, refund: int, deduction: int, reason: Option<string>, today: Day)
    requires TerminateLeaseOutcome(s, id, refund, deduction, reason, today).Success?
    ensures var o := TerminateLeaseOutcome(s, id, refund, deduction, reason, today).value;
            CommitsTo(s, o.store, o.events)
  {
    TerminatedTerms(s, id, refund, deduction, reason, today);
    hide TerminateLeaseOutcome, SettlementRows, SettlementEvents, TrimSpace, CommitsTo;
    var o := TerminateLeaseOutcome(s, id, refund, deduction, reason, today).value;
    SettlementEventsAre(o.events[..|o.events| - 1], id, refund, deduction);
    LastEvent(o.events);
    OneCommits(s, o.store, id, o.events);
  }

  lemma LastEvent(events: seq<Event>)
    requires |events| > 0
    ensures forall e | e in events :: e in events[..|events| - 1] || e == events[|events| - 1]
  {
  }

  lemma ForceCommits(s: Store, id: nat, reason: string, handling: DepositHandling, date: Day)
    requires ForceTerminateOutcome(s, id, reason, handling, date).Success?
    ensures var o := ForceTerminateOutcome(s, id, reason, handling, date).value; CommitsTo(s, o.store, o.events)
  {
    ForcedTerms(s, id, reason, handling, date);
    hide ForceTerminateOutcome, OwedWrittenOff, TrimHandling, TrimSpace, CommitsTo;
    var o := ForceTerminateOutcome(s, id, reason, handling, date).value;
    OneCommits(s, o.store, id, o.events);
  }

  lemma CheckoutCommits(s: Store, c: Command)
    requires c.CheckoutCommand? && FinalizeOutcome(s, c.checkout, c.unitPrice, c.token).Success?
    ensures var o := FinalizeOutcome(s, c.checkout, c.unitPrice, c.token).value.outcome;
            CommitsTo(s, o.store, o.events)
  {
    hide *;
    var id, p, electricity := FinalizedCommit(s, c);
    CommittedLease(s, p, electricity);
    SettlementIsBooked(id, RefundOf(p), DeductionOf(p), "");
    SettlementEventsAre(DepositEvents(id, RefundOf(p), DeductionOf(p)), id, RefundOf(p), DeductionOf(p));
    var o := FinalizeOutcome(s, c.checkout, c.unitPrice, c.token).value.outcome;
    OneCommits(s, o.store, id, o.events);
  }

  lemma FinalizedCommit(s: Store, c: Command)
    returns (id: nat, p: Checkout.Settlement, electricity: Option<Checkout.Calculation>)
    requires c.CheckoutCommand? && FinalizeOutcome(s, c.checkout, c.unitPrice, c.token).Success?
    ensures id == p.input.lease < |s.accounts|
    ensures CommitProposal(s, p, electricity) == FinalizeOutcome(s, c.checkout, c.unitPrice, c.token)
  {
    hide *;
    var n, e := CheckoutTheorems.FinalizedProposal(s, c.checkout, c.unitPrice, c.token);
    id, electricity := n.lease, e;
    p := Checkout.Proposal(s.accounts[id], n, e);
  }

  lemma StepCommits(s: Store, id: nat, step: AccountStep)
    requires id < |s.accounts|
    ensures var t := s.(accounts := s.accounts[id := AfterStep(s.accounts[id], step)]); CommitsTo(s, t, [])
  {
    StepKeepsRoom(s.accounts[id], step);
    hide AfterStep;
  }

  // ---------- Runs ----------

  lemma CommandStays(y: System, c: Command)
    ensures OthersStay(y.store, AfterOne(y, c).store) && NamesKept(y.store.accounts, AfterOne(y, c).store.accounts)
  {
    hide *;
    var s := y.store;
    NothingStays(s);
    SameNamesKept(s.accounts);
    StoreAfter(y, c);
    match c
    case CreateCommand(input) =>
      if r: Outcome :| CreateLeaseOutcome(s, input) == Success(r) {
        CreateCommits(s, input);
        CommittedStays(s, r.store, r.events);
      }
    case RentCommand(id, rentAmount, operationDate) =>
      if RentUpdates.UpdateLeaseOutcome(s, id, Some(rentAmount), None, None, operationDate).Success? {
        RentCommandIsStep(s, id, rentAmount, operationDate);
        StepCommits(s, id, UpdateRent(rentAmount, operationDate));
        CommittedStays(s, AfterCommand(s, c), []);
        NoEvents(AfterCommand(s, c));
      }
    case AccountCommand(id, step) =>
      if id < |s.accounts| {
        StepCommits(s, id, step);
        CommittedStays(s, AfterCommand(s, c), []);
        NoEvents(AfterCommand(s, c));
      }
    case DepositCommand(id, refund, deduction, reason) =>
      if r: Outcome :| UpdateDepositOutcome(s, id, refund, deduction, reason) == Success(r) {
        DepositCommits(s, id, refund, deduction, reason);
        CommittedStays(s, r.store, r.events);
      }
    case ReplaceCommand(input) =>
      if r: Outcome :| ReplaceLeaseOutcome(s, input) == Success(r) {
        ReplaceCommits(s, input);
        CommittedStays(s, r.store, r.events);
      }
    case TerminateCommand(id, refund, deduction, reason, today) =>
      if r: Outcome :| TerminateLeaseOutcome(s, id, refund, deduction, reason, today) == Success(r) {
        TerminateCommits(s, id, refund, deduction, reason, today);
        CommittedStays(s, r.store, r.events);
      }
    case ForceCommand(id, reason, handling, date) =>
      if r: Outcome :| ForceTerminateOutcome(s, id, reason, handling, date) == Success(r) {
        ForceCommits(s, id, reason, handling, date);
        CommittedStays(s, r.store, r.events);
      }
    case CheckoutCommand(input, unitPrice, token) =>
      if f: Finalized :| FinalizeOutcome(s, input, unitPrice, token) == Success(f) {
        CheckoutCommits(s, c);
        CommittedStays(s, f.outcome.store, f.outcome.events);
      }
  }

  // The store after a command, case by case.
  lemma StoreAfter(y: System, c: Command)
    ensures var s, t := y.store, AfterOne(y, c).store;
            && t == AfterCommand(s, c)
            && match c
               case CreateCommand(input) => t == Published(s, CreateLeaseOutcome(s, input))
               case RentCommand(id, rentAmount, operationDate) =>
                 RentUpdates.UpdateLeaseOutcome(s, id, Some(rentAmount), None, None, operationDate).Failure? ==> t == s
               case AccountCommand(id, step) =>
                 t == if id < |s.accounts| then s.(accounts := s.accounts[id := AfterStep(s.accounts[id], step)]) else s
               case DepositCommand(id, refund, deduction, reason) =>
                 t == Published(s, UpdateDepositOutcome(s, id, refund, deduction, reason))
               case ReplaceCommand(input) => t == Published(s, ReplaceLeaseOutcome(s, input))
               case TerminateCommand(id, refund, deduction, reason, today) =>
                 t == Published(s, TerminateLeaseOutcome(s, id, refund, deduction, reason, today))
               case ForceCommand(id, reason, handling, date) =>
                 t == Published(s, ForceTerminateOutcome(s, id, reason, handling, date))
               case CheckoutCommand(input, unitPrice, token) =>
                 var f := FinalizeOutcome(s, input, unitPrice, token);
                 t == if f.Success? then Delivered(f.value.outcome.store, f.value.outcome.events) else s
    ensures forall r: Result<Outcome, LeaseError> ::
              Published(y.store, r) == if r.Success? then Delivered(r.value.store, r.value.events) else y.store
  {
    hide CreateLeaseOutcome, UpdateDepositOutcome, ReplaceLeaseOutcome, TerminateLeaseOutcome, ForceTerminateOutcome,
         FinalizeOutcome, RentUpdates.UpdateLeaseOutcome, Delivered, AfterStep, AgreedAfter, ReplacedAfter;
  }

  // On every run: rooms and tenants are those of the start, a room keeps everything but its status, and a
  // room or tenant that no lease names is as it was.
  lemma {:induction false} RunLeavesOthers(y: System, commands: seq<Command>)
    ensures OthersStay(y.store, RunCommands(y, commands).store)
    ensures NamesKept(y.store.accounts, RunCommands(y, commands).store.accounts)
    decreases |commands|
  {
    hide OthersStay, AfterOne;
    if commands == [] {
      NothingStays(y.store);
    } else {
      var z := AfterOne(y, commands[0]);
      CommandStays(y, commands[0]);
      RunLeavesOthers(z, commands[1..]);
      OthersStayOn(y.store, z.store, RunCommands(y, commands).store);
    }
  }
}
