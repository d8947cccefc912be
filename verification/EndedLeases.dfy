/**
 What can still be unpaid on a lease that has ended, on every run of commands: nothing after a normal or
 forced termination or a checkout, and after a replacement only overdue bills of the time that follows it.
 */
module EndedLeases {
  import opened Basics
  import opened Leases
  import opened Billing
  import opened BillLists
  import opened LeaseStore
  import opened RentUpdates
  import opened Books
  import opened Replacement
  import opened Termination
  import opened Checkout
  import opened CheckoutFinalize
  import opened CheckoutTheorems
  import opened Occupancy

  // A replaced lease ends the day before the boundary.
  ghost predicate Closed(a: Account, replaced: bool) {
    IsLive(a.lease.status) ||
    forall b | b in a.bills && IsUnpaid(b) :: replaced && b.status == Overdue && b.period.last > a.lease.endDate
  }

  ghost predicate AllClosed(s: Store, replaced: set<nat>) {
    forall id | 0 <= id < |s.accounts| :: Closed(s.accounts[id], id in replaced)
  }

  // ---------- Two ways a command changes the accounts ----------

  lemma {:induction false} DeliveryKeepsAccounts(s: Store, events: seq<Event>)
    ensures Delivered(s, events).accounts == s.accounts
    decreases |events|
  {
    if events != [] {
      DeliveryKeepsAccounts(Handled(s, events[0]), events[1..]);
    }
  }

  lemma OneChanged(s: Store, t: Store, replaced: set<nat>, replaced': set<nat>, id: nat)
    requires AllClosed(s, replaced)
    requires id < |s.accounts| == |t.accounts| && replaced <= replaced' <= replaced + {id}
    requires forall i | 0 <= i < |s.accounts| && i != id :: t.accounts[i] == s.accounts[i]
    requires Closed(t.accounts[id], id in replaced')
    ensures AllClosed(t, replaced')
  {
    hide Closed;
  }

  lemma OneAdded(s: Store, t: Store, replaced: set<nat>)
    requires AllClosed(s, replaced)
    requires |t.accounts| == |s.accounts| + 1 && t.accounts[..|s.accounts|] == s.accounts
    requires IsLive(t.accounts[|s.accounts|].lease.status)
    ensures AllClosed(t, replaced)
  {
    forall i | 0 <= i < |s.accounts|
      ensures t.accounts[i] == s.accounts[i]
    {
      assert t.accounts[..|s.accounts|][i] == t.accounts[i];
    }
  }

  // ---------- Every command keeps it ----------

  // No account step makes a bill of an ended lease unpaid: what is overdue can only be paid.
  lemma StepKeepsClosed(a: Account, step: AccountStep, replaced: bool)
    requires Closed(a, replaced)
    ensures Closed(AfterStep(a, step), replaced)
  {
    if IsLive(a.lease.status) {
      StepKeepsRoom(a, step);
    } else {
      EndedStep(a, step);
    }
  }

  lemma EndedStep(a: Account, step: AccountStep)
    requires !IsLive(a.lease.status)
    requires forall b | b in a.bills && IsUnpaid(b) :: b.status == Overdue
    ensures var c := AfterStep(a, step);
            && c.lease == a.lease
            && forall b | b in c.bills && IsUnpaid(b) :: b in a.bills
  {
    hide PreviousReading, ElectricityAmount;
    forall i | 0 <= i < |a.bills|
      ensures a.bills[i].status != PendingPayment && a.bills[i].status != PendingMeter
    {
      assert a.bills[i] in a.bills;
    }
  }

  lemma CreateKeepsClosed(y: System, c: Command)
    requires c.CreateCommand? && AllClosed(y.store, y.replaced)
    ensures AllClosed(AfterOne(y, c).store, AfterOne(y, c).replaced)
  {
    hide AllClosed, Delivered, RentSeeds, ElectricitySeeds, RentPeriods, ElectricitySpans, TrimCadence,
        NormalizeState, WellFormed;
    var r := CreateLeaseOutcome(y.store, c.create);
    if r.Success? {
      CreatedLease(y.store.rooms[c.create.room], c.create);
      DeliveryKeepsAccounts(r.value.store, r.value.events);
      OneAdded(y.store, AfterOne(y, c).store, y.replaced);
    }
  }

  lemma RentKeepsClosed(y: System, c: Command)
    requires c.RentCommand? && AllClosed(y.store, y.replaced)
    ensures AllClosed(AfterOne(y, c).store, AfterOne(y, c).replaced)
  {
    hide AllClosed, Delivered, UpdatedRent, Closed;
    if UpdateLeaseOutcome(y.store, c.id, Some(c.rentAmount), None, None, c.operationDate).Success? {
      RentCommandIsStep(y.store, c.id, c.rentAmount, c.operationDate);
      AccountStepKeepsClosed(y, c.id, UpdateRent(c.rentAmount, c.operationDate));
    }
  }

  lemma AccountStepKeepsClosed(y: System, id: nat, step: AccountStep)
    requires AllClosed(y.store, y.replaced) && id < |y.store.accounts|
    ensures AllClosed(y.store.(accounts := y.store.accounts[id := AfterStep(y.store.accounts[id], step)]), y.replaced)
  {
    hide AfterStep, Closed;
    StepKeepsClosed(y.store.accounts[id], step, id in y.replaced);
  }

  lemma DepositKeepsClosed(y: System, c: Command)
    requires c.DepositCommand? && AllClosed(y.store, y.replaced)
    ensures AllClosed(AfterOne(y, c).store, AfterOne(y, c).replaced)
  {
    hide Delivered, DepositEvents, DepositEntries, TrimOptional, ReasonValue, NormalizeState;
    var r := UpdateDepositOutcome(y.store, c.id, c.refund, c.deduction, c.reason);
    if r.Success? {
      DeliveryKeepsAccounts(r.value.store, r.value.events);
      OneChanged(y.store, AfterOne(y, c).store, y.replaced, y.replaced, c.id);
    }
  }

  lemma NothingUnpaidIsClosed(a: Account, replaced: bool)
    requires forall b | b in a.bills :: !IsUnpaid(b)
    ensures Closed(a, replaced)
  {
  }

  lemma TerminateKeepsClosed(y: System, c: Command)
    requires c.TerminateCommand? && AllClosed(y.store, y.replaced)
    ensures AllClosed(AfterOne(y, c).store, AfterOne(y, c).replaced)
  {
    var r := TerminateLeaseOutcome(y.store, c.id, c.refund, c.deduction, c.reason, c.today);
    if r.Success? {
      TerminationLeavesNothingUnpaid(y.store, c.id, c.refund, c.deduction, c.reason, c.today);
      hide AllClosed, Closed, Delivered, DepositEvents, DepositEntries, TrimOptional, ReasonValue, NormalizeState,
          Positions,
           SettledDeposit, TerminatedLease;
      DeliveryKeepsAccounts(r.value.store, r.value.events);
      NothingUnpaidIsClosed(r.value.store.accounts[c.id], c.id in y.replaced);
      OneChanged(y.store, AfterOne(y, c).store, y.replaced, y.replaced, c.id);
    }
  }

  lemma ForceKeepsClosed(y: System, c: Command)
    requires c.ForceCommand? && AllClosed(y.store, y.replaced)
    ensures AllClosed(AfterOne(y, c).store, AfterOne(y, c).replaced)
  {
    var r := ForceTerminateOutcome(y.store, c.id, c.forceReason, c.handling, c.date);
    if r.Success? {
      ForcedTerminationLeavesNothingUnpaid(y.store, c.id, c.forceReason, c.handling, c.date);
      hide AllClosed, Closed, Delivered, WriteOffEntries, NormalizeState, Positions, WrittenOffAt,
          ForceTerminatedLease, TrimSpace,
           TrimHandling;
      DeliveryKeepsAccounts(r.value.store, r.value.events);
      NothingUnpaidIsClosed(r.value.store.accounts[c.id], c.id in y.replaced);
      OneChanged(y.store, AfterOne(y, c).store, y.replaced, y.replaced, c.id);
    }
  }

  lemma CheckoutKeepsClosed(y: System, c: Command)
    requires c.CheckoutCommand? && AllClosed(y.store, y.replaced)
    ensures AllClosed(AfterOne(y, c).store, AfterOne(y, c).replaced)
  {
    hide AllClosed, Closed, Delivered, FinalizeOutcome;
    var f := FinalizeOutcome(y.store, c.checkout, c.unitPrice, c.token);
    if f.Success? {
      CheckedOut(y.store, c.checkout, c.unitPrice, c.token);
      DeliveryKeepsAccounts(f.value.outcome.store, f.value.outcome.events);
      NothingUnpaidIsClosed(f.value.outcome.store.accounts[c.checkout.lease], c.checkout.lease in y.replaced);
      OneChanged(y.store, AfterOne(y, c).store, y.replaced, y.replaced, c.checkout.lease);
    }
  }

  // A finalized checkout leaves nothing unpaid on its lease and changes no other.
  lemma CheckedOut(s: Store, input: CheckoutInput, unitPrice: Option<real>, token: Option<Token>)
    requires FinalizeOutcome(s, input, unitPrice, token).Success?
    ensures var id, t := input.lease, FinalizeOutcome(s, input, unitPrice, token).value.outcome.store;
            && id < |s.accounts| == |t.accounts|
            && (forall b | b in t.accounts[id].bills :: !IsUnpaid(b))
            && forall i | 0 <= i < |s.accounts| && i != id :: t.accounts[i] == s.accounts[i]
  {
    hide FinalizeOutcome, NormalizeInput, CheckoutElectricity, CommitProposal;
    var n, electricity := FinalizedProposal(s, input, unitPrice, token);
    var a := s.accounts[input.lease];
    var p := Proposal(a, n, electricity);
    CommittedAccounts(s, p, electricity);
    ProposalBlockers(a, n, electricity);
    hide Proposal;
    NothingUnpaidAfter(a, n, unitPrice, p.lines);
  }

  lemma ProposalBlockers(a: Account, input: CheckoutInput, electricity: Option<Calculation>)
    ensures var p := Proposal(a, input, electricity); p.blockers == SettlementBlockers(a, input, p.lines)
  {
    hide SettlementLines, SettlementBlockers, TotalOf, BillViews;
  }

  lemma CommittedAccounts(s: Store, p: Settlement, electricity: Option<Calculation>)
    requires p.input.lease < |s.accounts|
    requires CommitProposal(s, p, electricity).Success?
    ensures var id, t := p.input.lease, CommitProposal(s, p, electricity).value.outcome.store;
            && |t.accounts| == |s.accounts|
            && t.accounts[id].bills == WithSettledBill(s.accounts[id].bills, electricity)
            && forall i | 0 <= i < |s.accounts| && i != id :: t.accounts[i] == s.accounts[i]
  {
    hide DeductionReason, CheckoutEntries, WithSettledBill, TrimOptional, DepositEvents;
  }

  lemma ReplaceKeepsClosed(y: System, c: Command)
    requires c.ReplaceCommand? && AllClosed(y.store, y.replaced)
    ensures AllClosed(AfterOne(y, c).store, AfterOne(y, c).replaced)
  {
    hide AllClosed, Closed, Delivered, ReplaceLeaseOutcome;
    var r := ReplaceLeaseOutcome(y.store, c.replace);
    if r.Success? {
      var s, id := y.store, c.replace.lease;
      ReplacedAccounts(s, c.replace);
      DeliveryKeepsAccounts(r.value.store, r.value.events);
      var t := r.value.store.(accounts := r.value.store.accounts[..|s.accounts|]);
      OneChanged(s, t, y.replaced, y.replaced + {id}, id);
      OneAdded(t, AfterOne(y, c).store, y.replaced + {id});
    }
  }

  // What the predecessor keeps unpaid is overdue and ends on or after the boundary.
  lemma ReplacedAccounts(s: Store, input: ReplaceInput)
    requires ReplaceLeaseOutcome(s, input).Success?
    ensures var id, t := input.lease, ReplaceLeaseOutcome(s, input).value.store;
            && id < |s.accounts| && |t.accounts| == |s.accounts| + 1
            && Closed(t.accounts[id], true)
            && IsLive(t.accounts[|s.accounts|].lease.status)
            && forall i | 0 <= i < |s.accounts| && i != id :: t.accounts[i] == s.accounts[i]
  {
    var bills, day := s.accounts[input.lease].bills, input.effectiveStart;
    hide IsBoundary, Positions, NormalizeState, TrimCadence, TrimSpace, IsReplacementReason, ChangedFields, RentPeriods,
         ElectricitySpans, WellFormed;
    NoPositions(bills, IsUnsettled(day));
    SuccessorIsLive(s.accounts[input.lease].lease, input);
    VoidingClosesEarlier(bills, day);
  }

  lemma SuccessorIsLive(l: Lease, input: ReplaceInput)
    requires NormalizeState(SuccessorOf(l, input)).Success?
    ensures WellFormed(NormalizeState(SuccessorOf(l, input)).value)
    ensures NewAccount(NormalizeState(SuccessorOf(l, input)).value).lease.status == Active
  {
    hide TrimCadence;
    NormalizedIsWellFormed(SuccessorOf(l, input));
  }

  lemma VoidingClosesEarlier(bills: seq<Bill>, day: Day)
    requires forall b | b in bills :: !IsUnsettled(day)(b)
    ensures forall b | b in VoidPendingFrom(bills, day) && IsUnpaid(b) :: b.status == Overdue && b.period.last > day - 1
  {
    forall b | b in VoidPendingFrom(bills, day) && IsUnpaid(b)
      ensures b.status == Overdue && b.period.last > day - 1
    {
      var i :| 0 <= i < |bills| && VoidPendingFrom(bills, day)[i] == b;
      assert bills[i] in bills && b == VoidIfEndsFrom(day)(bills[i]);
    }
  }

  lemma CommandKeepsClosed(y: System, c: Command)
    requires AllClosed(y.store, y.replaced)
    ensures AllClosed(AfterOne(y, c).store, AfterOne(y, c).replaced)
  {
    match c
    case CreateCommand(_) => CreateKeepsClosed(y, c);
    case RentCommand(_, _, _) => RentKeepsClosed(y, c);
    case AccountCommand(id, step) =>
      hide AllClosed, AfterStep;
      if id < |y.store.accounts| {
        AccountStepKeepsClosed(y, id, step);
      }
    case DepositCommand(_, _, _, _) => DepositKeepsClosed(y, c);
    case ReplaceCommand(_) => ReplaceKeepsClosed(y, c);
    case TerminateCommand(_, _, _, _, _) => TerminateKeepsClosed(y, c);
    case ForceCommand(_, _, _, _) => ForceKeepsClosed(y, c);
    case CheckoutCommand(_, _, _) => CheckoutKeepsClosed(y, c);
  }

  // On every run: a lease that was terminated, force-terminated or checked out never has an unpaid bill
  // again, and a replaced one only overdue bills that end on or after the boundary.
  lemma {:induction false} RunKeepsClosed(y: System, commands: seq<Command>)
    requires AllClosed(y.store, y.replaced)
    ensures AllClosed(RunCommands(y, commands).store, RunCommands(y, commands).replaced)
    decreases |commands|
  {
    if commands != [] {
      hide AllClosed, AfterOne;
      CommandKeepsClosed(y, commands[0]);
      RunKeepsClosed(AfterOne(y, commands[0]), commands[1..]);
    }
  }

  lemma ClosedFromEmpty(start: Store, commands: seq<Command>)
    requires IsEmpty(start)
    ensures var y := RunCommands(System(start, [], {}), commands); AllClosed(y.store, y.replaced)
  {
    RunKeepsClosed(System(start, [], {}), commands);
  }
}
