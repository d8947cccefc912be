/**
 The stored leases, rooms, tenants and accounting entries, the repository statements that change them,
 and the events that move room and tenant status after a commit
 (internal/platform/database/leases/repository.go, internal/application/lease/subscribers.go,
 internal/platform/database/txrunner/runner.go).
 */
module LeaseStore {
  import opened Basics
  import opened BillingPeriods
  import opened Leases
  import opened BillLists

  datatype RoomStatus = Vacant | Occupied | Maintenance

  datatype Room = Room(property: nat, status: RoomStatus, defaultCadence: Cadence)

  datatype TenantStatus = TenantActive | TenantInactive

  datatype Category = DepositRefund | DepositDeduction | RentRefund | ElectricityPayment

  datatype Entry = Entry(lease: nat, category: Category, amount: int, description: Option<string>)

  // A lease is identified by its position among the accounts.
  datatype Store = Store(
    accounts: seq<Account>,
    rooms: map<nat, Room>,
    tenants: map<nat, TenantStatus>,
    ledger: seq<Entry>)

  datatype Event =
    | LeaseCreated(lease: nat, room: nat, tenant: nat)
    | LeaseTerminated(lease: nat, room: nat, tenant: nat)
    | LeaseReplaced(oldLease: nat, newLease: nat, reason: string, changedFields: seq<string>)
    | LeaseConditionChanged(lease: nat, rentAmount: int, effective: Day)
    | DepositRefunded(lease: nat, amount: int)
    | DepositDeducted(lease: nat, amount: int)

  // What a committed command leaves behind: the stored state and the events to publish.
  datatype Outcome = Outcome(store: Store, events: seq<Event>)

  // ---------- The subscribers ----------

  predicate HasLiveLease(accounts: seq<Account>, tenant: nat) {
    exists a | a in accounts :: a.lease.tenant == tenant && IsLive(a.lease.status)
  }

  function WithRoomStatus(s: Store, room: nat, status: RoomStatus): Store {
    if room in s.rooms then s.(rooms := s.rooms[room := s.rooms[room].(status := status)]) else s
  }

  function WithTenantStatus(s: Store, tenant: nat, status: TenantStatus): Store {
    if tenant in s.tenants then s.(tenants := s.tenants[tenant := status]) else s
  }

  function Handled(s: Store, event: Event): Store {
    match event
    case LeaseCreated(_, room, tenant) =>
      WithTenantStatus(WithRoomStatus(s, room, Occupied), tenant, TenantActive)
    case LeaseTerminated(_, room, tenant) =>
      var released := WithRoomStatus(s, room, Vacant);
      if HasLiveLease(s.accounts, tenant) then released else WithTenantStatus(released, tenant, TenantInactive)
    case _ => s
  }

  function Delivered(s: Store, events: seq<Event>): Store
    decreases |events|
  {
    if events == [] then s else Delivered(Handled(s, events[0]), events[1..])
  }

  // ---------- The repository ----------

  class LeaseDb {
    var accounts: seq<Account>
    var rooms: map<nat, Room>
    var tenants: map<nat, TenantStatus>
    var ledger: seq<Entry>

    constructor (s: Store)
      ensures Contents() == s
    {
      accounts, rooms, tenants, ledger := s.accounts, s.rooms, s.tenants, s.ledger;
    }

    function Contents(): Store
      reads this
    {
      Store(accounts, rooms, tenants, ledger)
    }

    method SetLease(id: nat, lease: Lease)
      requires id < |accounts|
      modifies this`accounts
      ensures accounts == old(accounts)[id := old(accounts)[id].(lease := lease)]
    {
      accounts := accounts[id := accounts[id].(lease := lease)];
    }

    method CreateLease(lease: Lease) returns (id: nat)
      modifies this`accounts
      ensures id == |old(accounts)| && accounts == old(accounts) + [Account(lease, [])]
    {
      id := |accounts|;
      accounts := accounts + [Account(lease, [])];
    }

    method CreateBills(id: nat, bills: seq<Bill>)
      requires id < |accounts|
      modifies this`accounts
      ensures accounts == old(accounts)[id := old(accounts)[id].(bills := old(accounts)[id].bills + bills)]
    {
      accounts := accounts[id := accounts[id].(bills := accounts[id].bills + bills)];
    }

    method VoidRentBillsFromDueDate(id: nat, due: Day)
      requires id < |accounts|
      modifies this`accounts
      ensures accounts == old(accounts)[id := old(accounts)[id].(bills := VoidRentFrom(old(accounts)[id].bills, due))]
    {
      accounts := accounts[id := accounts[id].(bills := VoidRentFrom(accounts[id].bills, due))];
    }

    method VoidBillsOverlappingOrAfter(id: nat, boundary: Day)
      requires id < |accounts|
      modifies this`accounts
      ensures accounts == old(accounts)[id := old(accounts)[id].(bills := VoidPendingFrom(old(accounts)[id].bills,
              boundary))]
    {
      accounts := accounts[id := accounts[id].(bills := VoidPendingFrom(accounts[id].bills, boundary))];
    }

    method WriteOffBills(id: nat, bills: seq<Bill>)
      requires id < |accounts|
      modifies this`accounts
      ensures accounts == old(accounts)[id := old(accounts)[id].(bills := bills)]
    {
      accounts := accounts[id := accounts[id].(bills := bills)];
    }

    method CreateEntry(entry: Entry)
      modifies this`ledger
      ensures ledger == old(ledger) + [entry]
    {
      ledger := ledger + [entry];
    }

    method MarkRoom(room: nat, status: RoomStatus)
      modifies this`rooms
      ensures Contents() == WithRoomStatus(old(Contents()), room, status)
    {
      if room in rooms {
        rooms := rooms[room := rooms[room].(status := status)];
      }
    }

    method ActivateTenant(tenant: nat)
      modifies this`tenants
      ensures Contents() == WithTenantStatus(old(Contents()), tenant, TenantActive)
    {
      if tenant in tenants {
        tenants := tenants[tenant := TenantActive];
      }
    }

    method DeactivateTenantIfNoActiveLeases(tenant: nat)
      modifies this`tenants
      ensures Contents() ==
              if HasLiveLease(accounts, tenant) then old(Contents())
              else WithTenantStatus(old(Contents()), tenant, TenantInactive)
    {
      if tenant in tenants && !HasLiveLease(accounts, tenant) {
        tenants := tenants[tenant := TenantInactive];
      }
    }

    // The synchronous publication of one transaction's events, after its commit.
    method Publish(events: seq<Event>)
      modifies this
      ensures Contents() == Delivered(old(Contents()), events)
    {
      for i := 0 to |events|
        invariant Delivered(Contents(), events[i..]) == Delivered(old(Contents()), events)
      {
        match events[i] {
          case LeaseCreated(_, room, tenant) =>
            MarkRoom(room, Occupied);
            ActivateTenant(tenant);
          case LeaseTerminated(_, room, tenant) =>
            MarkRoom(room, Vacant);
            DeactivateTenantIfNoActiveLeases(tenant);
          case _ =>
        }
        assert events[i..][1..] == events[i + 1..];
      }
    }
  }
}
