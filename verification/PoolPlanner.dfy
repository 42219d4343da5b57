/** Planning one physical accelerator pool: what inventory leaves free on each Kubernetes node
    once deferred batch reservations and service replicas are charged. */
module PoolPlanner {
  import opened Accelerators
  import opened Common

  /** Worker id and node name. */
  type NodeKey = (string, string)

  type Profile = string

  datatype Device = Device(
    worker: string, node: string, vendor: Vendor, kind: Kind, model: string, resource: Option<string>,
    usable: bool, memoryMb: int, profiles: set<Profile>, capabilities: set<string>)

  type Inventory = seq<Device>

  datatype Pool = Pool(vendor: Vendor, model: string, resource: string)

  /** Where a deferred reservation is charged; the unknown slots are those whose node, and possibly
      resource, could not be established. */
  datatype Slot =
    | AtNode(node: NodeKey, vendor: Vendor, resource: string)
    | WorkerResource(worker: string, vendor: Vendor, resource: string)
    | WorkerVendor(worker: string, vendor: Vendor)
    | VendorResource(vendor: Vendor, resource: string)
    | AnyOfVendor(vendor: Vendor)

  type Deferred = map<Slot, nat>

  /** A replica of a model service. An unknown attribute is `None`; no eligible node is `{}`. */
  datatype Commitment = Commitment(
    vendor: Option<Vendor>, model: Option<string>, resource: Option<string>, count: nat,
    eligibleNodes: set<string>, assignedNode: Option<string>)

  type Remaining = map<NodeKey, nat>

  // -------------------------------------------------------------------- inventory

  function KeyOf(d: Device): NodeKey {
    (d.worker, d.node)
  }

  predicate InPool(d: Device, pool: Pool) {
    d.vendor == pool.vendor && d.model == pool.model && d.resource == Some(pool.resource)
  }

  /** Nodes with a device of the pool. */
  function CandidateKeys(inv: Inventory, pool: Pool): set<NodeKey> {
    if inv == [] then {}
    else CandidateKeys(inv[..|inv| - 1], pool) + if InPool(inv[|inv| - 1], pool) then {KeyOf(inv[|inv| - 1])} else {}
  }

  function WorkersOn(inv: Inventory, node: string): set<string> {
    if inv == [] then {}
    else WorkersOn(inv[..|inv| - 1], node) + if inv[|inv| - 1].node == node then {inv[|inv| - 1].worker} else {}
  }

  lemma {:induction false} CandidateDevice(inv: Inventory, pool: Pool, key: NodeKey)
    ensures key in CandidateKeys(inv, pool) <==> exists d :: d in inv && InPool(d, pool) && KeyOf(d) == key
  {
    if inv != [] {
      var front, last := inv[..|inv| - 1], inv[|inv| - 1];
      CandidateDevice(front, pool, key);
      assert forall d :: d in inv <==> d in front || d == last;
    }
  }

  lemma {:induction false} ReportingWorker(inv: Inventory, d: Device)
    requires d in inv
    ensures d.worker in WorkersOn(inv, d.node)
  {
    if d != inv[|inv| - 1] {
      assert d in inv[..|inv| - 1];
      ReportingWorker(inv[..|inv| - 1], d);
    }
  }

  /** A candidate node that several workers report. */
  predicate SharedNode(inv: Inventory, pool: Pool) {
    exists key {:trigger OneOwner(inv, key)} :: key in CandidateKeys(inv, pool) && !OneOwner(inv, key)
  }

  predicate OneOwner(inv: Inventory, key: NodeKey) {
    |WorkersOn(inv, key.1)| == 1
  }

  /** Devices of the pool's vendor and resource on one node, of whatever model. */
  predicate Physical(d: Device, key: NodeKey, pool: Pool) {
    KeyOf(d) == key && d.vendor == pool.vendor && d.resource == Some(pool.resource)
  }

  function PhysicalCount(inv: Inventory, key: NodeKey, pool: Pool): nat {
    if inv == [] then 0
    else PhysicalCount(inv[..|inv| - 1], key, pool) + (if Physical(inv[|inv| - 1], key, pool) then 1 else 0)
  }

  // --------------------------------------------------------------- deferred charges

  function At(deferred: Deferred, slot: Slot): nat {
    if slot in deferred then deferred[slot] else 0
  }

  /** Usage that may sit on a node of the pool without being attributable to one. */
  predicate HasUnknownUsage(deferred: Deferred, pool: Pool, keys: set<NodeKey>) {
    || At(deferred, VendorResource(pool.vendor, pool.resource)) > 0
    || At(deferred, AnyOfVendor(pool.vendor)) > 0
    || (exists key {:trigger UnknownOnWorker(deferred, pool, key)} :: key in keys && UnknownOnWorker(deferred, pool, key))
  }

  predicate UnknownOnWorker(deferred: Deferred, pool: Pool, key: NodeKey) {
    At(deferred, WorkerResource(key.0, pool.vendor, pool.resource)) > 0 || At(deferred, WorkerVendor(key.0, pool.vendor)) > 0
  }

  predicate Relevant(slot: Slot, pool: Pool) {
    slot.AtNode? && slot.vendor == pool.vendor && slot.resource == pool.resource
  }

  function NodeSlot(key: NodeKey, pool: Pool): Slot {
    AtNode(key, pool.vendor, pool.resource)
  }

  /** Every located reservation of the pool fits on its node. A node without a device of the
      planned model offers nothing, so a reservation there spoils the whole plan. */
  predicate DeferredFits(deferred: Deferred, pool: Pool, remaining: Remaining) {
    forall slot {:trigger Relevant(slot, pool)} :: slot in deferred && Relevant(slot, pool) ==>
      slot.node in remaining && deferred[slot] <= remaining[slot.node]
  }

  function FreeDevices(inv: Inventory, pool: Pool): Remaining {
    map key | key in CandidateKeys(inv, pool) :: PhysicalCount(inv, key, pool)
  }

  function AfterDeferred(deferred: Deferred, pool: Pool, remaining: Remaining): Remaining
    requires DeferredFits(deferred, pool, remaining)
  {
    map key | key in remaining :: LeftAt(deferred, pool, remaining, key)
  }

  function LeftAt(deferred: Deferred, pool: Pool, remaining: Remaining, key: NodeKey): nat
    requires DeferredFits(deferred, pool, remaining) && key in remaining
  {
    assert Relevant(NodeSlot(key, pool), pool);
    remaining[key] - At(deferred, NodeSlot(key, pool))
  }

  // ------------------------------------------------------------- service commitments

  function AssignedKeys(remaining: Remaining, node: string): set<NodeKey> {
    set key | key in remaining && key.1 == node
  }

  /** One commitment: `None` when it leaves the pool unsafe to admit into. */
  function Charge(remaining: Remaining, c: Commitment, pool: Pool): Option<Remaining> {
    if c.vendor.None? then None
    else if c.vendor.value != pool.vendor then Some(remaining)
    else if c.resource.None? then None
    else if c.resource.value != pool.resource then Some(remaining)
    else if c.eligibleNodes == {} then None
    else if c.assignedNode.None? then
      if exists key :: key in remaining && key.1 in c.eligibleNodes then None else Some(remaining)
    else if c.assignedNode.value !in c.eligibleNodes then None
    else
      var keys := AssignedKeys(remaining, c.assignedNode.value);
      if keys == {} then Some(remaining)
      else if |keys| != 1 then None
      else ChargeNode(remaining, c, pool, keys)
  }

  /** A replica of another or unknown model makes the node unusable; one of this model takes its gang. */
  function ChargeNode(remaining: Remaining, c: Commitment, pool: Pool, keys: set<NodeKey>): Option<Remaining>
    requires |keys| == 1 && keys <= remaining.Keys
  {
    var key := TheMember(keys);
    if c.model != Some(pool.model) then Some(remaining[key := 0])
    else if remaining[key] < c.count then None
    else Some(remaining[key := remaining[key] - c.count])
  }

  function ChargeAll(remaining: Remaining, cs: seq<Commitment>, pool: Pool): Option<Remaining> {
    if cs == [] then Some(remaining)
    else
      var charged := Charge(remaining, cs[0], pool);
      if charged.None? then None else ChargeAll(charged.value, cs[1..], pool)
  }

  /** `_plan_physical_pool_remaining` as a function. */
  function Plan(inv: Inventory, pool: Pool, services: seq<Commitment>, deferred: Deferred): Option<Remaining> {
    var free := FreeDevices(inv, pool);
    if Plannable(inv, pool, deferred) then ChargeAll(AfterDeferred(deferred, pool, free), services, pool) else None
  }

  /** No candidate node is shared, no usage is unlocated, and every located reservation fits. */
  predicate Plannable(inv: Inventory, pool: Pool, deferred: Deferred) {
    var free := FreeDevices(inv, pool);
    !SharedNode(inv, pool) && !HasUnknownUsage(deferred, pool, free.Keys) && DeferredFits(deferred, pool, free)
  }

  // ------------------------------------------------------------------ the planner's loops

  /** One pass over the inventory, counting the physical devices of each candidate node. */
  method CountDevices(inv: Inventory, keys: set<NodeKey>, pool: Pool) returns (remaining: Remaining)
    ensures remaining.Keys <= keys
    ensures forall key :: key in keys ==>
      (if key in remaining then remaining[key] else 0) == PhysicalCount(inv, key, pool)
    ensures forall key :: key in remaining ==> remaining[key] >= 1
  {
    remaining := map[];
    for i := 0 to |inv|
      invariant remaining.Keys <= keys
      invariant forall key :: key in keys ==>
        (if key in remaining then remaining[key] else 0) == PhysicalCount(inv[..i], key, pool)
      invariant forall key :: key in remaining ==> remaining[key] >= 1
    {
      assert inv[..i + 1][..i] == inv[..i];
      var d := inv[i];
      if d.vendor == pool.vendor && d.resource == Some(pool.resource) && KeyOf(d) in keys {
        var key := KeyOf(d);
        remaining := remaining[key := (if key in remaining then remaining[key] else 0) + 1];
      }
    }
    assert inv[..|inv|] == inv;
  }

  lemma {:induction false} PoolDeviceIsCounted(inv: Inventory, d: Device, pool: Pool)
    requires d in inv && InPool(d, pool)
    ensures PhysicalCount(inv, KeyOf(d), pool) >= 1
  {
    if d != inv[|inv| - 1] {
      assert d in inv[..|inv| - 1];
      PoolDeviceIsCounted(inv[..|inv| - 1], d, pool);
    }
  }

  lemma CountedIsFree(inv: Inventory, pool: Pool, remaining: Remaining)
    requires remaining.Keys <= CandidateKeys(inv, pool)
    requires forall key :: key in CandidateKeys(inv, pool) ==>
      (if key in remaining then remaining[key] else 0) == PhysicalCount(inv, key, pool)
    ensures remaining == FreeDevices(inv, pool)
  {
    forall key | key in CandidateKeys(inv, pool) ensures key in remaining {
      CandidateDevice(inv, pool, key);
      var d :| d in inv && InPool(d, pool) && KeyOf(d) == key;
      PoolDeviceIsCounted(inv, d, pool);
    }
  }

  /** What is left once the slots outside `todo` are charged. */
  ghost predicate PartlyDeferred(deferred: Deferred, pool: Pool, free: Remaining, todo: set<Slot>, remaining: Remaining) {
    && remaining.Keys == free.Keys
    && (forall key :: key in remaining ==>
          remaining[key] == free[key] - (if NodeSlot(key, pool) in todo then 0 else At(deferred, NodeSlot(key, pool))))
    && (forall slot {:trigger Relevant(slot, pool)} :: slot in deferred && slot !in todo && Relevant(slot, pool) ==>
          slot.node in free && deferred[slot] <= free[slot.node])
  }

  method ChargeDeferred(deferred: Deferred, pool: Pool, free: Remaining) returns (r: Option<Remaining>)
    requires forall slot :: slot in deferred ==> deferred[slot] >= 1
    ensures r.Some? <==> DeferredFits(deferred, pool, free)
    ensures r.Some? ==> r.value == AfterDeferred(deferred, pool, free)
  {
    var remaining := free;
    var todo := deferred.Keys;
    while todo != {}
      invariant todo <= deferred.Keys
      invariant PartlyDeferred(deferred, pool, free, todo, remaining)
      decreases todo
    {
      var slot :| slot in todo;
      if Relevant(slot, pool) {
        assert slot == NodeSlot(slot.node, pool);
        if (if slot.node in remaining then remaining[slot.node] else 0) < deferred[slot] {
          return None;
        }
        remaining := remaining[slot.node := remaining[slot.node] - deferred[slot]];
      }
      todo := todo - {slot};
    }
    r := Some(remaining);
  }

  method ChargeServices(free: Remaining, services: seq<Commitment>, pool: Pool) returns (r: Option<Remaining>)
    ensures r == ChargeAll(free, services, pool)
  {
    var remaining := free;
    for i := 0 to |services|
      invariant ChargeAll(remaining, services[i..], pool) == ChargeAll(free, services, pool)
    {
      assert services[i..][0] == services[i] && services[i..][1..] == services[i + 1..];
      var c := services[i];
      if c.vendor.None? {
        return None;
      }
      if c.vendor.value != pool.vendor {
        continue;
      }
      if c.resource.None? {
        return None;
      }
      if c.resource.value != pool.resource {
        continue;
      }
      if c.eligibleNodes == {} {
        return None;
      }
      if c.assignedNode.None? {
        if exists key :: key in remaining && key.1 in c.eligibleNodes {
          return None;
        }
        continue;
      }
      if c.assignedNode.value !in c.eligibleNodes {
        return None;
      }
      var keys := AssignedKeys(remaining, c.assignedNode.value);
      if keys == {} {
        continue;
      }
      if |keys| != 1 {
        return None;
      }
      var charged := ChargeNode(remaining, c, pool, keys);
      if charged.None? {
        return None;
      }
      remaining := charged.value;
    }
    assert services[|services|..] == [];
    r := Some(remaining);
  }

  /** `_plan_physical_pool_remaining`. Deferred counts are positive in the reservation table. */
  method PlanRemaining(inv: Inventory, pool: Pool, services: seq<Commitment>, deferred: Deferred)
    returns (r: Option<Remaining>)
    requires forall slot :: slot in deferred ==> deferred[slot] >= 1
    ensures r == Plan(inv, pool, services, deferred)
  {
    if SharedNode(inv, pool) {
      return None;
    }
    var free := CountDevices(inv, CandidateKeys(inv, pool), pool);
    CountedIsFree(inv, pool, free);
    if HasUnknownUsage(deferred, pool, free.Keys) {
      return None;
    }
    var charged := ChargeDeferred(deferred, pool, free);
    if charged.None? {
      return None;
    }
    r := ChargeServices(charged.value, services, pool);
  }

  // ----------------------------------------------------------------------- monotone

  /** A plan that promises no more than another; no plan promises nothing. */
  ghost predicate Below(a: Option<Remaining>, b: Option<Remaining>) {
    a.Some? ==> b.Some? && Leq(a.value, b.value)
  }

  ghost predicate Leq(a: Remaining, b: Remaining) {
    a.Keys == b.Keys && forall key :: key in a ==> a[key] <= b[key]
  }

  lemma ChargeIsMonotone(a: Remaining, b: Remaining, c: Commitment, pool: Pool)
    requires Leq(a, b)
    ensures Below(Charge(a, c, pool), Charge(b, c, pool))
  {
  }

  lemma ChargeOnlyTakes(a: Remaining, c: Commitment, pool: Pool)
    ensures Below(Charge(a, c, pool), Some(a))
  {
  }

  lemma {:induction false} ChargeAllIsMonotone(a: Remaining, b: Remaining, cs: seq<Commitment>, pool: Pool)
    requires Leq(a, b)
    ensures Below(ChargeAll(a, cs, pool), ChargeAll(b, cs, pool))
  {
    if cs != [] {
      ChargeIsMonotone(a, b, cs[0], pool);
      if Charge(a, cs[0], pool).Some? {
        ChargeAllIsMonotone(Charge(a, cs[0], pool).value, Charge(b, cs[0], pool).value, cs[1..], pool);
      }
    }
  }

  lemma {:induction false} ChargeAllOnlyTakes(a: Remaining, cs: seq<Commitment>, pool: Pool)
    ensures Below(ChargeAll(a, cs, pool), Some(a))
  {
    if cs != [] {
      ChargeOnlyTakes(a, cs[0], pool);
      if Charge(a, cs[0], pool).Some? {
        ChargeAllOnlyTakes(Charge(a, cs[0], pool).value, cs[1..], pool);
      }
    }
  }

  lemma {:induction false} InsertedCommitmentOnlyTakes(a: Remaining, cs: seq<Commitment>, i: nat, c: Commitment, pool: Pool)
    requires i <= |cs|
    ensures Below(ChargeAll(a, cs[..i] + [c] + cs[i..], pool), ChargeAll(a, cs, pool))
  {
    var more := cs[..i] + [c] + cs[i..];
    if i == 0 {
      assert more[0] == c && more[1..] == cs;
      ChargeOnlyTakes(a, c, pool);
      if Charge(a, c, pool).Some? {
        ChargeAllIsMonotone(Charge(a, c, pool).value, a, cs, pool);
      }
    } else {
      assert more[0] == cs[0] && more[1..] == cs[1..][..i - 1] + [c] + cs[1..][i - 1..];
      if Charge(a, cs[0], pool).Some? {
        InsertedCommitmentOnlyTakes(Charge(a, cs[0], pool).value, cs[1..], i - 1, c, pool);
      }
    }
  }

  /** Inserting a service commitment at any position never raises what the plan leaves. */
  lemma MoreServicesNeverHelp(inv: Inventory, pool: Pool, services: seq<Commitment>, deferred: Deferred, i: nat, c: Commitment)
    requires i <= |services|
    ensures Below(Plan(inv, pool, services[..i] + [c] + services[i..], deferred), Plan(inv, pool, services, deferred))
  {
    var free := FreeDevices(inv, pool);
    if DeferredFits(deferred, pool, free) {
      InsertedCommitmentOnlyTakes(AfterDeferred(deferred, pool, free), services, i, c, pool);
    }
  }

  ghost predicate NoMoreThan(less: Deferred, more: Deferred) {
    forall slot {:trigger At(less, slot)} {:trigger At(more, slot)} :: At(less, slot) <= At(more, slot)
  }

  lemma LargerDeferredFitsLess(less: Deferred, more: Deferred, pool: Pool, free: Remaining)
    requires NoMoreThan(less, more) && DeferredFits(more, pool, free)
    requires forall slot :: slot in less ==> less[slot] >= 1
    ensures DeferredFits(less, pool, free)
    ensures Leq(AfterDeferred(more, pool, free), AfterDeferred(less, pool, free))
  {
    forall slot | slot in less && Relevant(slot, pool) ensures slot.node in free && less[slot] <= free[slot.node] {
      assert At(less, slot) <= At(more, slot);
    }
    forall key | key in free ensures At(less, NodeSlot(key, pool)) <= At(more, NodeSlot(key, pool)) {
    }
  }

  lemma UnknownUsageGrows(less: Deferred, more: Deferred, pool: Pool, keys: set<NodeKey>)
    requires NoMoreThan(less, more) && HasUnknownUsage(less, pool, keys)
    ensures HasUnknownUsage(more, pool, keys)
  {
    assert At(less, AnyOfVendor(pool.vendor)) <= At(more, AnyOfVendor(pool.vendor));
    forall key | UnknownOnWorker(less, pool, key) ensures UnknownOnWorker(more, pool, key) {
    }
  }

  /** More deferred usage, wherever it is charged, never raises what the plan leaves. */
  lemma MoreDeferredNeverHelps(inv: Inventory, pool: Pool, services: seq<Commitment>, less: Deferred, more: Deferred)
    requires NoMoreThan(less, more)
    requires forall slot :: slot in less ==> less[slot] >= 1
    ensures Below(Plan(inv, pool, services, more), Plan(inv, pool, services, less))
  {
    var free := FreeDevices(inv, pool);
    if Plan(inv, pool, services, more).Some? {
      assert !HasUnknownUsage(less, pool, free.Keys) by {
        if HasUnknownUsage(less, pool, free.Keys) {
          UnknownUsageGrows(less, more, pool, free.Keys);
        }
      }
      LargerDeferredFitsLess(less, more, pool, free);
      ChargeAllIsMonotone(AfterDeferred(more, pool, free), AfterDeferred(less, pool, free), services, pool);
    }
  }

  /** Whether usage in a slot may sit on a device of the pool without being attributable to a node. */
  predicate MayConcern(slot: Slot, pool: Pool, keys: set<NodeKey>) {
    match slot
    case AtNode(_, _, _) => false
    case WorkerResource(w, v, r) => v == pool.vendor && r == pool.resource && exists key :: key in keys && key.0 == w
    case WorkerVendor(w, v) => v == pool.vendor && exists key :: key in keys && key.0 == w
    case VendorResource(v, r) => v == pool.vendor && r == pool.resource
    case AnyOfVendor(v) => v == pool.vendor
  }

  /** Any unattributable usage that may concern the pool, however small, refuses the plan. */
  lemma UnattributableUsageRefusesPlan(inv: Inventory, pool: Pool, services: seq<Commitment>, deferred: Deferred, slot: Slot)
    requires slot in deferred && deferred[slot] >= 1 && MayConcern(slot, pool, CandidateKeys(inv, pool))
    ensures Plan(inv, pool, services, deferred).None?
  {
    assert At(deferred, slot) >= 1;
    if slot.WorkerResource? || slot.WorkerVendor? {
      var key :| key in CandidateKeys(inv, pool) && key.0 == slot.worker;
      assert UnknownOnWorker(deferred, pool, key);
    }
    assert HasUnknownUsage(deferred, pool, FreeDevices(inv, pool).Keys);
  }
}
