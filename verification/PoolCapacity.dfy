/** Batch capacity of a node: classifying deferred reservations, the compatible devices of a
    request, and what admitting a placement does to the next computation. */
module PoolCapacity {
  import opened Accelerators
  import opened Common
  import opened NodeNames
  import opened PoolPlanner

  // -------------------------------------------------- classifying deferred reservations

  /** An active device-plugin reservation as the planner reads it. */
  datatype Reservation = Reservation(
    worker: string, sameSession: bool, node: Option<string>, vendor: Vendor, profile: Option<Profile>, count: nat)

  datatype ProfileSpec = ProfileSpec(vendor: Vendor, kind: Kind, resource: string)

  /** Runtime profiles by exact reference. */
  type Catalog = map<Profile, ProfileSpec>

  /** The worker that owns each node, when the inventory is at hand. */
  type NodeOwners = Option<map<string, string>>

  /** `_unique_inventory_node_owners`: nodes reported by exactly one worker. */
  function Owners(inv: Inventory): NodeOwners {
    Some(map node | node in ReportedNodes(inv) && |WorkersOn(inv, node)| == 1 :: TheMember(WorkersOn(inv, node)))
  }

  function ReportedNodes(inv: Inventory): set<string> {
    if inv == [] then {} else ReportedNodes(inv[..|inv| - 1]) + {inv[|inv| - 1].node}
  }

  lemma {:induction false} NodeIsNamed(inv: Inventory, d: Device)
    requires d in inv
    ensures d.node in ReportedNodes(inv)
  {
    if d != inv[|inv| - 1] {
      assert d in inv[..|inv| - 1];
      NodeIsNamed(inv[..|inv| - 1], d);
    }
  }

  function ResourceOf(catalog: Catalog, r: Reservation): Option<string> {
    if r.profile.Some? && r.profile.value in catalog && catalog[r.profile.value].vendor == r.vendor
    then Some(catalog[r.profile.value].resource) else None
  }

  predicate StableNode(r: Reservation) {
    r.sameSession && r.node.Some? && ValidNodeName(r.node.value)
  }

  /** Without an inventory, a reservation's own worker stands for its node's owner. */
  function OwnerOf(owners: NodeOwners, r: Reservation): Option<string>
    requires r.node.Some?
  {
    if owners.None? then Some(r.worker)
    else if r.node.value in owners.value then Some(owners.value[r.node.value])
    else None
  }

  /** The slot a reservation is charged to; `None` for one on a node outside the inventory. */
  function SlotOf(catalog: Catalog, owners: NodeOwners, r: Reservation): Option<Slot> {
    var resource := ResourceOf(catalog, r);
    if StableNode(r) then
      var owner := OwnerOf(owners, r);
      if owner.None? then None
      else if resource.None? then Some(WorkerVendor(owner.value, r.vendor))
      else Some(AtNode((owner.value, r.node.value), r.vendor, resource.value))
    else if owners.None? then
      Some(if resource.None? then WorkerVendor(r.worker, r.vendor) else WorkerResource(r.worker, r.vendor, resource.value))
    else if resource.None? then Some(AnyOfVendor(r.vendor))
    else Some(VendorResource(r.vendor, resource.value))
  }

  /** What one reservation charges to a slot. */
  function Share(catalog: Catalog, owners: NodeOwners, r: Reservation, slot: Slot): nat {
    if SlotOf(catalog, owners, r) == Some(slot) then r.count else 0
  }

  /** Total charged to one slot. */
  function Charged(catalog: Catalog, owners: NodeOwners, rs: seq<Reservation>, slot: Slot): nat {
    if rs == [] then 0
    else Charged(catalog, owners, rs[..|rs| - 1], slot) + Share(catalog, owners, rs[|rs| - 1], slot)
  }

  function Bump(deferred: Deferred, slot: Slot, k: nat): Deferred {
    deferred[slot := At(deferred, slot) + k]
  }

  /** `deferred` holds exactly the charges of `rs`. */
  ghost predicate Classified(catalog: Catalog, owners: NodeOwners, rs: seq<Reservation>, deferred: Deferred) {
    && (forall slot {:trigger At(deferred, slot)} {:trigger Charged(catalog, owners, rs, slot)} ::
          At(deferred, slot) == Charged(catalog, owners, rs, slot))
    && (forall slot :: slot in deferred ==> deferred[slot] >= 1)
  }

  ghost predicate PositiveCounts(rs: seq<Reservation>) {
    forall i :: 0 <= i < |rs| ==> rs[i].count >= 1
  }

  /** `_classify_deferred_accelerators`. */
  method Classify(catalog: Catalog, owners: NodeOwners, rs: seq<Reservation>) returns (deferred: Deferred)
    requires PositiveCounts(rs)
    ensures Classified(catalog, owners, rs, deferred)
  {
    deferred := map[];
    for i := 0 to |rs|
      invariant Classified(catalog, owners, rs[..i], deferred)
    {
      assert rs[..i + 1][..i] == rs[..i];
      var r := rs[i];
      var slot := SlotOf(catalog, owners, r);
      if slot.None? {
        continue;
      }
      deferred := Bump(deferred, slot.value, r.count);
    }
    assert rs[..|rs|] == rs;
  }

  /** The usage mapping as a function of the reservations. */
  ghost function Usage(catalog: Catalog, owners: NodeOwners, rs: seq<Reservation>): Deferred {
    if rs == [] then map[]
    else
      var before, r := Usage(catalog, owners, rs[..|rs| - 1]), rs[|rs| - 1];
      var slot := SlotOf(catalog, owners, r);
      if slot.None? then before else Bump(before, slot.value, r.count)
  }

  lemma {:induction false} UsageIsClassified(catalog: Catalog, owners: NodeOwners, rs: seq<Reservation>)
    requires PositiveCounts(rs)
    ensures Classified(catalog, owners, rs, Usage(catalog, owners, rs))
  {
    if rs != [] {
      UsageIsClassified(catalog, owners, rs[..|rs| - 1]);
    }
  }

  /** The classification is a function of the charges. */
  lemma ClassificationIsUnique(catalog: Catalog, owners: NodeOwners, rs: seq<Reservation>, a: Deferred, b: Deferred)
    requires Classified(catalog, owners, rs, a) && Classified(catalog, owners, rs, b)
    ensures a == b
  {
    forall slot ensures (slot in a <==> slot in b) && (slot in a ==> a[slot] == b[slot]) {
      assert At(a, slot) == Charged(catalog, owners, rs, slot) == At(b, slot);
    }
  }

  // ---------------------------------------------------------------- compatible devices

  datatype Request = Request(
    worker: string, node: string, pool: Pool, kind: Kind, profile: Profile, minimumMemoryMb: int,
    required: set<string>, fromProfile: set<string>)

  function RequestKey(q: Request): NodeKey {
    (q.worker, q.node)
  }

  /** A device that makes the node a candidate for the request. */
  predicate Opens(q: Request, d: Device) {
    KeyOf(d) == RequestKey(q) && d.usable && InPool(d, q.pool) && d.kind == q.kind && q.profile in d.profiles
  }

  /** Devices on the node that the resource name covers. */
  predicate Covered(q: Request, d: Device) {
    KeyOf(d) == RequestKey(q) && d.resource == Some(q.pool.resource)
  }

  predicate Suits(q: Request, d: Device) {
    && d.vendor == q.pool.vendor && d.kind == q.kind && d.model == q.pool.model && d.memoryMb >= q.minimumMemoryMb
    && q.profile in d.profiles && q.required <= d.capabilities + q.fromProfile
  }

  /** The node is homogeneous: every covered device suits the request. */
  predicate Homogeneous(inv: Inventory, q: Request) {
    && (exists d {:trigger Opens(q, d)} :: d in inv && Opens(q, d))
    && (forall d {:trigger Suits(q, d)} :: d in inv && Covered(q, d) ==> Suits(q, d))
  }

  function UsableCount(inv: Inventory, q: Request): nat {
    if inv == [] then 0
    else
      UsableCount(inv[..|inv| - 1], q) + (if Covered(q, inv[|inv| - 1]) && inv[|inv| - 1].usable then 1 else 0)
  }

  /** `_batch_homogeneous_compatible_devices`, counted on the requested node. */
  function CompatibleCount(inv: Inventory, q: Request): nat {
    if Homogeneous(inv, q) then UsableCount(inv, q) else 0
  }

  lemma {:induction false} UsableIsPhysical(inv: Inventory, q: Request)
    requires forall d :: d in inv && Covered(q, d) ==> Suits(q, d)
    ensures UsableCount(inv, q) <= PhysicalCount(inv, RequestKey(q), q.pool)
  {
    if inv != [] {
      assert forall d :: d in inv[..|inv| - 1] ==> d in inv;
      assert inv[|inv| - 1] in inv;
      UsableIsPhysical(inv[..|inv| - 1], q);
    }
  }

  /** Compatible devices are physical devices of a candidate node. */
  lemma CompatibleIsPhysical(inv: Inventory, q: Request)
    ensures CompatibleCount(inv, q) <= PhysicalCount(inv, RequestKey(q), q.pool)
    ensures CompatibleCount(inv, q) > 0 ==> RequestKey(q) in CandidateKeys(inv, q.pool)
  {
    CandidateDevice(inv, q.pool, RequestKey(q));
    if Homogeneous(inv, q) {
      UsableIsPhysical(inv, q);
    }
  }

  // -------------------------------------------------------------------------- capacity

  function RemainingAt(plan: Option<Remaining>, key: NodeKey): nat {
    if plan.Some? && key in plan.value then plan.value[key] else 0
  }

  /** `_batch_pool_available_capacity` on the requested node. */
  function Capacity(inv: Inventory, q: Request, services: seq<Commitment>, deferred: Deferred): nat {
    var plan := Plan(inv, q.pool, services, deferred);
    if plan.None? then 0
    else
      var used := PhysicalCount(inv, RequestKey(q), q.pool) - RemainingAt(plan, RequestKey(q));
      Max(0, CompatibleCount(inv, q) - used)
  }

  /** The request's profile is in the catalog and describes the requested pool. */
  predicate ProfileFits(catalog: Catalog, q: Request) {
    q.profile in catalog && catalog[q.profile] == ProfileSpec(q.pool.vendor, q.kind, q.pool.resource)
  }

  ghost function BatchCapacity(inv: Inventory, q: Request, catalog: Catalog, services: seq<Commitment>,
                               rs: seq<Reservation>): nat
  {
    if ProfileFits(catalog, q) then Capacity(inv, q, services, Usage(catalog, Owners(inv), rs)) else 0
  }

  /** `available_batch_accelerators_for_pool` on a snapshot of the tables. */
  method AvailableCapacity(inv: Inventory, q: Request, catalog: Catalog, services: seq<Commitment>, rs: seq<Reservation>)
    returns (capacity: nat)
    requires PositiveCounts(rs)
    ensures capacity == BatchCapacity(inv, q, catalog, services, rs)
  {
    if !ProfileFits(catalog, q) {
      return 0;
    }
    var deferred := Classify(catalog, Owners(inv), rs);
    UsageIsClassified(catalog, Owners(inv), rs);
    ClassificationIsUnique(catalog, Owners(inv), rs, deferred, Usage(catalog, Owners(inv), rs));
    var plan := PlanRemaining(inv, q.pool, services, deferred);
    if plan.None? {
      return 0;
    }
    var used := PhysicalCount(inv, RequestKey(q), q.pool) - RemainingAt(plan, RequestKey(q));
    capacity := Max(0, CompatibleCount(inv, q) - used);
  }

  lemma PlanWithinFree(inv: Inventory, pool: Pool, services: seq<Commitment>, deferred: Deferred)
    requires Plan(inv, pool, services, deferred).Some?
    ensures Leq(Plan(inv, pool, services, deferred).value, FreeDevices(inv, pool))
  {
    ChargeAllOnlyTakes(AfterDeferred(deferred, pool, FreeDevices(inv, pool)), services, pool);
  }

  /** What a positive capacity says about the node and its plan. */
  lemma PositiveCapacity(inv: Inventory, q: Request, services: seq<Commitment>, deferred: Deferred)
    requires Capacity(inv, q, services, deferred) > 0
    ensures Homogeneous(inv, q) && RequestKey(q) in CandidateKeys(inv, q.pool)
    ensures var plan := Plan(inv, q.pool, services, deferred);
            && plan.Some? && RequestKey(q) in plan.value
            && Capacity(inv, q, services, deferred) <= plan.value[RequestKey(q)]
            && Capacity(inv, q, services, deferred)
               == CompatibleCount(inv, q) - PhysicalCount(inv, RequestKey(q), q.pool) + plan.value[RequestKey(q)]
  {
    CompatibleIsPhysical(inv, q);
    PlanWithinFree(inv, q.pool, services, deferred);
  }

  /** The device answers the request: vendor, kind, model, memory, profile and capabilities. */
  predicate Answers(q: Request, d: Device) {
    && d.vendor == q.pool.vendor && d.kind == q.kind && d.model == q.pool.model && d.memoryMb >= q.minimumMemoryMb
    && q.profile in d.profiles && forall c :: c in q.required ==> c in d.capabilities || c in q.fromProfile
  }

  /** The devices of the requested resource on the requested node. */
  predicate OnRequestedNode(q: Request, d: Device) {
    d.worker == q.worker && d.node == q.node && d.resource == Some(q.pool.resource)
  }

  /** A node counts for a request exactly when one of its devices of the resource is usable and answers it and
      every other one answers it too; then it offers its usable devices. */
  lemma CompatibleExactly(inv: Inventory, q: Request)
    ensures CompatibleCount(inv, q) > 0 <==>
            && (exists d :: d in inv && OnRequestedNode(q, d) && d.usable)
            && (forall d :: d in inv && OnRequestedNode(q, d) ==> Answers(q, d))
    ensures CompatibleCount(inv, q) > 0 ==> CompatibleCount(inv, q) == |Keep(inv, (d: Device) => OnRequestedNode(q, d) && d.usable)|
  {
    assert forall d :: Covered(q, d) <==> OnRequestedNode(q, d);
    assert forall d :: Suits(q, d) <==> Answers(q, d);
    UsableAreKept(inv, q);
    if d :| d in inv && OnRequestedNode(q, d) && d.usable && forall x :: x in inv && OnRequestedNode(q, x) ==> Answers(q, x) {
      assert Opens(q, d);
    }
  }

  lemma {:induction false} UsableAreKept(inv: Inventory, q: Request)
    ensures UsableCount(inv, q) == |Keep(inv, (d: Device) => OnRequestedNode(q, d) && d.usable)|
    ensures UsableCount(inv, q) > 0 <==> exists d :: d in inv && OnRequestedNode(q, d) && d.usable
  {
    if inv != [] {
      var front, last := inv[..|inv| - 1], inv[|inv| - 1];
      UsableAreKept(front, q);
      assert inv == front + [last];
      KeepAppended(front, last, (d: Device) => OnRequestedNode(q, d) && d.usable);
      assert forall d :: d in inv <==> d in front || d == last;
    }
  }

  lemma {:induction false} KeepAppended(front: Inventory, last: Device, keep: Device -> bool)
    ensures |Keep(front + [last], keep)| == |Keep(front, keep)| + if keep(last) then 1 else 0
  {
    if front == [] {
      assert front + [last] == [last];
    } else {
      KeepAppended(front[1..], last, keep);
      assert (front + [last])[1..] == front[1..] + [last];
    }
  }

  /** Whatever lowers the plan lowers the capacity. */
  lemma CapacityFollowsPlan(inv: Inventory, q: Request, s: seq<Commitment>, d: Deferred, s': seq<Commitment>, d': Deferred)
    requires Below(Plan(inv, q.pool, s', d'), Plan(inv, q.pool, s, d))
    ensures Capacity(inv, q, s', d') <= Capacity(inv, q, s, d)
  {
  }

  /** Monotone, services: a further replica at any position never raises any capacity. */
  lemma CapacityFallsWithServices(inv: Inventory, q: Request, services: seq<Commitment>, deferred: Deferred, i: nat, c: Commitment)
    requires i <= |services|
    ensures Capacity(inv, q, services[..i] + [c] + services[i..], deferred) <= Capacity(inv, q, services, deferred)
  {
    MoreServicesNeverHelp(inv, q.pool, services, deferred, i, c);
    CapacityFollowsPlan(inv, q, services, deferred, services[..i] + [c] + services[i..], deferred);
  }

  lemma EnlargedShare(catalog: Catalog, owners: NodeOwners, r: Reservation, more: nat, slot: Slot)
    requires r.count <= more
    ensures Share(catalog, owners, r, slot) <= Share(catalog, owners, r.(count := more), slot)
  {
  }

  lemma {:induction false} EnlargedCharges(catalog: Catalog, owners: NodeOwners, rs: seq<Reservation>, i: nat,
                                           more: nat, slot: Slot)
    requires i < |rs| && rs[i].count <= more
    ensures Charged(catalog, owners, rs, slot) <= Charged(catalog, owners, rs[i := rs[i].(count := more)], slot)
  {
    var larger, n := rs[i := rs[i].(count := more)], |rs| - 1;
    if i < n {
      assert larger[..n] == rs[..n][i := rs[..n][i].(count := more)] && larger[n] == rs[n];
      EnlargedCharges(catalog, owners, rs[..n], i, more, slot);
    } else {
      assert larger[..n] == rs[..n];
      EnlargedShare(catalog, owners, rs[n], more, slot);
    }
  }

  /** Monotone, reservations: enlarging any deferred reservation never raises any capacity. */
  lemma CapacityFallsWithReservations(inv: Inventory, q: Request, catalog: Catalog, services: seq<Commitment>,
                                      rs: seq<Reservation>, i: nat, more: nat)
    requires PositiveCounts(rs) && i < |rs| && rs[i].count <= more
    ensures PositiveCounts(rs[i := rs[i].(count := more)])
    ensures BatchCapacity(inv, q, catalog, services, rs[i := rs[i].(count := more)])
            <= BatchCapacity(inv, q, catalog, services, rs)
  {
    var larger := rs[i := rs[i].(count := more)];
    var less, more' := Usage(catalog, Owners(inv), rs), Usage(catalog, Owners(inv), larger);
    UsageIsClassified(catalog, Owners(inv), rs);
    UsageIsClassified(catalog, Owners(inv), larger);
    forall slot ensures At(less, slot) <= At(more', slot) {
      EnlargedCharges(catalog, Owners(inv), rs, i, more, slot);
    }
    MoreDeferredNeverHelps(inv, q.pool, services, less, more');
    CapacityFollowsPlan(inv, q, services, less, services, more');
  }

  // ------------------------------------------------------------------------ fail closed

  /** A reservation that might occupy the pool but cannot be located: its session ended or its
      node name is unusable, or its resource is unknown. */
  predicate UnlocatedInPool(inv: Inventory, pool: Pool, catalog: Catalog, r: Reservation) {
    var slot := SlotOf(catalog, Owners(inv), r);
    && slot.Some?
    && match slot.value
       case AnyOfVendor(v) => v == pool.vendor
       case VendorResource(v, res) => v == pool.vendor && res == pool.resource
       case WorkerVendor(w, v) => v == pool.vendor && exists key :: key in CandidateKeys(inv, pool) && key.0 == w
       case _ => false
  }

  lemma {:induction false} MemberIsCharged(catalog: Catalog, owners: NodeOwners, rs: seq<Reservation>, r: Reservation)
    requires r in rs && SlotOf(catalog, owners, r).Some?
    ensures Charged(catalog, owners, rs, SlotOf(catalog, owners, r).value) >= r.count
  {
    if r != rs[|rs| - 1] {
      assert r in rs[..|rs| - 1];
      MemberIsCharged(catalog, owners, rs[..|rs| - 1], r);
    }
  }

  /** Any unlocated usage that concerns the pool forces its capacity to zero on every node. */
  lemma UnlocatedUsageClosesPool(inv: Inventory, q: Request, catalog: Catalog, services: seq<Commitment>,
                                 rs: seq<Reservation>, r: Reservation)
    requires PositiveCounts(rs) && r in rs && UnlocatedInPool(inv, q.pool, catalog, r)
    ensures BatchCapacity(inv, q, catalog, services, rs) == 0
  {
    var deferred := Usage(catalog, Owners(inv), rs);
    UsageIsClassified(catalog, Owners(inv), rs);
    MemberIsCharged(catalog, Owners(inv), rs, r);
    var slot := SlotOf(catalog, Owners(inv), r).value;
    assert At(deferred, slot) >= 1;
    if slot.WorkerVendor? {
      var key :| key in CandidateKeys(inv, q.pool) && key.0 == slot.worker;
      assert UnknownOnWorker(deferred, q.pool, key);
    }
    assert HasUnknownUsage(deferred, q.pool, FreeDevices(inv, q.pool).Keys);
  }

  /** The reservation's place is unknown: its worker has restarted, or it names no valid node. */
  predicate PlaceUnknown(r: Reservation) {
    !r.sameSession || r.node.None? || !ValidNodeName(r.node.value)
  }

  /** The catalogue does not know its runtime profile, or knows it for another vendor. */
  predicate ProfileUnknown(catalog: Catalog, r: Reservation) {
    r.profile.None? || r.profile.value !in catalog || catalog[r.profile.value].vendor != r.vendor
  }

  /** A reservation of the pool's vendor whose place is unknown and which may use the pool's resource forces
      the pool's capacity to zero on every node. */
  lemma LostReservationClosesPool(inv: Inventory, q: Request, catalog: Catalog, services: seq<Commitment>,
                                  rs: seq<Reservation>, r: Reservation)
    requires PositiveCounts(rs) && r in rs && r.vendor == q.pool.vendor && PlaceUnknown(r)
    requires ProfileUnknown(catalog, r) || catalog[r.profile.value].resource == q.pool.resource
    ensures BatchCapacity(inv, q, catalog, services, rs) == 0
  {
    UnlocatedUsageClosesPool(inv, q, catalog, services, rs, r);
  }

  lemma {:induction false} ReportedNodeIsNamed(inv: Inventory, node: string)
    requires WorkersOn(inv, node) != {}
    ensures node in ReportedNodes(inv)
  {
    if inv[|inv| - 1].node != node {
      ReportedNodeIsNamed(inv[..|inv| - 1], node);
    }
  }

  /** A node has an owner exactly when one worker alone reports it. */
  lemma OwnedExactly(inv: Inventory, r: Reservation, worker: string)
    requires r.node.Some?
    ensures OwnerOf(Owners(inv), r) == Some(worker) <==> WorkersOn(inv, r.node.value) == {worker}
    ensures OwnerOf(Owners(inv), r).None? <==> |WorkersOn(inv, r.node.value)| != 1
  {
    var workers := WorkersOn(inv, r.node.value);
    if |workers| == 1 {
      var w := TheMember(workers);
      assert |workers - {w}| == 0 && workers == {w};
      ReportedNodeIsNamed(inv, r.node.value);
    }
  }

  /** A reservation of unknown profile on a known node may use any resource of its vendor there, and closes
      every pool of that vendor with a device of the node's worker. */
  lemma UnknownProfileClosesWorker(inv: Inventory, q: Request, catalog: Catalog, services: seq<Commitment>,
                                   rs: seq<Reservation>, r: Reservation, worker: string, key: NodeKey)
    requires PositiveCounts(rs) && r in rs && r.vendor == q.pool.vendor && !PlaceUnknown(r) && ProfileUnknown(catalog, r)
    requires WorkersOn(inv, r.node.value) == {worker} && key in CandidateKeys(inv, q.pool) && key.0 == worker
    ensures BatchCapacity(inv, q, catalog, services, rs) == 0
  {
    OwnedExactly(inv, r, worker);
    UnlocatedUsageClosesPool(inv, q, catalog, services, rs, r);
  }

  lemma NodeSlotExactly(catalog: Catalog, owners: NodeOwners, r: Reservation, key: NodeKey, vendor: Vendor, resource: string)
    requires owners.Some?
    ensures SlotOf(catalog, owners, r) == Some(AtNode(key, vendor, resource)) <==>
            && !PlaceUnknown(r) && !ProfileUnknown(catalog, r) && r.node == Some(key.1) && OwnerOf(owners, r) == Some(key.0)
            && vendor == r.vendor && resource == catalog[r.profile.value].resource
    ensures SlotOf(catalog, owners, r).None? <==> !PlaceUnknown(r) && OwnerOf(owners, r).None?
  {
  }

  /** A reservation is charged to a node exactly when its session, its node, the node's only worker and its
      profile are all known; it is left aside exactly when its known node has no single worker. */
  lemma ChargedToNodeExactly(inv: Inventory, catalog: Catalog, r: Reservation, key: NodeKey, vendor: Vendor, resource: string)
    ensures SlotOf(catalog, Owners(inv), r) == Some(AtNode(key, vendor, resource)) <==>
            && !PlaceUnknown(r) && !ProfileUnknown(catalog, r) && r.node == Some(key.1) && WorkersOn(inv, key.1) == {key.0}
            && vendor == r.vendor && resource == catalog[r.profile.value].resource
    ensures SlotOf(catalog, Owners(inv), r).None? <==> !PlaceUnknown(r) && |WorkersOn(inv, r.node.value)| != 1
  {
    NodeSlotExactly(catalog, Owners(inv), r, key, vendor, resource);
    if r.node.Some? {
      OwnedExactly(inv, r, key.0);
    }
  }

  /** A replica whose vendor, resource or placement is unknown closes the pool as well. */
  predicate UnplacedInPool(inv: Inventory, pool: Pool, c: Commitment) {
    || c.vendor.None?
    || (c.vendor.value == pool.vendor &&
        (|| c.resource.None?
         || (c.resource.value == pool.resource &&
             (|| c.eligibleNodes == {}
              || (c.assignedNode.None? && exists key :: key in CandidateKeys(inv, pool) && key.1 in c.eligibleNodes)))))
  }

  lemma {:induction false} UnplacedReplicaStopsCharging(inv: Inventory, pool: Pool, a: Remaining, cs: seq<Commitment>, c: Commitment)
    requires c in cs && a.Keys == CandidateKeys(inv, pool) && UnplacedInPool(inv, pool, c)
    ensures ChargeAll(a, cs, pool).None?
  {
    if c != cs[0] && Charge(a, cs[0], pool).Some? {
      ChargeOnlyTakes(a, cs[0], pool);
      assert c in cs[1..];
      UnplacedReplicaStopsCharging(inv, pool, Charge(a, cs[0], pool).value, cs[1..], c);
    }
  }

  lemma UnplacedReplicaClosesPool(inv: Inventory, q: Request, services: seq<Commitment>, deferred: Deferred, c: Commitment)
    requires c in services && UnplacedInPool(inv, q.pool, c)
    ensures Capacity(inv, q, services, deferred) == 0
  {
    var free := FreeDevices(inv, q.pool);
    if DeferredFits(deferred, q.pool, free) {
      UnplacedReplicaStopsCharging(inv, q.pool, AfterDeferred(deferred, q.pool, free), services, c);
    }
  }

  /** As coded, closing reaches further than the node: a located reservation on a node that has no
      device of the planned model closes that model's pool everywhere, even though the reservation
      takes nothing from it. */
  lemma ReservationOnOtherModelClosesPool(inv: Inventory, q: Request, catalog: Catalog, services: seq<Commitment>,
                                          rs: seq<Reservation>, r: Reservation, key: NodeKey)
    requires PositiveCounts(rs) && r in rs
    requires SlotOf(catalog, Owners(inv), r) == Some(NodeSlot(key, q.pool)) && key !in CandidateKeys(inv, q.pool)
    ensures BatchCapacity(inv, q, catalog, services, rs) == 0
  {
    var deferred := Usage(catalog, Owners(inv), rs);
    UsageIsClassified(catalog, Owners(inv), rs);
    MemberIsCharged(catalog, Owners(inv), rs, r);
    assert At(deferred, NodeSlot(key, q.pool)) >= 1;
    assert NodeSlot(key, q.pool) in deferred && Relevant(NodeSlot(key, q.pool), q.pool);
  }

  // ------------------------------------------------------------------ admit, then replan

  /** The reservation `place` inserts for an admitted request of `k` accelerators. */
  function Placed(q: Request, k: nat): Reservation {
    Reservation(q.worker, true, Some(q.node), q.pool.vendor, Some(q.profile), k)
  }

  /** Node names enter the inventory only after validation. */
  ghost predicate NamesValidated(inv: Inventory) {
    forall d :: d in inv ==> ValidNodeName(d.node)
  }

  lemma ChargeShift(r: Remaining, c: Commitment, pool: Pool, key: NodeKey, k: nat)
    requires key in r && Charge(r, c, pool).Some? && 1 <= k <= Charge(r, c, pool).value[key]
    ensures k <= r[key]
    ensures Charge(r[key := r[key] - k], c, pool)
            == Some(Charge(r, c, pool).value[key := Charge(r, c, pool).value[key] - k])
  {
    ChargeOnlyTakes(r, c, pool);
    var less := r[key := r[key] - k];
    if c.assignedNode.Some? {
      var keys := AssignedKeys(r, c.assignedNode.value);
      assert AssignedKeys(less, c.assignedNode.value) == keys;
      if |keys| == 1 {
        ChargeNodeShift(r, c, pool, keys, key, k);
      }
    }
  }

  lemma ChargeNodeShift(r: Remaining, c: Commitment, pool: Pool, keys: set<NodeKey>, key: NodeKey, k: nat)
    requires key in r && |keys| == 1 && keys <= r.Keys && k <= r[key]
    ensures var charged := ChargeNode(r, c, pool, keys);
            charged.Some? && 1 <= k <= charged.value[key] ==>
              ChargeNode(r[key := r[key] - k], c, pool, keys) == Some(charged.value[key := charged.value[key] - k])
  {
    var charged := ChargeNode(r, c, pool, keys);
    if charged.Some? && 1 <= k <= charged.value[key] {
      assert ChargeNode(r[key := r[key] - k], c, pool, keys).value == charged.value[key := charged.value[key] - k];
    }
  }

  lemma {:induction false} ChargeAllShift(r: Remaining, cs: seq<Commitment>, pool: Pool, key: NodeKey, k: nat)
    requires key in r && ChargeAll(r, cs, pool).Some? && key in ChargeAll(r, cs, pool).value
    requires 1 <= k <= ChargeAll(r, cs, pool).value[key]
    ensures k <= r[key]
    ensures ChargeAll(r[key := r[key] - k], cs, pool)
            == Some(ChargeAll(r, cs, pool).value[key := ChargeAll(r, cs, pool).value[key] - k])
  {
    if cs != [] {
      var next := Charge(r, cs[0], pool).value;
      ChargeOnlyTakes(r, cs[0], pool);
      ChargeAllShift(next, cs[1..], pool, key, k);
      ChargeShift(r, cs[0], pool, key, k);
    }
  }

  lemma UnknownUsageIgnoresNodes(deferred: Deferred, pool: Pool, keys: set<NodeKey>, slot: Slot, k: nat)
    requires slot.AtNode?
    ensures HasUnknownUsage(Bump(deferred, slot, k), pool, keys) == HasUnknownUsage(deferred, pool, keys)
  {
    var more := Bump(deferred, slot, k);
    forall key ensures UnknownOnWorker(more, pool, key) == UnknownOnWorker(deferred, pool, key) {
    }
  }

  lemma DeferredAfterPlacement(deferred: Deferred, pool: Pool, free: Remaining, key: NodeKey, k: nat)
    requires DeferredFits(deferred, pool, free) && key in free && k <= AfterDeferred(deferred, pool, free)[key]
    ensures var more := Bump(deferred, NodeSlot(key, pool), k);
            var after := AfterDeferred(deferred, pool, free);
            DeferredFits(more, pool, free) && AfterDeferred(more, pool, free) == after[key := after[key] - k]
  {
  }

  lemma PlannableAfterPlacement(inv: Inventory, pool: Pool, services: seq<Commitment>, deferred: Deferred, key: NodeKey, k: nat)
    requires Plan(inv, pool, services, deferred).Some? && key in Plan(inv, pool, services, deferred).value
    requires k <= Plan(inv, pool, services, deferred).value[key]
    ensures key in FreeDevices(inv, pool) && Plannable(inv, pool, Bump(deferred, NodeSlot(key, pool), k))
    ensures var after := AfterDeferred(deferred, pool, FreeDevices(inv, pool));
            && k <= after[key]
            && AfterDeferred(Bump(deferred, NodeSlot(key, pool), k), pool, FreeDevices(inv, pool)) == after[key := after[key] - k]
  {
    var free := FreeDevices(inv, pool);
    ChargeAllOnlyTakes(AfterDeferred(deferred, pool, free), services, pool);
    UnknownUsageIgnoresNodes(deferred, pool, free.Keys, NodeSlot(key, pool), k);
    DeferredAfterPlacement(deferred, pool, free, key, k);
  }

  /** A located reservation of `k` more, within what the plan leaves, lowers that node by exactly `k`. */
  lemma PlanAfterPlacement(inv: Inventory, pool: Pool, services: seq<Commitment>, deferred: Deferred, key: NodeKey, k: nat)
    requires Plan(inv, pool, services, deferred).Some? && key in Plan(inv, pool, services, deferred).value
    requires 1 <= k <= Plan(inv, pool, services, deferred).value[key]
    ensures var left := Plan(inv, pool, services, deferred).value;
            Plan(inv, pool, services, Bump(deferred, NodeSlot(key, pool), k))
            == Some(left[key := left[key] - k])
  {
    PlannableAfterPlacement(inv, pool, services, deferred, key, k);
    ChargeAllShift(AfterDeferred(deferred, pool, FreeDevices(inv, pool)), services, pool, key, k);
  }

  lemma CandidateOwner(inv: Inventory, pool: Pool, key: NodeKey)
    requires key in CandidateKeys(inv, pool) && !SharedNode(inv, pool)
    ensures key.1 in Owners(inv).value && Owners(inv).value[key.1] == key.0
    ensures exists d :: d in inv && d.node == key.1
  {
    assert OneOwner(inv, key);
    CandidateDevice(inv, pool, key);
    var d :| d in inv && InPool(d, pool) && KeyOf(d) == key;
    NodeIsNamed(inv, d);
    ReportingWorker(inv, d);
  }

  /** The reservation of an admitted request is charged to its own node and pool. */
  lemma PlacedAtItsNode(inv: Inventory, q: Request, catalog: Catalog, services: seq<Commitment>, deferred: Deferred, k: nat)
    requires NamesValidated(inv) && ProfileFits(catalog, q) && Capacity(inv, q, services, deferred) > 0
    ensures SlotOf(catalog, Owners(inv), Placed(q, k)) == Some(NodeSlot(RequestKey(q), q.pool))
  {
    PositiveCapacity(inv, q, services, deferred);
    CandidateOwner(inv, q.pool, RequestKey(q));
  }

  lemma UsageAfterPlacement(catalog: Catalog, owners: NodeOwners, rs: seq<Reservation>, r: Reservation, slot: Slot)
    requires PositiveCounts(rs) && r.count >= 1 && SlotOf(catalog, owners, r) == Some(slot)
    ensures PositiveCounts(rs + [r])
    ensures var before := Usage(catalog, owners, rs);
            Usage(catalog, owners, rs + [r]) == Bump(before, slot, r.count)
  {
  }

  /** The capacity of any request of the same pool after a charge of `k` on one of its nodes. */
  lemma CapacityAfterPlacement(inv: Inventory, q: Request, services: seq<Commitment>, deferred: Deferred, key: NodeKey, k: nat)
    requires Plan(inv, q.pool, services, deferred).Some? && key in Plan(inv, q.pool, services, deferred).value
    requires 1 <= k <= Plan(inv, q.pool, services, deferred).value[key]
    ensures Capacity(inv, q, services, Bump(deferred, NodeSlot(key, q.pool), k))
            == if RequestKey(q) == key then Max(0, Capacity(inv, q, services, deferred) - k) else Capacity(inv, q, services, deferred)
  {
    PlanAfterPlacement(inv, q.pool, services, deferred, key, k);
  }

  /** What an admitted placement of `k` changes in the planner's input. */
  lemma AdmittedPlacement(inv: Inventory, q: Request, catalog: Catalog, services: seq<Commitment>, rs: seq<Reservation>, k: nat)
    requires PositiveCounts(rs) && NamesValidated(inv)
    requires 1 <= k <= BatchCapacity(inv, q, catalog, services, rs)
    ensures PositiveCounts(rs + [Placed(q, k)])
    ensures var deferred, slot := Usage(catalog, Owners(inv), rs), NodeSlot(RequestKey(q), q.pool);
            Usage(catalog, Owners(inv), rs + [Placed(q, k)]) == Bump(deferred, slot, k)
    ensures var plan := Plan(inv, q.pool, services, Usage(catalog, Owners(inv), rs));
            plan.Some? && RequestKey(q) in plan.value && k <= plan.value[RequestKey(q)]
  {
    var deferred := Usage(catalog, Owners(inv), rs);
    PlacedAtItsNode(inv, q, catalog, services, deferred, k);
    UsageAfterPlacement(catalog, Owners(inv), rs, Placed(q, k), NodeSlot(RequestKey(q), q.pool));
    PositiveCapacity(inv, q, services, deferred);
  }

  /** Admit-then-replan is exact: placing `k` of a computed capacity leaves exactly the rest to every
      request for that node's pool, and leaves the other nodes of the pool alone. */
  lemma AdmitThenReplan(inv: Inventory, q: Request, other: Request, catalog: Catalog, services: seq<Commitment>,
                        rs: seq<Reservation>, k: nat)
    requires PositiveCounts(rs) && NamesValidated(inv)
    requires 1 <= k <= BatchCapacity(inv, q, catalog, services, rs)
    requires other.pool == q.pool
    ensures PositiveCounts(rs + [Placed(q, k)])
    ensures BatchCapacity(inv, other, catalog, services, rs + [Placed(q, k)])
            == Max(0, BatchCapacity(inv, other, catalog, services, rs) - if RequestKey(other) == RequestKey(q) then k else 0)
  {
    AdmittedPlacement(inv, q, catalog, services, rs, k);
    var deferred, slot := Usage(catalog, Owners(inv), rs), NodeSlot(RequestKey(q), q.pool);
    CapacityAfterPlacement(inv, other, services, deferred, RequestKey(q), k);
  }

  /** As coded, a placement also closes, everywhere, every other model sold under the same resource. */
  lemma PlacementClosesOtherModels(inv: Inventory, q: Request, other: Request, catalog: Catalog, services: seq<Commitment>,
                                   rs: seq<Reservation>, k: nat)
    requires PositiveCounts(rs) && NamesValidated(inv)
    requires 1 <= k <= BatchCapacity(inv, q, catalog, services, rs)
    requires other.pool.vendor == q.pool.vendor && other.pool.resource == q.pool.resource && other.pool.model != q.pool.model
    ensures PositiveCounts(rs + [Placed(q, k)])
    ensures BatchCapacity(inv, other, catalog, services, rs + [Placed(q, k)]) == 0
  {
    var r := Placed(q, k);
    var longer := rs + [r];
    assert SlotOf(catalog, Owners(inv), r) == Some(NodeSlot(RequestKey(q), other.pool)) && RequestKey(q) !in CandidateKeys(inv, other.pool) by {
      var deferred := Usage(catalog, Owners(inv), rs);
      PlacedAtItsNode(inv, q, catalog, services, deferred, k);
      PositiveCapacity(inv, q, services, deferred);
      NoOtherModelOnNode(inv, q, other.pool);
    }
    assert longer[|rs|] == r;
    ReservationOnOtherModelClosesPool(inv, other, catalog, services, longer, r, RequestKey(q));
  }

  /** A request that exactly one kind of device answers. */
  function RequestFor(d: Device, profile: Profile): Request
    requires d.resource.Some?
  {
    Request(d.worker, d.node, Pool(d.vendor, d.model, d.resource.value), d.kind, profile, d.memoryMb, {}, {})
  }

  /** Two nodes with one device each: the same resource, different models. */
  predicate TwoModels(a: Device, b: Device, profile: Profile) {
    && a.worker != b.worker && a.node != b.node && a.model != b.model && a.vendor == b.vendor && a.kind == b.kind
    && a.resource == b.resource && a.resource.Some? && a.usable && b.usable && profile in a.profiles && profile in b.profiles
    && ValidNodeName(a.node) && ValidNodeName(b.node)
  }

  function CatalogFor(d: Device, profile: Profile): Catalog
    requires d.resource.Some?
  {
    map[profile := ProfileSpec(d.vendor, d.kind, d.resource.value)]
  }

  lemma CountsOfTwo(x: Device, y: Device, profile: Profile, d: Device)
    requires TwoModels(x, y, profile) && (d == x || d == y)
    ensures var inv, q := [x, y], RequestFor(d, profile);
            && CandidateKeys(inv, q.pool) == {RequestKey(q)} && PhysicalCount(inv, RequestKey(q), q.pool) == 1
            && WorkersOn(inv, d.node) == {d.worker} && UsableCount(inv, q) == 1
  {
    var inv, one, q := [x, y], [x], RequestFor(d, profile);
    assert inv[..|inv| - 1] == one && one[..|one| - 1] == [];
    assert CandidateKeys(one, q.pool) == if d == x then {RequestKey(q)} else {};
    assert PhysicalCount(one, RequestKey(q), q.pool) == UsableCount(one, q) == if d == x then 1 else 0;
    assert WorkersOn(one, d.node) == if d == x then {d.worker} else {};
  }

  /** With nothing in use, a pool offers all of its compatible devices. */
  lemma IdlePoolOffersAll(inv: Inventory, q: Request)
    requires !SharedNode(inv, q.pool)
    ensures Capacity(inv, q, [], map[]) == CompatibleCount(inv, q)
  {
    var free := FreeDevices(inv, q.pool);
    assert AfterDeferred(map[], q.pool, free) == free;
    CompatibleIsPhysical(inv, q);
  }

  lemma SoleDevice(inv: Inventory, q: Request, d: Device)
    requires d in inv && Opens(q, d) && (forall e :: e in inv && Covered(q, e) ==> e == d) && Suits(q, d)
    requires CandidateKeys(inv, q.pool) == {RequestKey(q)} && WorkersOn(inv, q.node) == {q.worker} && UsableCount(inv, q) == 1
    ensures Capacity(inv, q, [], map[]) == 1
  {
    assert OneOwner(inv, RequestKey(q));
    IdlePoolOffersAll(inv, q);
  }

  lemma SoleDeviceIsFree(x: Device, y: Device, profile: Profile, d: Device)
    requires TwoModels(x, y, profile) && (d == x || d == y)
    ensures Capacity([x, y], RequestFor(d, profile), [], map[]) == 1
  {
    CountsOfTwo(x, y, profile, d);
    SoleDevice([x, y], RequestFor(d, profile), d);
  }

  /** Both models have a free device until one is placed; then the other model's capacity drops to zero. */
  lemma OtherModelLosesItsCapacity(x: Device, y: Device, profile: Profile)
    requires TwoModels(x, y, profile)
    ensures var inv, catalog, qx, qy := [x, y], CatalogFor(x, profile), RequestFor(x, profile), RequestFor(y, profile);
            && BatchCapacity(inv, qx, catalog, [], []) == 1 && BatchCapacity(inv, qy, catalog, [], []) == 1
            && BatchCapacity(inv, qy, catalog, [], [Placed(qx, 1)]) == 0
  {
    var inv, catalog, qx, qy := [x, y], CatalogFor(x, profile), RequestFor(x, profile), RequestFor(y, profile);
    SoleDeviceIsFree(x, y, profile, x);
    SoleDeviceIsFree(x, y, profile, y);
    assert Usage(catalog, Owners(inv), []) == map[];
    PlacementClosesOtherModels(inv, qx, qy, catalog, [], [], 1);
    assert [] + [Placed(qx, 1)] == [Placed(qx, 1)];
  }

  const CUDA: Profile := "cuda"
  const A100 := Device("w1", "a", Nvidia, Gpu, "A100", Some("gpu"), true, 40960, {CUDA}, {})
  const H100 := Device("w2", "b", Nvidia, Gpu, "H100", Some("gpu"), true, 81920, {CUDA}, {})

  lemma H100LosesItsCapacity()
    ensures var catalog, qa, qh := CatalogFor(A100, CUDA), RequestFor(A100, CUDA), RequestFor(H100, CUDA);
            && BatchCapacity([A100, H100], qh, catalog, [], []) == 1
            && BatchCapacity([A100, H100], qh, catalog, [], [Placed(qa, 1)]) == 0
  {
    OtherModelLosesItsCapacity(A100, H100, CUDA);
  }

  lemma OtherResourceLeavesPlan(inv: Inventory, pool: Pool, services: seq<Commitment>, deferred: Deferred, slot: Slot, k: nat)
    requires slot.AtNode? && !Relevant(slot, pool)
    ensures Plan(inv, pool, services, Bump(deferred, slot, k)) == Plan(inv, pool, services, deferred)
  {
    var free, more := FreeDevices(inv, pool), Bump(deferred, slot, k);
    UnknownUsageIgnoresNodes(deferred, pool, free.Keys, slot, k);
    if DeferredFits(deferred, pool, free) {
      assert DeferredFits(more, pool, free);
      assert AfterDeferred(more, pool, free) == AfterDeferred(deferred, pool, free);
    }
  }

  /** What a placement does to every other pool: nothing, or, exactly for another model of the same
      resource, it takes all of it. */
  lemma OtherPoolsAfterPlacement(inv: Inventory, q: Request, other: Request, catalog: Catalog, services: seq<Commitment>,
                                 rs: seq<Reservation>, k: nat)
    requires PositiveCounts(rs) && NamesValidated(inv) && other.pool != q.pool
    requires 1 <= k <= BatchCapacity(inv, q, catalog, services, rs)
    ensures BatchCapacity(inv, other, catalog, services, rs + [Placed(q, k)])
            == if other.pool.vendor == q.pool.vendor && other.pool.resource == q.pool.resource then 0
               else BatchCapacity(inv, other, catalog, services, rs)
  {
    if other.pool.vendor == q.pool.vendor && other.pool.resource == q.pool.resource {
      PlacementClosesOtherModels(inv, q, other, catalog, services, rs, k);
    } else {
      AdmittedPlacement(inv, q, catalog, services, rs, k);
      OtherResourceLeavesPlan(inv, other.pool, services, Usage(catalog, Owners(inv), rs), NodeSlot(RequestKey(q), q.pool), k);
    }
  }

  lemma NoOtherModelOnNode(inv: Inventory, q: Request, pool: Pool)
    requires Homogeneous(inv, q) && pool.resource == q.pool.resource && pool.model != q.pool.model
    ensures RequestKey(q) !in CandidateKeys(inv, pool)
  {
    CandidateDevice(inv, pool, RequestKey(q));
    forall d | d in inv && Covered(q, d) ensures d.model != pool.model {
      assert Suits(q, d);
    }
  }

  // ------------------------------------------------------------- no overcommitment, over runs

  /** Accelerators that replicas of the pool's model hold on a node. */
  function ServiceUse(services: seq<Commitment>, node: string, pool: Pool): nat {
    if services == [] then 0
    else (if HoldsOn(services[0], node, pool) then services[0].count else 0) + ServiceUse(services[1..], node, pool)
  }

  predicate HoldsOn(c: Commitment, node: string, pool: Pool) {
    && c.vendor == Some(pool.vendor) && c.resource == Some(pool.resource) && c.model == Some(pool.model)
    && c.assignedNode == Some(node) && node in c.eligibleNodes
  }

  lemma ChargeTakesItsGang(r: Remaining, c: Commitment, pool: Pool, key: NodeKey)
    requires key in r && Charge(r, c, pool).Some? && Charge(r, c, pool).value[key] > 0
    ensures r[key] == Charge(r, c, pool).value[key] + (if HoldsOn(c, key.1, pool) then c.count else 0)
  {
    if c.assignedNode.Some? && c.assignedNode.value == key.1 {
      assert key in AssignedKeys(r, key.1);
    }
  }

  /** While a node has anything left, what it lost to replicas is exactly their gangs. */
  lemma {:induction false} ReplicasTakeTheirGangs(r: Remaining, cs: seq<Commitment>, pool: Pool, key: NodeKey)
    requires key in r && ChargeAll(r, cs, pool).Some? && key in ChargeAll(r, cs, pool).value
    requires ChargeAll(r, cs, pool).value[key] > 0
    ensures r[key] == ChargeAll(r, cs, pool).value[key] + ServiceUse(cs, key.1, pool)
  {
    if cs != [] {
      var next := Charge(r, cs[0], pool).value;
      ChargeOnlyTakes(r, cs[0], pool);
      ChargeAllOnlyTakes(next, cs[1..], pool);
      ReplicasTakeTheirGangs(next, cs[1..], pool, key);
      ChargeTakesItsGang(r, cs[0], pool, key);
    }
  }

  /** Deferred plus service usage of the request's pool on its node. */
  ghost function NodeUse(q: Request, services: seq<Commitment>, deferred: Deferred): nat {
    At(deferred, NodeSlot(RequestKey(q), q.pool)) + ServiceUse(services, q.node, q.pool)
  }

  /** Capacity is the compatible devices less everything in use on the node. */
  lemma CapacityIsExact(inv: Inventory, q: Request, services: seq<Commitment>, deferred: Deferred)
    requires Capacity(inv, q, services, deferred) > 0
    ensures NodeUse(q, services, deferred) + Capacity(inv, q, services, deferred) == CompatibleCount(inv, q)
  {
    PositiveCapacity(inv, q, services, deferred);
    ReplicasTakeTheirGangs(AfterDeferred(deferred, q.pool, FreeDevices(inv, q.pool)), services, q.pool, RequestKey(q));
  }

  /** Two homogeneous requests on the same slot see the same devices. */
  lemma SameSlotSameDevices(inv: Inventory, a: Request, b: Request)
    requires Homogeneous(inv, a) && Homogeneous(inv, b)
    requires NodeSlot(RequestKey(a), a.pool) == NodeSlot(RequestKey(b), b.pool)
    ensures a.pool == b.pool && CompatibleCount(inv, a) == CompatibleCount(inv, b)
  {
    var d :| d in inv && Opens(a, d);
    assert Suits(b, d);
    SameCoverSameCount(inv, a, b);
  }

  lemma {:induction false} SameCoverSameCount(inv: Inventory, a: Request, b: Request)
    requires RequestKey(a) == RequestKey(b) && a.pool == b.pool
    ensures UsableCount(inv, a) == UsableCount(inv, b)
  {
    if inv != [] {
      SameCoverSameCount(inv[..|inv| - 1], a, b);
    }
  }

  /** A run of placements, each within the capacity computed just before it. */
  ghost predicate Admitted(inv: Inventory, catalog: Catalog, services: seq<Commitment>, rs: seq<Reservation>,
                           run: seq<(Request, nat)>)
    decreases |run|
  {
    run != [] ==>
      && 1 <= run[0].1 <= BatchCapacity(inv, run[0].0, catalog, services, rs)
      && Admitted(inv, catalog, services, rs + [Placed(run[0].0, run[0].1)], run[1..])
  }

  ghost function After(rs: seq<Reservation>, run: seq<(Request, nat)>): seq<Reservation>
    decreases |run|
  {
    if run == [] then rs else After(rs + [Placed(run[0].0, run[0].1)], run[1..])
  }

  /** One admitted placement keeps every slot's usage within bound, and its own slot's usage becomes exact. */
  lemma UseAfterPlacement(inv: Inventory, q: Request, other: Request, catalog: Catalog, services: seq<Commitment>,
                          rs: seq<Reservation>, k: nat)
    requires PositiveCounts(rs) && NamesValidated(inv)
    requires 1 <= k <= BatchCapacity(inv, q, catalog, services, rs)
    ensures PositiveCounts(rs + [Placed(q, k)]) && Homogeneous(inv, q)
    ensures NodeUse(q, services, Usage(catalog, Owners(inv), rs + [Placed(q, k)])) <= CompatibleCount(inv, q)
    ensures NodeSlot(RequestKey(other), other.pool) != NodeSlot(RequestKey(q), q.pool) ==>
      NodeUse(other, services, Usage(catalog, Owners(inv), rs + [Placed(q, k)]))
      == NodeUse(other, services, Usage(catalog, Owners(inv), rs))
  {
    var deferred := Usage(catalog, Owners(inv), rs);
    PlacedAtItsNode(inv, q, catalog, services, deferred, k);
    UsageAfterPlacement(catalog, Owners(inv), rs, Placed(q, k), NodeSlot(RequestKey(q), q.pool));
    PositiveCapacity(inv, q, services, deferred);
    CapacityIsExact(inv, q, services, deferred);
  }

  /** Deferred plus service usage of the request's pool is within the node's compatible devices. */
  ghost predicate Fits(inv: Inventory, q: Request, catalog: Catalog, services: seq<Commitment>, rs: seq<Reservation>) {
    Homogeneous(inv, q) && NodeUse(q, services, Usage(catalog, Owners(inv), rs)) <= CompatibleCount(inv, q)
  }

  lemma PlacementKeepsFit(inv: Inventory, q: Request, other: Request, catalog: Catalog, services: seq<Commitment>,
                          rs: seq<Reservation>, k: nat)
    requires PositiveCounts(rs) && NamesValidated(inv)
    requires 1 <= k <= BatchCapacity(inv, q, catalog, services, rs)
    requires Fits(inv, other, catalog, services, rs)
    ensures Fits(inv, other, catalog, services, rs + [Placed(q, k)])
  {
    UseAfterPlacement(inv, q, other, catalog, services, rs, k);
    if NodeSlot(RequestKey(other), other.pool) == NodeSlot(RequestKey(q), q.pool) {
      SameSlotSameDevices(inv, other, q);
    }
  }

  lemma {:induction false} RunKeepsFit(inv: Inventory, q: Request, catalog: Catalog, services: seq<Commitment>,
                                       rs: seq<Reservation>, run: seq<(Request, nat)>)
    requires PositiveCounts(rs) && NamesValidated(inv) && Admitted(inv, catalog, services, rs, run)
    requires Fits(inv, q, catalog, services, rs)
    ensures Fits(inv, q, catalog, services, After(rs, run))
    decreases |run|
  {
    if run != [] {
      PlacementKeepsFit(inv, run[0].0, q, catalog, services, rs, run[0].1);
      RunKeepsFit(inv, q, catalog, services, rs + [Placed(run[0].0, run[0].1)], run[1..]);
    }
  }

  /** Over any run of admitted placements, on every node placed on, deferred plus service usage stays
      within the node's compatible devices. */
  lemma {:induction false} RunsNeverOvercommit(inv: Inventory, catalog: Catalog, services: seq<Commitment>,
                                               rs: seq<Reservation>, run: seq<(Request, nat)>, i: nat)
    requires PositiveCounts(rs) && NamesValidated(inv) && Admitted(inv, catalog, services, rs, run) && i < |run|
    ensures Fits(inv, run[i].0, catalog, services, After(rs, run))
    decreases |run|
  {
    var next := rs + [Placed(run[0].0, run[0].1)];
    if i == 0 {
      UseAfterPlacement(inv, run[0].0, run[0].0, catalog, services, rs, run[0].1);
      RunKeepsFit(inv, run[0].0, catalog, services, next, run[1..]);
    } else {
      RunsNeverOvercommit(inv, catalog, services, next, run[1..], i - 1);
    }
  }
}
