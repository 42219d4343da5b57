/** Capacity and quota of a service candidate: how many gangs of accelerators its replicas can get. */
module ServiceCapacity {
  import opened Accelerators
  import opened Arithmetic
  import opened Common
  import opened PoolCapacity
  import opened PoolPlanner
  import Q = Quotas

  type Availability = map<NodeKey, nat>

  // ------------------------------------------------------------- availability per node

  /** The candidate's request, put to one node. */
  function On(q: Request, key: NodeKey): Request {
    q.(worker := key.0, node := key.1)
  }

  function CompatibleKeys(inv: Inventory, q: Request): set<NodeKey> {
    set key | key in CandidateKeys(inv, q.pool) && Homogeneous(inv, On(q, key))
  }

  /** Node names that two compatible workers report are dropped. */
  function Unambiguous(keys: set<NodeKey>): set<NodeKey> {
    set key | key in keys && forall other :: other in keys && other.1 == key.1 ==> other == key
  }

  method AvailableByNode(inv: Inventory, q: Request, services: seq<Commitment>, deferred: Deferred)
    returns (available: Availability)
    requires forall slot :: slot in deferred ==> deferred[slot] >= 1
    ensures available.Keys == Unambiguous(CompatibleKeys(inv, q))
    ensures forall key :: key in available ==> available[key] == Capacity(inv, On(q, key), services, deferred)
  {
    var keys := Unambiguous(CompatibleKeys(inv, q));
    var plan := PlanRemaining(inv, q.pool, services, deferred);
    available := map[];
    var todo := keys;
    while todo != {}
      invariant todo <= keys && available.Keys == keys - todo
      invariant forall key :: key in available ==> available[key] == Capacity(inv, On(q, key), services, deferred)
      decreases todo
    {
      var key :| key in todo;
      var used := PhysicalCount(inv, key, q.pool) - RemainingAt(plan, key);
      CompatibleIsPhysical(inv, On(q, key));
      available := available[key := Max(0, UsableCount(inv, On(q, key)) - used)];
      todo := todo - {key};
    }
  }

  /** A compatible node is offered exactly when no other worker is compatible on a node of that name. */
  lemma OfferedExactly(inv: Inventory, q: Request, key: NodeKey)
    ensures key in Unambiguous(CompatibleKeys(inv, q)) <==>
            key in CompatibleKeys(inv, q) && forall worker :: (worker, key.1) in CompatibleKeys(inv, q) ==> worker == key.0
  {
    if key in CompatibleKeys(inv, q) && forall worker :: (worker, key.1) in CompatibleKeys(inv, q) ==> worker == key.0 {
      forall other | other in CompatibleKeys(inv, q) && other.1 == key.1 ensures other == key {
        assert (other.0, key.1) == other;
      }
    }
  }

  // ------------------------------------------------------------------------- gang slots

  function GangsOf(n: nat, c: int): nat
    requires c >= 1
  {
    n / c
  }

  /** Gangs of `c` that fit on single nodes. */
  ghost function Slots(available: Availability, c: int): nat
    requires c >= 1
  {
    if available == map[] then 0
    else
      var key := Pick(available);
      GangsOf(available[key], c) + Slots(available - {key}, c)
  }

  lemma {:induction false} SlotsWithout(available: Availability, key: NodeKey, c: int)
    requires c >= 1 && key in available
    ensures Slots(available, c) == GangsOf(available[key], c) + Slots(available - {key}, c)
    decreases |available|
  {
    var other := Pick(available);
    if other != key {
      SlotsWithout(available - {other}, key, c);
      SlotsWithout(available - {key}, other, c);
      assert available - {other} - {key} == available - {key} - {other};
    }
  }

  method ReplicaSlots(available: Availability, c: int) returns (slots: nat)
    requires c >= 1
    ensures slots == Slots(available, c)
  {
    slots := 0;
    var left := available;
    while left != map[]
      invariant slots + Slots(left, c) == Slots(available, c)
      decreases |left|
    {
      var key: NodeKey :| key in left;
      SlotsWithout(left, key, c);
      slots := slots + GangsOf(left[key], c);
      left := left - {key};
    }
  }

  /** Taking one gang from a node with room for it costs exactly one slot. */
  lemma GangTakesOneSlot(available: Availability, key: NodeKey, c: int)
    requires c >= 1 && key in available && available[key] >= c
    ensures Slots(available[key := available[key] - c], c) == Slots(available, c) - 1
  {
    var less := available[key := available[key] - c];
    SlotsWithout(available, key, c);
    SlotsWithout(less, key, c);
    assert less - {key} == available - {key};
    OneFewer(available[key], c);
  }

  // --------------------------------------------------------------------------- packing

  function OnNode(placement: seq<NodeKey>, key: NodeKey): nat {
    multiset(placement)[key]
  }

  /** One node for each gang, within every node's availability. */
  ghost predicate Packs(available: Availability, placement: seq<NodeKey>, c: int) {
    && (forall i :: 0 <= i < |placement| ==> placement[i] in available)
    && (forall key :: key in available ==> OnNode(placement, key) * c <= available[key])
  }

  ghost predicate Packable(available: Availability, gangs: nat, c: int) {
    exists placement :: |placement| == gangs && Packs(available, placement, c)
  }

  lemma LastGang(placement: seq<NodeKey>, key: NodeKey)
    requires placement != []
    ensures var front, last := placement[..|placement| - 1], placement[|placement| - 1];
            OnNode(placement, key) == OnNode(front, key) + if key == last then 1 else 0
  {
    assert placement == placement[..|placement| - 1] + [placement[|placement| - 1]];
  }

  lemma {:induction false} PackedGangsFitSlots(available: Availability, placement: seq<NodeKey>, c: int)
    requires c >= 1 && Packs(available, placement, c)
    ensures Slots(available, c) >= |placement|
    decreases |placement|
  {
    if placement != [] {
      var front, last := placement[..|placement| - 1], placement[|placement| - 1];
      LastGang(placement, last);
      Distribute(c, OnNode(front, last), 1);
      var less := available[last := available[last] - c];
      forall key | key in less ensures OnNode(front, key) * c <= less[key] {
        LastGang(placement, key);
      }
      PackedGangsFitSlots(less, front, c);
      GangTakesOneSlot(available, last, c);
    }
  }

  lemma {:induction false} SlotHasRoom(available: Availability, c: int)
    requires c >= 1 && Slots(available, c) > 0
    ensures exists key :: key in available && available[key] >= c
    decreases |available|
  {
    var key := Pick(available);
    if available[key] < c {
      assert GangsOf(available[key], c) == 0;
      SlotHasRoom(available - {key}, c);
    }
  }

  lemma {:induction false} SlotsArePacked(available: Availability, gangs: nat, c: int)
    requires c >= 1 && Slots(available, c) >= gangs
    ensures Packable(available, gangs, c)
    decreases gangs
  {
    if gangs == 0 {
      var placement: seq<NodeKey> := [];
      assert |placement| == gangs && Packs(available, placement, c);
    } else {
      SlotHasRoom(available, c);
      var key :| key in available && available[key] >= c;
      var less := available[key := available[key] - c];
      GangTakesOneSlot(available, key, c);
      SlotsArePacked(less, gangs - 1, c);
      var front :| |front| == gangs - 1 && Packs(less, front, c);
      GangAdded(available, key, front, c);
    }
  }

  lemma GangAdded(available: Availability, key: NodeKey, front: seq<NodeKey>, c: int)
    requires c >= 1 && key in available && available[key] >= c && Packs(available[key := available[key] - c], front, c)
    ensures Packs(available, front + [key], c) && |front + [key]| == |front| + 1
  {
    var placement := front + [key];
    assert placement[..|placement| - 1] == front;
    forall k | k in available ensures OnNode(placement, k) * c <= available[k] {
      LastGang(placement, k);
      if k == key {
        Distribute(c, OnNode(front, k), 1);
      }
    }
  }

  // --------------------------------------------------------------------------- capacity

  /** A candidate's `available_capacity`. A request for no replicas only needs a compatible node. */
  function AvailableCapacity(slots: nat, c: int, desired: nat, someNode: bool): int {
    if desired == 0 && someNode then c else slots * c / Max(1, desired)
  }

  lemma CapacityMeansSlots(slots: nat, c: int, desired: nat, someNode: bool)
    requires c >= 1 && desired >= 1
    ensures AvailableCapacity(slots, c, desired, someNode) >= c <==> slots >= desired
  {
    ShareReaches(slots * c, c, desired);
    ScaleKeepsOrder(c, desired, slots);
  }

  /** A service without replicas is admitted exactly where some node is compatible or has room for a gang. */
  lemma CapacityForNoReplicas(slots: nat, c: int, someNode: bool)
    requires c >= 1
    ensures AvailableCapacity(slots, c, 0, someNode) >= c <==> someNode || slots >= 1
  {
    if slots >= 1 {
      ScaleKeepsOrder(c, 1, slots);
    }
  }

  /** The capacity reaches a gang exactly when every replica's gang can be packed on one node. */
  lemma CapacityMeansPackable(available: Availability, c: int, desired: nat, someNode: bool)
    requires c >= 1 && desired >= 1
    ensures AvailableCapacity(Slots(available, c), c, desired, someNode) >= c <==> Packable(available, desired, c)
  {
    var slots := Slots(available, c);
    CapacityMeansSlots(slots, c, desired, someNode);
    if slots >= desired {
      SlotsArePacked(available, desired, c);
    } else if Packable(available, desired, c) {
      var placement :| |placement| == desired && Packs(available, placement, c);
      PackedGangsFitSlots(available, placement, c);
    }
  }

  // ------------------------------------------------------------------------------ quota

  function RemainingOf(limit: Option<int>, used: int): Option<int> {
    if limit.None? then None else Some(Max(0, limit.value - used))
  }

  /** `typed_quota_available`: the tighter of the aggregate and the vendor's limit. */
  function TypedQuota(q: Q.Quota, vendor: Vendor): Option<int> {
    var c, l := q.counters, q.limits;
    var aggregate := RemainingOf(l.gpus, c.gpus + c.serviceGpus);
    var typed := match vendor
      case Nvidia => RemainingOf(l.nvidia, c.nvidia + c.serviceNvidia)
      case Ascend => RemainingOf(l.ascend, c.ascend + c.serviceAscend);
    if aggregate.None? then typed
    else if typed.None? then aggregate
    else Some(Min(aggregate.value, typed.value))
  }

  /** A candidate's `available_quota`; a service being scaled is credited what it already holds. */
  function AvailableQuota(q: Q.Quota, vendor: Vendor, c: int, desired: nat, credit: nat): int {
    var finite := TypedQuota(q, vendor);
    if desired == 0 || finite.None? then c else (finite.value + credit) / Max(1, desired)
  }

  /** The accelerator checks of `replace_service_commitment`. */
  predicate AcceleratorsWithinLimits(q: Q.Quota, m: Q.Commitment) {
    var c, l, next := q.counters, q.limits, Q.Committed(q.counters, m);
    && !Q.Exceeds(l.gpus, c.gpus + next.serviceGpus)
    && !Q.Exceeds(l.nvidia, c.nvidia + next.serviceNvidia)
    && !Q.Exceeds(l.ascend, c.ascend + next.serviceAscend)
  }

  /** In a state within limits, the quota reaches a gang exactly when moving the service from its
      current to its desired replicas would pass the accelerator checks; a new service has none. */
  lemma QuotaMeansCommittable(q: Q.Quota, vendor: Vendor, m: Q.Commitment)
    requires Q.Inv(q) && m.gpus >= 1 && m.current >= 0 && m.desired >= 1 && m.vendor == Some(vendor)
    ensures AvailableQuota(q, vendor, m.gpus, m.desired, m.gpus * m.current) >= m.gpus <==> AcceleratorsWithinLimits(q, m)
  {
    QuotaReachesGang(q, vendor, m.gpus, m.desired, m.current);
    CommittableMeansCovered(q, vendor, m);
  }

  ghost predicate QuotaCovers(q: Q.Quota, vendor: Vendor, more: int) {
    TypedQuota(q, vendor).Some? ==> more <= TypedQuota(q, vendor).value
  }

  lemma QuotaReachesGang(q: Q.Quota, vendor: Vendor, c: int, desired: nat, current: nat)
    requires c >= 1 && desired >= 1
    ensures AvailableQuota(q, vendor, c, desired, c * current) >= c <==> QuotaCovers(q, vendor, c * (desired - current))
  {
    Distribute(c, desired, 0 - current);
    var finite := TypedQuota(q, vendor);
    if finite.Some? {
      ShareReaches(finite.value + c * current, c, desired);
    }
  }

  lemma CommittableMeansCovered(q: Q.Quota, vendor: Vendor, m: Q.Commitment)
    requires Q.Inv(q) && m.gpus >= 1 && m.vendor == Some(vendor)
    ensures AcceleratorsWithinLimits(q, m) <==> QuotaCovers(q, vendor, m.gpus * (m.desired - m.current))
  {
  }
}
