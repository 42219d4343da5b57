/** Who answers a routing call, in terms of services: vendor preference, age, and the replica whose turn it is. */
module GatewayPreference {
  import opened Accelerators
  import opened Common
  import opened Gateway
  import opened Sorting

  /** Some replica of the current generation runs, is healthy and has an address. */
  ghost predicate HasLiveReplica(s: Service) {
    exists r :: r in s.replicas && r.generation == s.generation && r.running && r.healthy
                && r.endpoint.Some? && |r.endpoint.value| >= 1 && r.execution.Some?
  }

  /** The service's variant belongs to the model, is ready, and is what the service runs. */
  predicate RunsReadyVariant(p: Project, m: LogicalModel, s: Service) {
    && s.variant.Some? && s.variant.value in p.variants
    && var v := p.variants[s.variant.value];
       v.logicalModel == m.id && v.status == ReadyToServe && s.vendor == Some(v.vendor) && s.kind == Some(v.kind)
  }

  /** The circuit of the service's vendor is open and its time is not over. */
  predicate CircuitOpen(circuits: Circuits, m: LogicalModel, vendor: Vendor, now: real) {
    && (m.id, vendor) in circuits && circuits[(m.id, vendor)].isOpen
    && circuits[(m.id, vendor)].openedUntil.Some? && now < circuits[(m.id, vendor)].openedUntil.value
  }

  /** The service wants replicas, runs a ready variant of the model, is of a permitted vendor that the caller
      did not exclude, has a live replica and no open circuit. */
  ghost predicate CanAnswer(p: Project, m: LogicalModel, circuits: Circuits, s: Service, excluded: set<Vendor>, now: real) {
    && s in p.services && s.logicalModel == Some(m.id) && s.desiredReplicas >= 1 && RunsReadyVariant(p, m, s)
    && (m.policy == StrictNvidia ==> s.vendor == Some(Nvidia)) && (m.policy == StrictAscend ==> s.vendor == Some(Ascend))
    && s.vendor.value !in excluded && HasLiveReplica(s) && !CircuitOpen(circuits, m, s.vendor.value, now)
  }

  /** The vendor a policy puts first; every policy but the Ascend ones puts NVIDIA first. */
  function FirstVendor(policy: Policy): Vendor {
    if policy in {PreferAscend, StrictAscend} then Ascend else Nvidia
  }

  /** `a` goes before `b`: by vendor preference, then the older one, then the smaller id. */
  predicate GoesBefore(policy: Policy, a: Service, b: Service) {
    if a.vendor == b.vendor then a.createdAt < b.createdAt || (a.createdAt == b.createdAt && a.id <= b.id)
    else a.vendor == Some(FirstVendor(policy))
  }

  lemma KeyMeansPreference(policy: Policy, a: Service, b: Service)
    requires a.vendor.Some? && b.vendor.Some?
    ensures Leq(ServiceKey(policy)(a), ServiceKey(policy)(b)) <==> GoesBefore(policy, a, b)
  {
    var i, j := [a.id as real], [b.id as real];
    var x, y := [a.createdAt] + i, [b.createdAt] + j;
    var u, v := VendorRank(policy, a.vendor) as real, VendorRank(policy, b.vendor) as real;
    assert ServiceKey(policy)(a) == [u] + x && ServiceKey(policy)(b) == [v] + y;
    assert i[1..] == [] && j[1..] == [];
    LeqStep(a.createdAt, i, b.createdAt, j);
    LeqStep(u, x, v, y);
  }

  lemma TakesExactlyWhenItCanAnswer(p: Project, m: LogicalModel, circuits: Circuits, s: Service, excluded: set<Vendor>, now: real)
    ensures CanAnswer(p, m, circuits, s, excluded, now) <==> s in EligibleServices(p, m) && Takes(circuits, s, excluded, now)
  {
    EligibleServicesAre(p, m, s);
    LiveReplicaIsRoutable(s);
  }

  lemma LiveReplicaIsRoutable(s: Service)
    ensures HasLiveReplica(s) <==> HasRoutableReplica(s)
  {
    if HasRoutableReplica(s) {
      var r :| r in s.replicas && Routable(s, r);
      assert |r.endpoint.value| >= 1;
    }
    if HasLiveReplica(s) {
      var r :| r in s.replicas && r.generation == s.generation && r.running && r.healthy
               && r.endpoint.Some? && |r.endpoint.value| >= 1 && r.execution.Some?;
      assert Routable(s, r);
    }
  }

  lemma {:induction false} SortedServices(s: seq<Service>, key: Service -> Key, i: nat, j: nat)
    requires SortedBy(s, key) && i < j < |s|
    ensures Leq(key(s[i]), key(s[j]))
  {
    if i == 0 {
      assert s[j] in s;
    } else {
      SortedServices(s[1..], key, i - 1, j - 1);
    }
  }

  lemma {:induction false} KeepSorted(s: seq<Service>, keep: Service -> bool, key: Service -> Key)
    requires SortedBy(s, key)
    ensures SortedBy(Keep(s, keep), key)
  {
    if s != [] {
      KeepSorted(s[1..], keep, key);
      if keep(s[0]) {
        assert Keep(s, keep)[1..] == Keep(s[1..], keep);
        assert forall x :: x in Keep(s, keep) ==> x in s;
      }
    }
  }

  lemma EligibleInOrder(p: Project, m: LogicalModel, i: nat, j: nat)
    requires i < j < |EligibleServices(p, m)|
    ensures var eligible := EligibleServices(p, m); GoesBefore(m.policy, eligible[i], eligible[j])
  {
    var eligible := EligibleServices(p, m);
    SortSorts(Keep(p.services, s => Belongs(s, m.id) && s.desiredReplicas > 0), ServiceKey(m.policy));
    KeepSorted(SortBy(Keep(p.services, s => Belongs(s, m.id) && s.desiredReplicas > 0), ServiceKey(m.policy)),
               s => Eligible(p, m, s), ServiceKey(m.policy));
    SortedServices(eligible, ServiceKey(m.policy), i, j);
    assert eligible[i] in eligible && eligible[j] in eligible;
    EligibleServicesAre(p, m, eligible[i]);
    EligibleServicesAre(p, m, eligible[j]);
    KeyMeansPreference(m.policy, eligible[i], eligible[j]);
  }

  lemma OrderHoldsEligible(p: Project, m: LogicalModel, cursor: nat, s: Service)
    ensures s in Order(p, Logical(m), cursor) <==> s in EligibleServices(p, m)
  {
  }

  lemma FirstTakerCanAnswer(p: Project, m: LogicalModel, circuits: Circuits, cursor: nat, excluded: set<Vendor>, now: real,
                            route: Route, s: Service)
    requires IsFirstTaker(circuits, Order(p, Logical(m), cursor), excluded, now, route)
    ensures CanAnswer(p, m, circuits, s, excluded, now) ==> route.Routed?
    ensures route.Routed? ==> CanAnswer(p, m, circuits, route.service, excluded, now)
  {
    OrderHoldsEligible(p, m, cursor, s);
    TakesExactlyWhenItCanAnswer(p, m, circuits, s, excluded, now);
    if route.Routed? {
      OrderHoldsEligible(p, m, cursor, route.service);
      TakesExactlyWhenItCanAnswer(p, m, circuits, route.service, excluded, now);
    }
  }

  lemma FirstTakerGoesBefore(p: Project, m: LogicalModel, circuits: Circuits, excluded: set<Vendor>, now: real, route: Route, s: Service)
    requires IsFirstTaker(circuits, EligibleServices(p, m), excluded, now, route) && route.Routed?
    requires s in EligibleServices(p, m) && Takes(circuits, s, excluded, now)
    ensures GoesBefore(m.policy, route.service, s)
  {
    var eligible := EligibleServices(p, m);
    var k :| 0 <= k < |eligible| && eligible[k] == s;
    if route.offset < k {
      EligibleInOrder(p, m, route.offset, k);
    }
  }

  /** A call for a logical model is answered exactly when some service can answer it, by such a service and,
      unless the model is balanced, by the one that goes before all others that can. */
  lemma PreferredServiceAnswers(p: Project, m: LogicalModel, circuits: Circuits, cursors: Cursors, name: string,
                                excluded: set<Vendor>, now: real, route: Route, s: Service)
    requires Resolve(p, name) == Logical(m) && RouteIsRight(p, circuits, cursors, name, excluded, now, route)
    ensures CanAnswer(p, m, circuits, s, excluded, now) ==> route.Routed?
    ensures route.Routed? ==> CanAnswer(p, m, circuits, route.service, excluded, now)
    ensures route.Routed? && !m.policy.Balanced? && CanAnswer(p, m, circuits, s, excluded, now) ==>
              GoesBefore(m.policy, route.service, s)
  {
    FirstTakerCanAnswer(p, m, circuits, CursorOf(cursors, Logical(m)), excluded, now, route, s);
    if route.Routed? && !m.policy.Balanced? && CanAnswer(p, m, circuits, s, excluded, now) {
      TakesExactlyWhenItCanAnswer(p, m, circuits, s, excluded, now);
      FirstTakerGoesBefore(p, m, circuits, excluded, now, route, s);
    }
  }

  /** A preference policy goes to the preferred vendor whenever one of its services can answer. */
  lemma PreferenceIsHonoured(p: Project, m: LogicalModel, circuits: Circuits, cursors: Cursors, name: string,
                             excluded: set<Vendor>, now: real, route: Route, s: Service, preferred: Vendor)
    requires Resolve(p, name) == Logical(m) && RouteIsRight(p, circuits, cursors, name, excluded, now, route)
    requires m.policy == (if preferred == Nvidia then PreferNvidia else PreferAscend)
    requires CanAnswer(p, m, circuits, s, excluded, now) && s.vendor == Some(preferred)
    ensures route.Routed? && route.service.vendor == Some(preferred)
  {
    PreferredServiceAnswers(p, m, circuits, cursors, name, excluded, now, route, s);
  }

  /** A strict policy never goes to the other vendor. */
  lemma StrictnessIsHonoured(p: Project, m: LogicalModel, circuits: Circuits, cursors: Cursors, name: string,
                             excluded: set<Vendor>, now: real, route: Route)
    requires Resolve(p, name) == Logical(m) && RouteIsRight(p, circuits, cursors, name, excluded, now, route) && route.Routed?
    ensures m.policy == StrictNvidia ==> route.service.vendor == Some(Nvidia)
    ensures m.policy == StrictAscend ==> route.service.vendor == Some(Ascend)
    ensures route.service.vendor.Some? && route.service.vendor.value !in excluded
  {
    PreferredServiceAnswers(p, m, circuits, cursors, name, excluded, now, route, route.service);
  }

  // --------------------------------------------------------------- the replica whose turn it is

  /** Lower ordinal first, then the smaller id. */
  predicate LowerReplica(a: Replica, b: Replica) {
    a.ordinal < b.ordinal || (a.ordinal == b.ordinal && a.id <= b.id)
  }

  ghost function RoutableBefore(s: Service, r: Replica): set<Replica> {
    set x | x in s.replicas && Routable(s, x) && !LowerReplica(r, x)
  }

  ghost function RoutableSet(s: Service): set<Replica> {
    set x | x in s.replicas && Routable(s, x)
  }

  lemma ReplicaKeyMeansLower(a: Replica, b: Replica)
    ensures Leq(ReplicaKey(a), ReplicaKey(b)) <==> LowerReplica(a, b)
  {
    var i, j := [a.id as real], [b.id as real];
    assert ReplicaKey(a) == [a.ordinal as real] + i && ReplicaKey(b) == [b.ordinal as real] + j;
    assert i[1..] == [] && j[1..] == [];
    LeqStep(a.ordinal as real, i, b.ordinal as real, j);
  }

  ghost function BeforeIn(rs: seq<Replica>, r: Replica): set<Replica> {
    set x | x in rs && !LowerReplica(r, x)
  }

  lemma {:induction false} AheadCountsReplicas(rs: seq<Replica>, r: Replica)
    requires NoRepeats(rs)
    ensures Ahead(rs, r, ReplicaKey) == |BeforeIn(rs, r)|
  {
    if rs == [] {
      assert BeforeIn(rs, r) == {};
    } else {
      AheadCountsReplicas(rs[1..], r);
      ReplicaKeyMeansLower(r, rs[0]);
      var rest := BeforeIn(rs[1..], r);
      assert rs[0] !in rs[1..] && forall x :: x in rs <==> x == rs[0] || x in rs[1..];
      assert BeforeIn(rs, r) == if LowerReplica(r, rs[0]) then rest else rest + {rs[0]};
    }
  }

  lemma {:induction false} SetOfUnique(rs: seq<Replica>)
    requires NoRepeats(rs)
    ensures |set x | x in rs| == |rs|
  {
    if rs != [] {
      SetOfUnique(rs[1..]);
      assert rs[0] !in rs[1..] && (set x | x in rs) == (set x | x in rs[1..]) + {rs[0]};
    }
  }

  ghost predicate UniqueIds(rs: seq<Replica>) {
    forall i, j :: 0 <= i < j < |rs| ==> rs[i].id != rs[j].id
  }

  lemma SortedKeysIdentify(rs: seq<Replica>)
    requires UniqueIds(rs)
    ensures KeysIdentify(SortBy(rs, ReplicaKey), ReplicaKey)
  {
    SortSorts(rs, ReplicaKey);
    SortKeepsIdentity(rs, ReplicaKey);
    forall x, y | x in rs && y in rs && ReplicaKey(x) == ReplicaKey(y) ensures x == y {
      assert ReplicaKey(x)[1] == ReplicaKey(y)[1];
    }
  }

  lemma TurnAmong(rs: seq<Replica>, k: nat)
    requires UniqueIds(rs) && k < |rs|
    ensures |SortBy(rs, ReplicaKey)| == |rs| && |BeforeIn(rs, SortBy(rs, ReplicaKey)[k])| == k
  {
    var ordered := SortBy(rs, ReplicaKey);
    SortSorts(rs, ReplicaKey);
    SortedKeysIdentify(rs);
    RankIsPosition(ordered, k, ReplicaKey);
    AheadSorted(rs, ordered[k], ReplicaKey);
    AheadCountsReplicas(rs, ordered[k]);
  }

  lemma {:induction false} RoutableIdsAreUnique(s: Service, rs: seq<Replica>)
    requires UniqueIds(rs)
    ensures UniqueIds(RoutableReplicas(s, rs))
  {
    if rs != [] {
      var rest := RoutableReplicas(s, rs[1..]);
      RoutableIdsAreUnique(s, rs[1..]);
      forall x | x in rest ensures x.id != rs[0].id {
        assert x in rs[1..];
      }
    }
  }

  /** The chosen endpoint is the routable replica with exactly `cursor` modulo their number before it, by
      ordinal and id: successive requests take the routable replicas in turn. */
  lemma ReplicaOfTheTurn(s: Service)
    requires UniqueIds(s.replicas) && ChooseEndpoint(s).Some?
    ensures RoutableSet(s) != {} && ChooseEndpoint(s).value in RoutableSet(s)
    ensures |RoutableBefore(s, ChooseEndpoint(s).value)| == s.replicaCursor % |RoutableSet(s)|
  {
    var routable, r := RoutableReplicas(s, s.replicas), ChooseEndpoint(s).value;
    RoutableIdsAreUnique(s, s.replicas);
    SetOfUnique(routable);
    assert RoutableSet(s) == set x | x in routable;
    assert RoutableBefore(s, r) == BeforeIn(routable, r);
    assert r in RoutableSet(s);
    TurnAmong(routable, s.replicaCursor % |routable|);
  }
}
