/** Gateway routing for one project: the model catalogue and the router that must agree with it. */
module Gateway {
  import opened Accelerators
  import opened Common
  import opened Sorting
  import opened RoundRobin

  datatype Policy = StrictNvidia | StrictAscend | PreferNvidia | PreferAscend | Balanced
  datatype Availability = ReadyToServe | Degraded | Disabled

  datatype Replica = Replica(
    id: nat, generation: nat, ordinal: nat, running: bool, healthy: bool, endpoint: Option<string>, execution: Option<nat>)

  datatype Service = Service(
    id: nat, name: string, logicalModel: Option<nat>, variant: Option<nat>, vendor: Option<Vendor>, kind: Option<Kind>,
    desiredReplicas: nat, generation: nat, createdAt: real, replicaCursor: nat, replicas: seq<Replica>)

  datatype LogicalModel = LogicalModel(
    id: nat, name: string, publicName: string, status: Availability, policy: Policy, createdAt: real)

  datatype Variant = Variant(logicalModel: nat, status: Availability, vendor: Vendor, kind: Kind)

  datatype Circuit = Circuit(isOpen: bool, failures: nat, openedUntil: Option<real>, lastError: Option<string>)

  type Circuits = map<(nat, Vendor), Circuit>

  /** The rows of one project. Cursors live beside the models because only they change. */
  datatype Project = Project(
    services: seq<Service>, models: seq<LogicalModel>, variants: map<nat, Variant>)

  /** The unique constraints of the service and logical-model tables. */
  ghost predicate ValidRows(p: Project) {
    && (forall i, j :: 0 <= i < j < |p.services| ==>
          p.services[i].id != p.services[j].id && p.services[i].name != p.services[j].name)
    && (forall i, j :: 0 <= i < j < |p.models| ==>
          p.models[i].id != p.models[j].id && p.models[i].publicName != p.models[j].publicName)
  }

  // -------------------------------------------------------------- vendor policy

  predicate Allows(policy: Policy, vendor: Vendor) {
    match policy
    case StrictNvidia => vendor.Nvidia?
    case StrictAscend => vendor.Ascend?
    case _ => true
  }

  function VendorRank(policy: Policy, vendor: Option<Vendor>): nat {
    if vendor.None? then 2
    else if policy.PreferAscend? || policy.StrictAscend? then (if vendor.value.Ascend? then 0 else 1)
    else (if vendor.value.Nvidia? then 0 else 1)
  }

  // ------------------------------------------------------------------- endpoints

  predicate Routable(s: Service, r: Replica) {
    && r.generation == s.generation && r.running && r.healthy
    && r.endpoint.Some? && r.endpoint.value != "" && r.execution.Some?
  }

  predicate HasRoutableReplica(s: Service) {
    exists r :: r in s.replicas && Routable(s, r)
  }

  function RoutableReplicas(s: Service, rs: seq<Replica>): (kept: seq<Replica>)
    ensures forall r :: r in kept <==> r in rs && Routable(s, r)
  {
    if rs == [] then []
    else
      var rest := RoutableReplicas(s, rs[1..]);
      if Routable(s, rs[0]) then [rs[0]] + rest else rest
  }

  function ReplicaKey(r: Replica): Key {
    [r.ordinal as real, r.id as real]
  }

  /** `choose_healthy_endpoint`: the replica whose turn it is among the routable ones. */
  function ChooseEndpoint(s: Service): (r: Option<Replica>)
    ensures r.Some? <==> s.desiredReplicas > 0 && HasRoutableReplica(s)
    ensures r.Some? ==> r.value in s.replicas && Routable(s, r.value)
  {
    var routable := RoutableReplicas(s, s.replicas);
    SortSorts(routable, ReplicaKey);
    var ordered := SortBy(routable, ReplicaKey);
    if s.desiredReplicas == 0 || |ordered| == 0 then
      assert s.desiredReplicas > 0 && HasRoutableReplica(s) ==> exists x :: x in ordered;
      None
    else
      assert ordered[s.replicaCursor % |ordered|] in ordered;
      Some(ordered[s.replicaCursor % |ordered|])
  }

  // -------------------------------------------------------------------- circuits

  /** The circuit of this vendor is open and still cooling down. */
  predicate Blocked(circuits: Circuits, model: nat, vendor: Vendor, now: real) {
    && (model, vendor) in circuits
    && var c := circuits[(model, vendor)];
       c.isOpen && c.openedUntil.Some? && c.openedUntil.value > now
  }

  /** A circuit whose cool-down is over closes again when a request reaches it. */
  function Reset(circuits: Circuits, model: nat, vendor: Vendor): Circuits {
    if (model, vendor) in circuits && circuits[(model, vendor)].isOpen
    then circuits[(model, vendor) := Circuit(false, 0, None, None)]
    else circuits
  }

  // ------------------------------------------------------------ who can serve a model

  predicate Belongs(s: Service, model: nat) {
    s.logicalModel == Some(model)
  }

  /** The preflight filter for the services of a logical model. */
  predicate Eligible(p: Project, m: LogicalModel, s: Service) {
    && s.vendor.Some? && Allows(m.policy, s.vendor.value)
    && s.variant.Some? && s.variant.value in p.variants
    && var v := p.variants[s.variant.value];
       && v.logicalModel == m.id && v.status.ReadyToServe?
       && s.vendor == Some(v.vendor) && s.kind == Some(v.kind)
  }

  /** `s` would take a request for `m` now. */
  predicate CanServe(p: Project, circuits: Circuits, m: LogicalModel, s: Service, now: real) {
    && Belongs(s, m.id) && s.desiredReplicas > 0 && Eligible(p, m, s)
    && HasRoutableReplica(s)
    && !Blocked(circuits, m.id, s.vendor.value, now)
  }

  ghost predicate SomeoneCanServe(p: Project, circuits: Circuits, m: LogicalModel, now: real) {
    exists s :: s in p.services && CanServe(p, circuits, m, s, now)
  }

  // ---------------------------------------------------------------------- look-ups

  function ServiceNamed(services: seq<Service>, name: string): (r: Option<Service>)
    ensures r.Some? ==> r.value in services && r.value.name == name
    ensures r.None? ==> forall s :: s in services ==> s.name != name
  {
    if services == [] then None
    else if services[0].name == name then Some(services[0])
    else ServiceNamed(services[1..], name)
  }

  function ModelNamed(models: seq<LogicalModel>, name: string): (r: Option<LogicalModel>)
    ensures r.Some? ==> r.value in models && r.value.publicName == name
    ensures r.None? ==> forall m :: m in models ==> m.publicName != name
  {
    if models == [] then None
    else if models[0].publicName == name then Some(models[0])
    else ModelNamed(models[1..], name)
  }

  function ModelWithId(models: seq<LogicalModel>, id: nat): (r: Option<LogicalModel>)
    ensures r.Some? ==> r.value in models && r.value.id == id
    ensures r.None? ==> forall m :: m in models ==> m.id != id
  {
    if models == [] then None
    else if models[0].id == id then Some(models[0])
    else ModelWithId(models[1..], id)
  }

  /** A service of another owner already uses the model's public name. */
  predicate Ambiguous(p: Project, m: LogicalModel) {
    var owner := ServiceNamed(p.services, m.publicName);
    owner.Some? && owner.value.logicalModel != Some(m.id)
  }

  // ------------------------------------------------------------------ candidate order

  function ServiceKey(policy: Policy): Service -> Key {
    (s: Service) => [VendorRank(policy, s.vendor) as real, s.createdAt, s.id as real]
  }

  /** Services of the model that want replicas, by vendor preference, age and id; then only the
      eligible ones. */
  function EligibleServices(p: Project, m: LogicalModel): seq<Service> {
    Keep(SortBy(Keep(p.services, s => Belongs(s, m.id) && s.desiredReplicas > 0), ServiceKey(m.policy)),
         s => Eligible(p, m, s))
  }

  lemma EligibleServicesAre(p: Project, m: LogicalModel, s: Service)
    ensures s in EligibleServices(p, m) <==>
      s in p.services && Belongs(s, m.id) && s.desiredReplicas > 0 && Eligible(p, m, s)
  {
    SortSorts(Keep(p.services, x => Belongs(x, m.id) && x.desiredReplicas > 0), ServiceKey(m.policy));
  }

  function Rotate(s: seq<Service>, start: nat): seq<Service>
    requires start <= |s|
  {
    s[start..] + s[..start]
  }

  // --------------------------------------------------------------------- the scan

  datatype Scan = Scan(circuits: Circuits, chosen: Option<nat>)

  predicate Excluded(s: Service, excluded: set<Vendor>) {
    s.vendor.Some? && s.vendor.value in excluded
  }

  /** Whether the circuit step lets `s` through, and the circuits afterwards. */
  predicate CircuitStops(circuits: Circuits, s: Service, now: real) {
    s.logicalModel.Some? && s.vendor.Some? && Blocked(circuits, s.logicalModel.value, s.vendor.value, now)
  }

  function PassCircuit(circuits: Circuits, s: Service): Circuits {
    if s.logicalModel.Some? && s.vendor.Some? then Reset(circuits, s.logicalModel.value, s.vendor.value) else circuits
  }

  /** Walks the candidates until one has an endpoint. */
  function ScanFrom(circuits: Circuits, order: seq<Service>, i: nat, excluded: set<Vendor>, now: real): Scan
    requires i <= |order|
    decreases |order| - i
  {
    if i == |order| then Scan(circuits, None)
    else if Excluded(order[i], excluded) || CircuitStops(circuits, order[i], now) then
      ScanFrom(circuits, order, i + 1, excluded, now)
    else if ChooseEndpoint(order[i]).Some? then Scan(PassCircuit(circuits, order[i]), Some(i))
    else ScanFrom(PassCircuit(circuits, order[i]), order, i + 1, excluded, now)
  }

  predicate Takes(circuits: Circuits, s: Service, excluded: set<Vendor>, now: real) {
    !Excluded(s, excluded) && !CircuitStops(circuits, s, now) && ChooseEndpoint(s).Some?
  }

  lemma PassKeepsStops(circuits: Circuits, s: Service, t: Service, now: real)
    requires !CircuitStops(circuits, s, now)
    ensures CircuitStops(PassCircuit(circuits, s), t, now) <==> CircuitStops(circuits, t, now)
  {
  }

  /** The scan finds the first candidate that takes the request, judged by the circuits as they
      were before the scan: closing cooled-down circuits on the way changes no verdict. */
  lemma {:induction false} ScanFindsFirst(
      initial: Circuits, circuits: Circuits, order: seq<Service>, i: nat, excluded: set<Vendor>, now: real)
    requires i <= |order|
    requires forall t :: CircuitStops(circuits, t, now) <==> CircuitStops(initial, t, now)
    ensures match ScanFrom(circuits, order, i, excluded, now).chosen
            case None => forall k :: i <= k < |order| ==> !Takes(initial, order[k], excluded, now)
            case Some(c) => i <= c < |order| && Takes(initial, order[c], excluded, now)
                            && forall k :: i <= k < c ==> !Takes(initial, order[k], excluded, now)
    decreases |order| - i
  {
    if i < |order| {
      if Excluded(order[i], excluded) || CircuitStops(circuits, order[i], now) {
        ScanFindsFirst(initial, circuits, order, i + 1, excluded, now);
      } else if ChooseEndpoint(order[i]).None? {
        forall t ensures CircuitStops(PassCircuit(circuits, order[i]), t, now) <==> CircuitStops(initial, t, now) {
          PassKeepsStops(circuits, order[i], t, now);
        }
        ScanFindsFirst(initial, PassCircuit(circuits, order[i]), order, i + 1, excluded, now);
      }
    }
  }

  /** The loop over the candidates. */
  method ScanCandidates(circuits0: Circuits, order: seq<Service>, excluded: set<Vendor>, now: real)
    returns (circuits: Circuits, chosen: Option<nat>)
    ensures Scan(circuits, chosen) == ScanFrom(circuits0, order, 0, excluded, now)
    ensures chosen.Some? ==> chosen.value < |order| && ChooseEndpoint(order[chosen.value]).Some?
  {
    circuits, chosen := circuits0, None;
    for i := 0 to |order|
      invariant ScanFrom(circuits, order, i, excluded, now) == ScanFrom(circuits0, order, 0, excluded, now)
    {
      var s := order[i];
      if Excluded(s, excluded) {
        continue;
      }
      if s.logicalModel.Some? && s.vendor.Some? {
        if Blocked(circuits, s.logicalModel.value, s.vendor.value, now) {
          continue;
        }
        circuits := Reset(circuits, s.logicalModel.value, s.vendor.value);
      }
      if ChooseEndpoint(s).Some? {
        return circuits, Some(i);
      }
    }
  }

  // ------------------------------------------------------------------- the router

  /** Where a public name leads: a clash, nowhere, one direct service, or a logical model. */
  datatype Target = Conflict | Nowhere | Direct(service: Service) | Logical(model: LogicalModel)

  function Resolve(p: Project, name: string): Target {
    var anchor := ServiceNamed(p.services, name);
    var public := ModelNamed(p.models, name);
    if anchor.Some? && public.Some? && anchor.value.logicalModel != Some(public.value.id) then Conflict
    else if public.Some? then
      if !public.value.status.ReadyToServe? then Nowhere
      else if anchor.None? && !(exists s :: s in p.services && Belongs(s, public.value.id)) then Nowhere
      else Logical(public.value)
    else if anchor.None? then Nowhere
    else if anchor.value.logicalModel.None? then Direct(anchor.value)
    else
      var model := ModelWithId(p.models, anchor.value.logicalModel.value);
      if model.None? || !model.value.status.ReadyToServe? then Nowhere else Logical(model.value)
  }

  /** The candidates in the order they are tried. */
  function Order(p: Project, target: Target, cursor: nat): seq<Service>
    requires target.Direct? || target.Logical?
  {
    match target
    case Direct(s) => [s]
    case Logical(m) =>
      var eligible := EligibleServices(p, m);
      if m.policy.Balanced? && eligible != [] then Rotate(eligible, cursor % |eligible|) else eligible
  }

  datatype Route =
    | NameConflict
    | NoRoute
    | Routed(service: Service, replica: Replica, offset: nat)

  type Cursors = map<nat, nat>

  function CursorOf(cursors: Cursors, target: Target): nat {
    if target.Logical? && target.model.id in cursors then cursors[target.model.id] else 0
  }

  /** The routing cursors after a request: only a balanced success moves one. */
  function NextCursors(cursors: Cursors, target: Target, route: Route): Cursors {
    if target.Logical? && target.model.policy.Balanced? && route.Routed?
    then cursors[target.model.id := Advance(CursorOf(cursors, target), route.offset + 1)]
    else cursors
  }

  /** `route` is the first of `order` that takes the request, or none does. */
  ghost predicate IsFirstTaker(circuits: Circuits, order: seq<Service>, excluded: set<Vendor>, now: real, route: Route) {
    match route
    case NameConflict => false
    case NoRoute => forall k :: 0 <= k < |order| ==> !Takes(circuits, order[k], excluded, now)
    case Routed(s, r, offset) =>
      && offset < |order| && order[offset] == s && Takes(circuits, s, excluded, now)
      && ChooseEndpoint(s) == Some(r)
      && forall k :: 0 <= k < offset ==> !Takes(circuits, order[k], excluded, now)
  }

  method TryInOrder(circuits0: Circuits, order: seq<Service>, excluded: set<Vendor>, now: real)
    returns (circuits: Circuits, route: Route)
    ensures IsFirstTaker(circuits0, order, excluded, now, route)
    ensures circuits == ScanFrom(circuits0, order, 0, excluded, now).circuits
  {
    ScanFindsFirst(circuits0, circuits0, order, 0, excluded, now);
    var chosen;
    circuits, chosen := ScanCandidates(circuits0, order, excluded, now);
    if chosen.None? {
      return circuits, NoRoute;
    }
    var s := order[chosen.value];
    route := Routed(s, ChooseEndpoint(s).value, chosen.value);
  }

  class GatewayRepository {
    var circuits: Circuits
    var cursors: Cursors

    constructor ()
      ensures circuits == map[] && cursors == map[]
    {
      circuits, cursors := map[], map[];
    }

    /** `choose_route`. */
    method ChooseRoute(p: Project, name: string, excluded: set<Vendor>, now: real) returns (route: Route)
      modifies this
      ensures RouteIsRight(p, old(circuits), old(cursors), name, excluded, now, route)
      ensures route == RouteOf(p, old(circuits), old(cursors), name, excluded, now)
      ensures cursors == NextCursors(old(cursors), Resolve(p, name), route)
      ensures circuits == AfterRoute(p, old(circuits), old(cursors), name, excluded, now)
    {
      var target := Resolve(p, name);
      if target.Conflict? {
        return NameConflict;
      }
      if target.Nowhere? {
        return NoRoute;
      }
      var order := Order(p, target, CursorOf(cursors, target));
      ghost var right := RouteOf(p, circuits, cursors, name, excluded, now);
      ghost var before := circuits;
      circuits, route := TryInOrder(circuits, order, excluded, now);
      RightRouteIsUnique(p, before, cursors, name, excluded, now, route, right);
      if target.Logical? && target.model.policy.Balanced? && route.Routed? {
        cursors := cursors[target.model.id := Advance(CursorOf(cursors, target), route.offset + 1)];
      }
    }

    /** `record_outcome`, for a route through a logical model. */
    method RecordOutcome(model: nat, vendor: Vendor, success: bool, error: Option<string>,
                         threshold: int, cooldown: int, now: real)
      modifies this
      ensures circuits == old(circuits)[(model, vendor) :=
                            Outcome(CircuitOf(old(circuits), model, vendor), success, error, threshold, cooldown, now)]
      ensures cursors == old(cursors)
    {
      var state := CircuitOf(circuits, model, vendor);
      if success {
        state := state.(isOpen := false);
        state := state.(failures := 0);
        state := state.(openedUntil := None);
        state := state.(lastError := None);
      } else {
        state := state.(failures := state.failures + 1);
        state := state.(lastError := error);
        if state.failures >= threshold {
          state := state.(isOpen := true);
          state := state.(openedUntil := Some(now + cooldown as real));
        }
      }
      circuits := circuits[(model, vendor) := state];
    }
  }

  /** The route is the first candidate that takes the request; there is none exactly when no
      candidate takes it. */
  ghost predicate RouteIsRight(p: Project, circuits: Circuits, cursors: Cursors, name: string,
                               excluded: set<Vendor>, now: real, route: Route)
  {
    var target := Resolve(p, name);
    if target.Conflict? then route.NameConflict?
    else if target.Nowhere? then route.NoRoute?
    else IsFirstTaker(circuits, Order(p, target, CursorOf(cursors, target)), excluded, now, route)
  }

  /** The answer of `choose_route` as a function. */
  function RouteOf(p: Project, circuits: Circuits, cursors: Cursors, name: string, excluded: set<Vendor>, now: real): (route: Route)
    ensures RouteIsRight(p, circuits, cursors, name, excluded, now, route)
  {
    var target := Resolve(p, name);
    match target
    case Conflict => NameConflict
    case Nowhere => NoRoute
    case _ =>
      var order := Order(p, target, CursorOf(cursors, target));
      ScanFindsFirst(circuits, circuits, order, 0, excluded, now);
      var chosen := ScanFrom(circuits, order, 0, excluded, now).chosen;
      if chosen.None? then NoRoute
      else Routed(order[chosen.value], ChooseEndpoint(order[chosen.value]).value, chosen.value)
  }

  /** There is only one right answer. */
  lemma RightRouteIsUnique(p: Project, circuits: Circuits, cursors: Cursors, name: string, excluded: set<Vendor>, now: real,
                           a: Route, b: Route)
    requires RouteIsRight(p, circuits, cursors, name, excluded, now, a) && RouteIsRight(p, circuits, cursors, name, excluded, now, b)
    ensures a == b
  {
    if a.Routed? && b.Routed? {
      assert a.offset == b.offset;
    }
  }

  /** The circuits after a routing call. */
  function AfterRoute(p: Project, circuits: Circuits, cursors: Cursors, name: string, excluded: set<Vendor>, now: real): Circuits {
    var target := Resolve(p, name);
    if target.Direct? || target.Logical?
    then ScanFrom(circuits, Order(p, target, CursorOf(cursors, target)), 0, excluded, now).circuits
    else circuits
  }

  // ---------------------------------------------------------------- circuit breaker

  function CircuitOf(circuits: Circuits, model: nat, vendor: Vendor): Circuit {
    if (model, vendor) in circuits then circuits[(model, vendor)] else Circuit(false, 0, None, None)
  }

  function Outcome(c: Circuit, success: bool, error: Option<string>, threshold: int, cooldown: int, now: real): Circuit {
    if success then Circuit(false, 0, None, None)
    else if c.failures + 1 >= threshold then Circuit(true, c.failures + 1, Some(now + cooldown as real), error)
    else Circuit(c.isOpen, c.failures + 1, c.openedUntil, error)
  }

  // ------------------------------------------------------ balanced routing is round robin

  ghost function TakersAmong(circuits: Circuits, eligible: seq<Service>, excluded: set<Vendor>, now: real): set<nat> {
    set k: nat | k < |eligible| && Takes(circuits, eligible[k], excluded, now)
  }

  lemma RotatedPosition(eligible: seq<Service>, cursor: nat, k: nat)
    requires k < |eligible|
    ensures var d := Distance(cursor, |eligible|, k);
            d < |eligible| && Rotate(eligible, cursor % |eligible|)[d] == eligible[k]
  {
  }

  /** The first taker of a rotation is the taker nearest to its start. */
  lemma FirstOfRotationIsNearest(circuits: Circuits, eligible: seq<Service>, cursor: nat, excluded: set<Vendor>,
                                 now: real, offset: nat) returns (j: nat)
    requires offset < |eligible|
    requires var order := Rotate(eligible, cursor % |eligible|);
             && Takes(circuits, order[offset], excluded, now)
             && forall k :: 0 <= k < offset ==> !Takes(circuits, order[k], excluded, now)
    ensures j < |eligible| && eligible[j] == Rotate(eligible, cursor % |eligible|)[offset]
    ensures Picks(cursor, |eligible|, TakersAmong(circuits, eligible, excluded, now), j)
    ensures offset == Distance(cursor, |eligible|, j)
  {
    var n, start := |eligible|, cursor % |eligible|;
    j := if start + offset < n then start + offset else start + offset - n;
    RotatedPosition(eligible, cursor, j);
    forall k | k in TakersAmong(circuits, eligible, excluded, now)
      ensures offset <= Distance(cursor, n, k)
    {
      RotatedPosition(eligible, cursor, k);
    }
    assert j in TakersAmong(circuits, eligible, excluded, now);
  }

  /** A balanced route goes to the taker nearest to the cursor. */
  lemma BalancedRouteIsNearest(p: Project, m: LogicalModel, circuits: Circuits, cursor: nat, excluded: set<Vendor>, now: real,
                               route: Route) returns (j: nat)
    requires m.policy.Balanced? && route.Routed? && IsFirstTaker(circuits, Order(p, Logical(m), cursor), excluded, now, route)
    ensures var eligible := EligibleServices(p, m);
            && route.offset < |eligible| && j < |eligible| && eligible[j] == route.service
            && Picks(cursor, |eligible|, TakersAmong(circuits, eligible, excluded, now), j)
            && route.offset == Distance(cursor, |eligible|, j)
  {
    j := FirstOfRotationIsNearest(circuits, EligibleServices(p, m), cursor, excluded, now, route.offset);
  }

  /** A balanced route goes to the taker nearest to the cursor, and the cursor moves just past it. */
  lemma BalancedRouteIsRoundRobin(p: Project, circuits: Circuits, cursors: Cursors, name: string,
                                  excluded: set<Vendor>, now: real, route: Route) returns (j: nat)
    requires RouteIsRight(p, circuits, cursors, name, excluded, now, route) && route.Routed?
    requires Resolve(p, name).Logical? && Resolve(p, name).model.policy.Balanced?
    ensures var target := Resolve(p, name);
            var eligible := EligibleServices(p, target.model);
            var cursor := CursorOf(cursors, target);
            && route.offset < |eligible| && j < |eligible| && eligible[j] == route.service
            && Picks(cursor, |eligible|, TakersAmong(circuits, eligible, excluded, now), j)
            && route.offset == Distance(cursor, |eligible|, j)
            && NextCursors(cursors, target, route) == cursors[target.model.id := Advance(cursor, route.offset + 1)]
  {
    var target := Resolve(p, name);
    j := BalancedRouteIsNearest(p, target.model, circuits, CursorOf(cursors, target), excluded, now, route);
  }
}
