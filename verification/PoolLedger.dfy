/** Placement and the pool planner together: admitted placements never take more accelerators on a node than
    it has, whatever else runs and however often workers restart. */
module PoolLedger {
  import opened Common
  import opened ControlPlaneRuns
  import opened Ledger
  import opened PlacementRules
  import B = Billing
  import P = PoolCapacity
  import Planner = PoolPlanner

  /** What the planner reads beside the reservations. */
  datatype Setting = Setting(inv: Planner.Inventory, catalog: P.Catalog, services: seq<Planner.Commitment>)

  /** The request each admitted execution was placed for: the node in its task row and the profile in its reservation. */
  type Labels = map<ExecutionId, P.Request>

  datatype Pools = Pools(db: Database, labels: Labels)

  type Table = map<ExecutionId, P.Reservation>

  // ------------------------------------------------------------------ the planner's rows

  predicate Deferred(s: Pools, e: ExecutionId) {
    Active(s.db.reservations, e) && s.db.reservations[e].authority == DevicePlugin && e in s.labels
  }

  predicate SessionCurrent(db: Database, r: Reservation) {
    r.worker in db.workers && db.workers[r.worker].session == r.session
  }

  function RowOf(r: Reservation, q: P.Request, current: bool): P.Reservation {
    P.Reservation(r.worker, current, Some(q.node), if r.vendor.Some? then r.vendor.value else q.pool.vendor, Some(q.profile),
                  if r.gpus >= 0 then r.gpus else 0)
  }

  /** `_active_deferred_accelerators`: the active device-plugin reservations as the planner sees them. */
  function Current(s: Pools): Table {
    map e | e in s.db.reservations && Deferred(s, e) ::
      RowOf(s.db.reservations[e], s.labels[e], SessionCurrent(s.db, s.db.reservations[e]))
  }

  /** The same rows as if no worker had restarted: what really runs where. */
  function Actual(s: Pools): Table {
    map e | e in s.db.reservations && Deferred(s, e) :: RowOf(s.db.reservations[e], s.labels[e], true)
  }

  /** A table's rows in some order. */
  ghost function ListOf(m: Table): seq<P.Reservation> {
    if m == map[] then []
    else
      var k := Pick(m);
      ListOf(m - {k}) + [m[k]]
  }

  ghost function Charge(g: Setting, m: Table, slot: Planner.Slot): nat {
    P.Charged(g.catalog, P.Owners(g.inv), ListOf(m), slot)
  }

  function Share(g: Setting, r: P.Reservation, slot: Planner.Slot): nat {
    P.Share(g.catalog, P.Owners(g.inv), r, slot)
  }

  // ------------------------------------------------------------- charges add up, in any order

  lemma ChargePicked(g: Setting, m: Table)
    requires m != map[]
    ensures forall slot :: Charge(g, m, slot) == Charge(g, m - {Pick(m)}, slot) + Share(g, m[Pick(m)], slot)
  {
    var k := Pick(m);
    forall slot ensures Charge(g, m, slot) == Charge(g, m - {k}, slot) + Share(g, m[k], slot) {
      ChargedAppended(g.catalog, P.Owners(g.inv), ListOf(m - {k}), m[k], slot);
    }
  }

  lemma {:induction false} ChargeWithout(g: Setting, m: Table, e: ExecutionId, slot: Planner.Slot)
    requires e in m
    ensures Charge(g, m, slot) == Charge(g, m - {e}, slot) + Share(g, m[e], slot)
    decreases |m|
  {
    var k := Pick(m);
    ChargePicked(g, m);
    if k != e {
      ChargeWithout(g, m - {k}, e, slot);
      ChargeWithout(g, m - {e}, k, slot);
      assert m - {k} - {e} == m - {e} - {k};
    }
  }

  lemma ChargeWith(g: Setting, m: Table, e: ExecutionId, r: P.Reservation, slot: Planner.Slot)
    requires e !in m
    ensures Charge(g, m[e := r], slot) == Charge(g, m, slot) + Share(g, r, slot)
  {
    ChargeWithout(g, m[e := r], e, slot);
    assert m[e := r] - {e} == m;
  }

  lemma {:induction false} SameShares(g: Setting, m: Table, n: Table, slot: Planner.Slot)
    requires m.Keys == n.Keys && forall e :: e in m ==> Share(g, m[e], slot) == Share(g, n[e], slot)
    ensures Charge(g, m, slot) == Charge(g, n, slot)
    decreases |m|
  {
    if m != map[] {
      var e := Pick(m);
      SameShares(g, m - {e}, n - {e}, slot);
      ChargeWithout(g, m, e, slot);
      ChargeWithout(g, n, e, slot);
    } else {
      assert n == map[];
    }
  }

  lemma ChargedAppended(catalog: P.Catalog, owners: P.NodeOwners, rs: seq<P.Reservation>, r: P.Reservation, slot: Planner.Slot)
    ensures P.Charged(catalog, owners, rs + [r], slot) == P.Charged(catalog, owners, rs, slot) + P.Share(catalog, owners, r, slot)
  {
    assert (rs + [r])[..|rs|] == rs;
  }

  lemma {:induction false} ChargedWithoutOne(catalog: P.Catalog, owners: P.NodeOwners, rs: seq<P.Reservation>, i: nat, slot: Planner.Slot)
    requires i < |rs|
    ensures P.Charged(catalog, owners, rs, slot)
            == P.Charged(catalog, owners, rs[..i] + rs[i + 1..], slot) + P.Share(catalog, owners, rs[i], slot)
    decreases |rs|
  {
    var front, last := rs[..|rs| - 1], rs[|rs| - 1];
    assert rs == front + [last];
    ChargedAppended(catalog, owners, front, last, slot);
    if i < |front| {
      var rest := front[..i] + front[i + 1..];
      ChargedWithoutOne(catalog, owners, front, i, slot);
      assert rs[..i] + rs[i + 1..] == rest + [last];
      ChargedAppended(catalog, owners, rest, last, slot);
    } else {
      assert rs[..i] + rs[i + 1..] == front;
    }
  }

  lemma SameRest(a: seq<P.Reservation>, b: seq<P.Reservation>, i: nat)
    requires a != [] && multiset(a) == multiset(b) && i < |b| && b[i] == a[|a| - 1]
    ensures multiset(a[..|a| - 1]) == multiset(b[..i] + b[i + 1..])
  {
    var x, y, last := multiset(a[..|a| - 1]), multiset(b[..i] + b[i + 1..]), multiset{b[i]};
    TakenOut(b, i);
    assert a == a[..|a| - 1] + [a[|a| - 1]];
    assert x + last == y + last;
    assert x == x + last - last && y == y + last - last;
  }

  /** The planner may read the rows in any order. */
  lemma {:induction false} OrderDoesNotMatter(catalog: P.Catalog, owners: P.NodeOwners, a: seq<P.Reservation>, b: seq<P.Reservation>, slot: Planner.Slot)
    requires multiset(a) == multiset(b)
    ensures P.Charged(catalog, owners, a, slot) == P.Charged(catalog, owners, b, slot)
    decreases |a|
  {
    if a == [] {
      assert |multiset(b)| == 0 && b == [];
    } else {
      var n := |a| - 1;
      assert a[n] in multiset(a) && a[n] in multiset(b);
      var i :| 0 <= i < |b| && b[i] == a[n];
      SameRest(a, b, i);
      OrderDoesNotMatter(catalog, owners, a[..n], b[..i] + b[i + 1..], slot);
      ChargedWithoutOne(catalog, owners, b, i, slot);
    }
  }

  lemma {:induction false} ListedExactly(m: Table, r: P.Reservation)
    ensures r in ListOf(m) <==> exists e :: e in m && m[e] == r
    decreases |m|
  {
    if m != map[] {
      var k := Pick(m);
      ListedExactly(m - {k}, r);
      if e :| e in m && m[e] == r {
        assert e == k || (e in m - {k} && (m - {k})[e] == r);
      }
    }
  }

  // --------------------------------------------------------------------------- invariants

  function SlotFor(q: P.Request): Planner.Slot {
    Planner.NodeSlot(P.RequestKey(q), q.pool)
  }

  /** Accelerators that placed executions and service replicas of the request's pool really hold on its node. */
  ghost function Use(g: Setting, s: Pools, q: P.Request): nat {
    Charge(g, Actual(s), SlotFor(q)) + P.ServiceUse(g.services, q.node, q.pool)
  }

  ghost predicate LabelFits(g: Setting, r: Reservation, q: P.Request) {
    && r.worker == q.worker && r.vendor == Some(q.pool.vendor) && r.gpus >= 1
    && P.ProfileFits(g.catalog, q) && P.Homogeneous(g.inv, q)
  }

  ghost predicate Labelled(g: Setting, s: Pools) {
    forall e {:trigger s.db.reservations[e]} :: Active(s.db.reservations, e) && s.db.reservations[e].authority == DevicePlugin ==>
      e in s.labels && LabelFits(g, s.db.reservations[e], s.labels[e])
  }

  /** On no node does a pool hold more than the node's compatible devices. */
  ghost predicate WithinNodes(g: Setting, s: Pools) {
    forall e {:trigger s.labels[e]} :: Deferred(s, e) ==> Use(g, s, s.labels[e]) <= P.CompatibleCount(g.inv, s.labels[e])
  }

  ghost predicate Safe(g: Setting, s: Pools) {
    Inv(s.db) && Labelled(g, s) && WithinNodes(g, s)
  }

  // -------------------------------------------------------------------------------- events

  /** A transaction; an admitted placement comes with its request and the rows its capacity was computed from. */
  datatype Event = Event(now: int, step: Step, request: P.Request, rows: seq<P.Reservation>)

  predicate Admitted(step: Step) {
    step.DoPlace? && step.placement.admission.Some?
  }

  /** The capacity in an admission is recomputed under the placement's own locks, from the current rows. */
  ghost predicate Recomputed(g: Setting, s: Pools, ev: Event) {
    Admitted(ev.step) ==>
      var p := ev.step.placement;
      && multiset(ev.rows) == multiset(ListOf(Current(s)))
      && p.admission.value.capacity == P.BatchCapacity(g.inv, ev.request, g.catalog, g.services, ev.rows)
      && ev.request.worker == p.worker && ev.request.pool.vendor == p.admission.value.vendor
  }

  function Next(s: Pools, ev: Event): Pools {
    Pools(Apply(s.db, ev.now, ev.step),
          if Admitted(ev.step) && Place(s.db, ev.step.placement.(now := ev.now)).Ok?
          then s.labels[ev.step.placement.execution := ev.request] else s.labels)
  }

  // --------------------------------------------------- what an open pool says about its rows

  lemma CountsArePositive(g: Setting, s: Pools, rows: seq<P.Reservation>)
    requires Labelled(g, s) && multiset(rows) == multiset(ListOf(Current(s)))
    ensures P.PositiveCounts(rows)
  {
    forall i | 0 <= i < |rows| ensures rows[i].count >= 1 {
      assert rows[i] in multiset(rows) && rows[i] in ListOf(Current(s));
      ListedExactly(Current(s), rows[i]);
    }
  }

  lemma RowIsRead(g: Setting, s: Pools, rows: seq<P.Reservation>, e: ExecutionId)
    requires multiset(rows) == multiset(ListOf(Current(s))) && Deferred(s, e)
    ensures Current(s)[e] in rows
  {
    ListedExactly(Current(s), Current(s)[e]);
    assert Current(s)[e] in multiset(ListOf(Current(s)));
  }

  lemma RowsOf(g: Setting, s: Pools, e: ExecutionId)
    requires Labelled(g, s) && Deferred(s, e)
    ensures var q, seen := s.labels[e], Current(s)[e];
            && seen.vendor == q.pool.vendor && seen.profile == Some(q.profile) && q.profile in g.catalog
            && g.catalog[q.profile].vendor == q.pool.vendor && g.catalog[q.profile].resource == q.pool.resource
            && Actual(s)[e] == seen.(sameSession := true)
            && seen.sameSession == SessionCurrent(s.db, s.db.reservations[e])
  {
  }

  /** While a pool is open, every execution that really uses it is charged to its node. */
  lemma OpenPoolSeesAll(g: Setting, s: Pools, q: P.Request, rows: seq<P.Reservation>, e: ExecutionId)
    requires Labelled(g, s) && multiset(rows) == multiset(ListOf(Current(s))) && Deferred(s, e)
    requires P.BatchCapacity(g.inv, q, g.catalog, g.services, rows) > 0
    ensures Share(g, Current(s)[e], SlotFor(q)) == Share(g, Actual(s)[e], SlotFor(q))
  {
    RowsOf(g, s, e);
    if !Current(s)[e].sameSession {
      P.ChargedToNodeExactly(g.inv, g.catalog, Current(s)[e], P.RequestKey(q), q.pool.vendor, q.pool.resource);
      P.ChargedToNodeExactly(g.inv, g.catalog, Actual(s)[e], P.RequestKey(q), q.pool.vendor, q.pool.resource);
      var own := s.labels[e].pool;
      if own.vendor == q.pool.vendor && own.resource == q.pool.resource {
        CountsArePositive(g, s, rows);
        RowIsRead(g, s, rows, e);
        P.LostReservationClosesPool(g.inv, q, g.catalog, g.services, rows, Current(s)[e]);
      }
    }
  }

  lemma ChargedNow(g: Setting, s: Pools, q: P.Request, rows: seq<P.Reservation>)
    requires Labelled(g, s) && multiset(rows) == multiset(ListOf(Current(s)))
    requires P.BatchCapacity(g.inv, q, g.catalog, g.services, rows) > 0
    ensures P.PositiveCounts(rows)
    ensures Planner.At(P.Usage(g.catalog, P.Owners(g.inv), rows), SlotFor(q)) == Charge(g, Actual(s), SlotFor(q))
  {
    CountsArePositive(g, s, rows);
    P.UsageIsClassified(g.catalog, P.Owners(g.inv), rows);
    OrderDoesNotMatter(g.catalog, P.Owners(g.inv), rows, ListOf(Current(s)), SlotFor(q));
    forall e | e in Current(s) ensures Share(g, Current(s)[e], SlotFor(q)) == Share(g, Actual(s)[e], SlotFor(q)) {
      OpenPoolSeesAll(g, s, q, rows, e);
    }
    SameShares(g, Current(s), Actual(s), SlotFor(q));
  }

  /** A positive capacity is exactly what is left of the node's compatible devices. */
  lemma CapacityIsWhatIsLeft(g: Setting, s: Pools, q: P.Request, rows: seq<P.Reservation>)
    requires Labelled(g, s) && multiset(rows) == multiset(ListOf(Current(s)))
    requires P.BatchCapacity(g.inv, q, g.catalog, g.services, rows) > 0
    ensures P.Homogeneous(g.inv, q) && P.ProfileFits(g.catalog, q)
    ensures Use(g, s, q) + P.BatchCapacity(g.inv, q, g.catalog, g.services, rows) == P.CompatibleCount(g.inv, q)
  {
    var deferred := P.Usage(g.catalog, P.Owners(g.inv), rows);
    ChargedNow(g, s, q, rows);
    P.PositiveCapacity(g.inv, q, g.services, deferred);
    P.CapacityIsExact(g.inv, q, g.services, deferred);
  }

  // ------------------------------------------------------------------------------ placements

  /** What an admitted placement adds: one reservation of the request, with as many accelerators as the task asked for. */
  ghost predicate Adds(s: Pools, next: Pools, e: ExecutionId, q: P.Request, k: nat) {
    && !Active(s.db.reservations, e) && Active(next.db.reservations, e)
    && next.labels == s.labels[e := q]
    && next.db.reservations == s.db.reservations[e := next.db.reservations[e]]
    && var r := next.db.reservations[e];
       r.authority == DevicePlugin && r.worker == q.worker && r.vendor == Some(q.pool.vendor) && r.gpus == k
  }

  lemma AdmittedPlacementAdds(g: Setting, s: Pools, ev: Event)
    requires Inv(s.db) && Admitted(ev.step) && Recomputed(g, s, ev) && Place(s.db, ev.step.placement.(now := ev.now)).Ok?
    ensures ev.step.placement.task in s.db.tasks
    ensures var p := ev.step.placement; var k := s.db.tasks[p.task].gpus;
            && 1 <= k <= P.BatchCapacity(g.inv, ev.request, g.catalog, g.services, ev.rows)
            && Adds(s, Next(s, ev), p.execution, ev.request, k)
  {
    PlaceSucceedsExactly(s.db, ev.step.placement.(now := ev.now));
  }

  lemma ActualAfterAdding(s: Pools, next: Pools, e: ExecutionId, q: P.Request, k: nat)
    requires Adds(s, next, e, q, k)
    ensures e !in Actual(s) && Actual(next) == Actual(s)[e := P.Placed(q, k)]
  {
    forall x | x != e ensures Deferred(next, x) <==> Deferred(s, x) {
      assert x in next.db.reservations <==> x in s.db.reservations;
    }
  }

  /** A request's use after a placement for `q`: it rises by `k` on the same slot and stays on every other. */
  lemma UseAfterAdding(g: Setting, s: Pools, next: Pools, e: ExecutionId, q: P.Request, k: nat, other: P.Request)
    requires Adds(s, next, e, q, k) && Share(g, P.Placed(q, k), SlotFor(q)) == k
    ensures Use(g, next, other) == Use(g, s, other) + if SlotFor(other) == SlotFor(q) then k else 0
  {
    ActualAfterAdding(s, next, e, q, k);
    ChargeWith(g, Actual(s), e, P.Placed(q, k), SlotFor(other));
  }

  lemma PlacedIsCharged(g: Setting, q: P.Request, rows: seq<P.Reservation>, k: nat)
    requires P.NamesValidated(g.inv) && P.BatchCapacity(g.inv, q, g.catalog, g.services, rows) > 0
    ensures Share(g, P.Placed(q, k), SlotFor(q)) == k
  {
    P.PlacedAtItsNode(g.inv, q, g.catalog, g.services, P.Usage(g.catalog, P.Owners(g.inv), rows), k);
  }

  lemma AddingStaysWithin(g: Setting, s: Pools, next: Pools, e: ExecutionId, q: P.Request, k: nat, x: ExecutionId)
    requires Labelled(g, s) && WithinNodes(g, s) && Adds(s, next, e, q, k) && Deferred(next, x)
    requires P.Homogeneous(g.inv, q) && Share(g, P.Placed(q, k), SlotFor(q)) == k && Use(g, s, q) + k <= P.CompatibleCount(g.inv, q)
    ensures Use(g, next, next.labels[x]) <= P.CompatibleCount(g.inv, next.labels[x])
  {
    UseAfterAdding(g, s, next, e, q, k, next.labels[x]);
    if x != e {
      assert Deferred(s, x) && s.labels[x] == next.labels[x] && LabelFits(g, s.db.reservations[x], s.labels[x]);
      if SlotFor(s.labels[x]) == SlotFor(q) {
        P.SameSlotSameDevices(g.inv, s.labels[x], q);
      }
    }
  }

  lemma AdmittedPlacementIsSafe(g: Setting, s: Pools, ev: Event)
    requires Safe(g, s) && P.NamesValidated(g.inv) && Admitted(ev.step) && Recomputed(g, s, ev)
    requires Place(s.db, ev.step.placement.(now := ev.now)).Ok?
    ensures Labelled(g, Next(s, ev)) && WithinNodes(g, Next(s, ev))
  {
    var p, q, next := ev.step.placement, ev.request, Next(s, ev);
    var k := s.db.tasks[p.task].gpus;
    AdmittedPlacementAdds(g, s, ev);
    CapacityIsWhatIsLeft(g, s, q, ev.rows);
    PlacedIsCharged(g, q, ev.rows, k);
    AddingKeepsLabels(g, s, next, p.execution, q, k);
    forall x | Deferred(next, x) ensures Use(g, next, next.labels[x]) <= P.CompatibleCount(g.inv, next.labels[x]) {
      AddingStaysWithin(g, s, next, p.execution, q, k, x);
    }
  }

  lemma AddingKeepsLabels(g: Setting, s: Pools, next: Pools, e: ExecutionId, q: P.Request, k: nat)
    requires Labelled(g, s) && Adds(s, next, e, q, k) && k >= 1 && P.ProfileFits(g.catalog, q) && P.Homogeneous(g.inv, q)
    ensures Labelled(g, next)
  {
  }

  // ---------------------------------------------------------------------- everything else

  /** No deferred reservation is added and none changes what it holds. */
  ghost predicate AddsNone(s: Pools, next: Pools) {
    && next.labels == s.labels
    && forall e :: Active(next.db.reservations, e) && next.db.reservations[e].authority == DevicePlugin ==>
         Active(s.db.reservations, e) && B.SameHolder(s.db.reservations[e], next.db.reservations[e])
  }

  lemma {:induction false} FewerRowsChargeLess(g: Setting, m: Table, n: Table, slot: Planner.Slot)
    requires n.Keys <= m.Keys && forall e :: e in n ==> n[e] == m[e]
    ensures Charge(g, n, slot) <= Charge(g, m, slot)
    decreases |m|
  {
    if m != map[] {
      var e := Pick(m);
      FewerRowsChargeLess(g, m - {e}, n - {e}, slot);
      ChargeWithout(g, m, e, slot);
      if e in n {
        ChargeWithout(g, n, e, slot);
      } else {
        assert n - {e} == n;
      }
    } else {
      assert n == map[];
    }
  }

  lemma AddingNoneIsSafe(g: Setting, s: Pools, next: Pools)
    requires Labelled(g, s) && WithinNodes(g, s) && AddsNone(s, next)
    ensures Labelled(g, next) && WithinNodes(g, next)
  {
    forall e | e in Actual(next) ensures e in Actual(s) && Actual(next)[e] == Actual(s)[e] {
      assert Deferred(next, e) && Deferred(s, e);
    }
    forall e | Deferred(next, e) ensures Use(g, next, next.labels[e]) <= P.CompatibleCount(g.inv, next.labels[e]) {
      FewerRowsChargeLess(g, Actual(s), Actual(next), SlotFor(next.labels[e]));
      assert Deferred(s, e) && s.labels[e] == next.labels[e];
    }
  }

  lemma OtherPlacementAddsNone(s: Pools, ev: Event)
    requires ev.step.DoPlace? && !(Admitted(ev.step) && Place(s.db, ev.step.placement.(now := ev.now)).Ok?)
    ensures AddsNone(s, Next(s, ev))
  {
    var p := ev.step.placement.(now := ev.now);
    if Place(s.db, p).Ok? {
      assert Placed(s.db, p).reservations[p.execution].authority == ExactDevice;
    }
  }

  lemma OtherStepAddsNone(s: Pools, ev: Event)
    requires !ev.step.DoPlace?
    ensures AddsNone(s, Next(s, ev))
  {
    var db, next := s.db, Apply(s.db, ev.now, ev.step);
    forall e | Active(next.reservations, e) && next.reservations[e].authority == DevicePlugin
      ensures Active(db.reservations, e) && B.SameHolder(db.reservations[e], next.reservations[e]) {
      B.StepKeepsTerms(db, ev.now, ev.step, e);
      NothingNew(db, ev.now, ev.step, e);
    }
  }

  lemma NothingNew(db: Database, now: int, step: Step, e: ExecutionId)
    requires !step.DoPlace? && Active(Apply(db, now, step).reservations, e)
    ensures Active(db.reservations, e)
  {
    match step
    case DoRelease(_, _) =>
    case DoObserve(_, _) =>
    case _ => B.OthersKeepExecutions(db, now, step);
  }

  lemma StepIsSafe(g: Setting, s: Pools, ev: Event)
    requires Safe(g, s) && P.NamesValidated(g.inv) && Recomputed(g, s, ev)
    ensures Safe(g, Next(s, ev))
  {
    StepKeepsInv(s.db, ev.now, ev.step);
    if Admitted(ev.step) && Place(s.db, ev.step.placement.(now := ev.now)).Ok? {
      AdmittedPlacementIsSafe(g, s, ev);
    } else {
      if ev.step.DoPlace? {
        OtherPlacementAddsNone(s, ev);
      } else {
        OtherStepAddsNone(s, ev);
      }
      AddingNoneIsSafe(g, s, Next(s, ev));
    }
  }

  // -------------------------------------------------------------------------------- every run

  ghost predicate AllRecomputed(g: Setting, s: Pools, events: seq<Event>)
    decreases |events|
  {
    events != [] ==> Recomputed(g, s, events[0]) && AllRecomputed(g, Next(s, events[0]), events[1..])
  }

  function After(s: Pools, events: seq<Event>): Pools
    decreases |events|
  {
    if events == [] then s else After(Next(s, events[0]), events[1..])
  }

  lemma {:induction false} RunIsSafe(g: Setting, s: Pools, events: seq<Event>)
    requires Safe(g, s) && P.NamesValidated(g.inv) && AllRecomputed(g, s, events)
    ensures Safe(g, After(s, events))
    decreases |events|
  {
    if events != [] {
      StepIsSafe(g, s, events[0]);
      RunIsSafe(g, Next(s, events[0]), events[1..]);
    }
  }

  /** In every run from empty tables, with worker restarts, releases and all other transactions in between,
      what admitted executions and service replicas hold of a pool on a node stays within the node's
      compatible devices. */
  lemma EveryRunStaysWithinNodes(g: Setting, events: seq<Event>)
    requires P.NamesValidated(g.inv) && AllRecomputed(g, Pools(EMPTY, map[]), events)
    ensures Safe(g, After(Pools(EMPTY, map[]), events))
  {
    EmptyTables();
    RunIsSafe(g, Pools(EMPTY, map[]), events);
  }
}
