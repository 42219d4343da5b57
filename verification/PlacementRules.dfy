/** When a placement succeeds, on the fields of the task, worker, admission, device and quota rows. */
module PlacementRules {
  import opened Accelerators
  import opened Common
  import opened ControlPlaneRuns
  import opened Ledger
  import opened LedgerAccounts
  import opened TaskStates
  import Bindings = LedgerBindings
  import Queue = LedgerQueue
  import Q = Quotas

  // ------------------------------------------------------------------------- the rules

  /** The worker accepts tasks and has a slot, CPU and memory left for this one. */
  predicate WorkerHasRoom(w: Worker, t: Task) {
    && w.status == Online && !w.overcommitted && w.running + 1 <= w.concurrency
    && w.cpu + t.cpu <= w.cpuAllocatable && w.memory + t.memory <= w.memoryAllocatable
  }

  /** The admission is for this worker in its current session, names its node, and its pool has enough
      accelerators left; it binds no device rows. */
  predicate AdmissionHolds(a: Admission, w: Worker, t: Task, p: Placement) {
    && a.worker == p.worker && a.session == w.session && a.hasNode && a.hasCatalog && a.capabilitiesValid
    && p.requested == {} && 1 <= t.gpus <= a.capacity
  }

  /** The requested devices that are healthy NVIDIA devices of the worker. */
  ghost function UsableRequested(devices: map<DeviceId, Device>, p: Placement): set<DeviceId> {
    set d | d in p.requested && d in devices && devices[d].worker == p.worker && devices[d].healthy && devices[d].vendor == Nvidia
  }

  /** As many of the requested devices are usable as the task wants, and none of the requested is taken. */
  ghost predicate DevicesHold(db: Database, t: Task, p: Placement) {
    && |UsableRequested(db.devices, p)| == t.gpus
    && forall e, d {:trigger Bound(db.links, e, d)} :: d in p.requested ==> !Bound(db.links, e, d)
  }

  predicate LeavesRoom(limit: Option<int>, used: int) {
    limit.Some? ==> used <= limit.value
  }

  /** Accelerators of one vendor that the task takes. */
  function Taken(t: Task, vendor: Option<Vendor>, of: Vendor): int {
    if vendor == Some(of) then t.gpus else 0
  }

  /** The project's limits leave room for one more execution of the task, and today's cost limit is not
      exceeded. */
  predicate QuotaHasRoom(q: Q.Quota, day: int, t: Task, vendor: Option<Vendor>) {
    var c, l := q.counters, q.limits;
    && LeavesRoom(l.running, c.running + c.replicas + 1)
    && LeavesRoom(l.cpu, c.cpu + c.serviceCpu + t.cpu)
    && LeavesRoom(l.memory, c.memory + c.serviceMemory + t.memory)
    && LeavesRoom(l.gpus, c.gpus + c.serviceGpus + t.gpus)
    && LeavesRoom(l.nvidia, c.nvidia + c.serviceNvidia + Taken(t, vendor, Nvidia))
    && LeavesRoom(l.ascend, c.ascend + c.serviceAscend + Taken(t, vendor, Ascend))
    && (l.dailyCost.Some? && c.day == day ==> c.settledCost + c.reservedCost <= l.dailyCost.value)
  }

  /** No active reservation is held for the task yet. */
  ghost predicate Unreserved(db: Database, id: TaskId) {
    forall e {:trigger db.reservations[e]} :: e in db.reservations && db.reservations[e].task == id ==> db.reservations[e].released
  }

  /** Everything but the quota's room. */
  ghost predicate Unobstructed(db: Database, p: Placement) {
    && p.task in db.tasks && p.worker in db.workers && p.ready && p.fits
    && p.execution !in db.executions && p.execution !in db.reservations
    && var t, w := db.tasks[p.task], db.workers[p.worker];
       && t.status == Queued && !t.cancelRequested && t.cpu > 0 && t.memory > 0 && t.gpus >= 0
       && Unreserved(db, p.task) && t.project in db.quotas && WorkerHasRoom(w, t)
       && (if p.admission.Some? then AdmissionHolds(p.admission.value, w, t, p) else DevicesHold(db, t, p))
  }

  /** The vendor whose accelerators the task takes. */
  function VendorTaken(t: Task, p: Placement): Option<Vendor> {
    if t.gpus == 0 then None else if p.admission.None? then Some(Nvidia) else Some(p.admission.value.vendor)
  }

  ghost predicate Placeable(db: Database, p: Placement) {
    && Unobstructed(db, p)
    && var t := db.tasks[p.task]; QuotaHasRoom(db.quotas[t.project], Day(p.now), t, VendorTaken(t, p))
  }

  // --------------------------------------------------------------- the checks are the rules

  lemma WorkerCheckMeans(w: Worker, t: Task, p: Placement)
    ensures WorkerCheck(w, t, p).None? <==>
            && WorkerHasRoom(w, t)
            && (p.admission.Some? ==> var a := p.admission.value;
                                      a.worker == p.worker && a.session == w.session && a.hasNode && p.requested == {})
  {
  }

  lemma SomeBoundMeans(links: Links, requested: set<DeviceId>)
    ensures SomeBound(links, requested) <==> exists e, d {:trigger Bound(links, e, d)} :: d in requested && Bound(links, e, d)
  {
    if SomeBound(links, requested) {
      var link :| link in links && links[link] && link.1 in requested;
      assert Bound(links, link.0, link.1);
    }
    if e: ExecutionId, d: DeviceId :| d in requested && Bound(links, e, d) {
      assert (e, d) in links && links[(e, d)];
    }
  }

  lemma DeviceCheckMeans(db: Database, t: Task, p: Placement)
    ensures DeviceCheck(db, t, p).None? <==>
            if p.admission.Some? then p.admission.value.hasCatalog && p.admission.value.capabilitiesValid && t.gpus <= p.admission.value.capacity
            else DevicesHold(db, t, p)
  {
    if p.admission.None? {
      SomeBoundMeans(db.links, p.requested);
      assert Chosen(db.devices, p) == UsableRequested(db.devices, p);
      if p.requested == {} {
        assert UsableRequested(db.devices, p) == {};
      }
    }
  }

  lemma TaskBusyMeans(db: Database, id: TaskId)
    ensures !TaskBusy(db.reservations, id) <==> Unreserved(db, id)
  {
  }

  lemma PlaceCheckMeans(db: Database, p: Placement)
    requires QuotasBalanced(db.quotas, db.reservations)
    ensures PlaceCheck(db, p).None? <==> Unobstructed(db, p)
  {
    if p.task in db.tasks && p.worker in db.workers {
      var t := db.tasks[p.task];
      WorkerCheckMeans(db.workers[p.worker], t, p);
      DeviceCheckMeans(db, t, p);
      TaskBusyMeans(db, p.task);
      if t.project in db.quotas {
        assert QuotaOwes(db.quotas[t.project], Held(db.reservations, OfProject(t.project)));
      }
    }
  }

  lemma ReserveMeansRoom(q: Q.Quota, day: int, t: Task, vendor: Option<Vendor>)
    requires Q.Inv(q) && q.counters.queued >= 1 && t.cpu >= 0 && t.memory >= 0 && t.gpus >= 0 && (t.gpus == 0 <==> vendor.None?)
    ensures Q.Reserve(q, day, Q.Request(t.cpu, t.memory, t.gpus, vendor, 0.0)).Ok? <==> QuotaHasRoom(q, day, t, vendor)
  {
  }

  lemma FinalCheckMeans(db: Database, p: Placement)
    requires Inv(db) && PlaceCheck(db, p).None? && Unobstructed(db, p)
    ensures FinalCheck(db, p).None? <==> Placeable(db, p)
  {
    var t, r := db.tasks[p.task], ReservationFor(db, p);
    Bindings.PlacementBindsExactly(db, p);
    Queue.WaitingIsCounted(db, p.task);
    assert QuotaOwes(db.quotas[t.project], Held(db.reservations, OfProject(t.project)));
    ReserveMeansRoom(db.quotas[t.project], Day(p.now), t, r.vendor);
  }

  /** A placement succeeds exactly when the task is queued, ready and unreserved, the worker accepts it and
      has room, the admission or the requested devices hold, and the project's quota has room. */
  lemma PlaceSucceedsExactly(db: Database, p: Placement)
    requires Inv(db)
    ensures Place(db, p).Ok? <==> Placeable(db, p)
  {
    PlaceCheckMeans(db, p);
    if Unobstructed(db, p) {
      FinalCheckMeans(db, p);
    }
  }

  /** The devices a placement binds are exactly the requested healthy NVIDIA devices of its worker, and an
      admitted placement binds none. */
  lemma PlacementBinds(db: Database, p: Placement, d: DeviceId)
    requires Inv(db) && Place(db, p).Ok?
    ensures Bound(Placed(db, p).links, p.execution, d) <==> p.admission.None? && d in UsableRequested(db.devices, p)
  {
    Bindings.FreshExecutionHasNoLinks(db, p.execution);
    Bindings.BoundAfterNewLinks(db.links, p.execution, Chosen(db.devices, p), p.execution, d);
  }
}
