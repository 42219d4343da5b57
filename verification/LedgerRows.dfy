/** What single rows say after a transaction: execution rows mirror their reservations, inventory rows follow
    reports, and stale sessions change nothing. */
module LedgerRows {
  import opened Common
  import opened ControlPlaneRuns
  import opened Ledger
  import opened TaskStates
  import B = Billing

  // ---------------------------------------------------------- executions mirror reservations

  /** An execution and its reservation were written for the same placement and show the same devices. */
  predicate Mirrors(x: Execution, r: Reservation) {
    && x.task == r.task && x.worker == r.worker && x.authority == r.authority
    && x.cpu == r.cpu && x.memory == r.memory && x.gpus == r.gpus && x.observed == r.observed
    && (x.finishedAt.Some? <==> r.released)
  }

  ghost predicate AllMirrored(db: Database) {
    db.executions.Keys == db.reservations.Keys
    && forall e {:trigger db.reservations[e]} {:trigger db.executions[e]} :: e in db.reservations ==>
         Mirrors(db.executions[e], db.reservations[e])
  }

  lemma PlaceMirrors(db: Database, p: Placement)
    requires AllMirrored(db) && Place(db, p).Ok?
    ensures AllMirrored(Placed(db, p))
  {
  }

  lemma ReleaseMirrors(db: Database, e: ExecutionId, now: int, final: TaskStatus)
    requires AllMirrored(db) && Active(db.reservations, e) && ReleaseCheck(db, e, now).None?
    ensures AllMirrored(Released(db, e, now, final))
  {
  }

  lemma MarkMirrors(db: Database, e: ExecutionId, o: Option<Observation>)
    requires AllMirrored(db) && e in db.reservations
    ensures AllMirrored(db.(reservations := db.reservations[e := db.reservations[e].(observed := o)],
                            executions := db.executions[e := db.executions[e].(observed := o)]))
  {
  }

  lemma StepMirrors(db: Database, now: int, step: Step)
    requires AllMirrored(db)
    ensures AllMirrored(Apply(db, now, step))
  {
    match step
    case DoPlace(p) =>
      if Place(db, p.(now := now)).Ok? {
        PlaceMirrors(db, p.(now := now));
      }
    case DoRelease(e, final) =>
      if Active(db.reservations, e) && ReleaseCheck(db, e, now).None? {
        ReleaseMirrors(db, e, now, final);
      }
    case DoObserve(e, o) =>
      if Observe(db, e, o).Ok? && Observe(db, e, o).value.1 {
        MarkMirrors(db, e, Some(o));
      }
    case _ => B.OthersKeepExecutions(db, now, step);
  }

  lemma {:induction false} RunMirrors(db: Database, steps: seq<(int, Step)>)
    requires AllMirrored(db)
    ensures AllMirrored(Run(db, steps))
    decreases |steps|
  {
    if steps != [] {
      StepMirrors(db, steps[0].0, steps[0].1);
      RunMirrors(Apply(db, steps[0].0, steps[0].1), steps[1..]);
    }
  }

  /** In every run each execution row agrees with its reservation on what was placed, what was observed and
      whether it has finished. */
  lemma EveryRunMirrors(steps: seq<(int, Step)>)
    ensures AllMirrored(Run(EMPTY, steps))
  {
    RunMirrors(EMPTY, steps);
  }

  // ------------------------------------------------------------------------- observations

  /** The ids are distinct and none is blank. */
  predicate ProperIds(ids: seq<string>) {
    (forall i :: 0 <= i < |ids| ==> |ids[i]| >= 1) && (forall i, j :: 0 <= i < |ids| && 0 <= j < |ids| && i != j ==> ids[i] != ids[j])
  }

  /** An observation is accepted exactly for an active device-plugin execution, with as many proper ids of its
      vendor as it holds accelerators, unless a different one was recorded; it is new exactly when none was. */
  lemma ObserveSucceedsExactly(db: Database, e: ExecutionId, o: Observation)
    requires Inv(db) && AllMirrored(db)
    ensures Observe(db, e, o).Ok? <==>
            && ProperIds(o.ids) && e in db.reservations && !db.reservations[e].released
            && var r := db.reservations[e];
               && r.authority == DevicePlugin && r.vendor == Some(o.vendor) && |o.ids| == r.gpus
               && (r.observed.Some? ==> r.observed.value == o)
    ensures Observe(db, e, o).Ok? ==> (Observe(db, e, o).value.1 <==> db.reservations[e].observed.None?)
  {
    assert (exists i :: 0 <= i < |o.ids| && o.ids[i] == "") || !NoRepeats(o.ids) <==> !ProperIds(o.ids) by {
      assert forall i :: 0 <= i < |o.ids| ==> (o.ids[i] == "" <==> |o.ids[i]| == 0);
    }
    if Active(db.reservations, e) && db.reservations[e].authority == DevicePlugin {
      assert db.executions[e].authority == DevicePlugin && db.executions[e].observed == db.reservations[e].observed;
      NoLinks(db, e);
    }
  }

  /** No link was ever written for a device-plugin reservation. */
  lemma NoLinks(db: Database, e: ExecutionId)
    requires Inv(db) && Active(db.reservations, e) && db.reservations[e].authority == DevicePlugin
    ensures forall link {:trigger db.links[link]} :: link in db.links ==> link.0 != e
  {
  }

  // ------------------------------------------------------------------------------- workers

  /** A message from an ended session, or for an unknown worker, changes nothing. */
  lemma StaleSessionChangesNothing(db: Database, id: WorkerId, session: nat, status: WorkerStatus, items: seq<Item>, added: map<DeviceId, string>)
    requires id !in db.workers || db.workers[id].session != session
    ensures Heartbeat(db, id, Some(session)) == db && SetStatus(db, id, status, Some(session)) == db
    ensures FreshIds(db.devices, id, ReportsOf(items), added) ==> ReplaceInventory(db, id, session, items, added) == Err(Stale)
  {
  }

  /** A current message sets the status and nothing else; a heartbeat does not end draining. */
  lemma CurrentSessionSetsStatus(db: Database, id: WorkerId, session: Option<nat>, status: WorkerStatus)
    requires id in db.workers && (session.Some? ==> db.workers[id].session == session.value)
    ensures SetStatus(db, id, status, session) == db.(workers := db.workers[id := db.workers[id].(status := status)])
    ensures db.workers[id].status == Draining ==> Heartbeat(db, id, session) == db
    ensures db.workers[id].status != Draining ==> Heartbeat(db, id, session) == SetStatus(db, id, Online, session)
  {
    assert db.workers[id := db.workers[id]] == db.workers;
  }

  /** Registration takes over the reported machine, keeps what is reserved, and drains the worker exactly when
      more is reserved than the machine has. */
  lemma RegistrationSets(db: Database, id: WorkerId, g: Registration)
    ensures var next := Register(db, id, g);
            && id in next.workers && next == db.(workers := db.workers[id := next.workers[id]])
            && var w := next.workers[id];
               && w.session == g.session && w.concurrency == g.concurrency && w.gpuCount == g.gpuCount
               && w.cpuAllocatable == 1000 * g.cpuCount && w.memoryAllocatable == g.memory
               && (w.overcommitted <==> w.cpu > w.cpuAllocatable || w.memory > w.memoryAllocatable || w.gpus > w.gpuCount)
               && w.status == (if w.overcommitted then Draining else Online)
               && if id in db.workers
                  then (w.running, w.cpu, w.memory, w.gpus)
                       == (db.workers[id].running, db.workers[id].cpu, db.workers[id].memory, db.workers[id].gpus)
                  else (w.running, w.cpu, w.memory, w.gpus) == (0, 0, 0, 0)
  {
  }

  // ----------------------------------------------------------------------------- inventory

  /** Item `i` is the last one reported for its device. */
  predicate LastWord(items: seq<Item>, i: nat) {
    i < |items| && forall j :: i < j < |items| ==> items[j].uuid != items[i].uuid
  }

  predicate Reports(items: seq<Item>, uuid: string) {
    exists i :: 0 <= i < |items| && items[i].uuid == uuid
  }

  lemma {:induction false} LastWordCounts(items: seq<Item>, uuid: string)
    ensures uuid in ReportsOf(items) <==> Reports(items, uuid)
    ensures forall i: nat {:trigger LastWord(items, i)} :: LastWord(items, i) && items[i].uuid == uuid ==> ReportsOf(items)[uuid] == items[i].report
  {
    if items != [] {
      var n, front := |items| - 1, items[..|items| - 1];
      LastWordCounts(front, uuid);
      assert Reports(items, uuid) <==> Reports(front, uuid) || items[n].uuid == uuid by {
        if Reports(front, uuid) {
          var i :| 0 <= i < |front| && front[i].uuid == uuid;
          assert items[i].uuid == uuid;
        }
      }
      forall i: nat | LastWord(items, i) && items[i].uuid == uuid ensures ReportsOf(items)[uuid] == items[i].report {
        if i < n {
          assert LastWord(front, i) && front[i] == items[i] && items[n].uuid != uuid;
        }
      }
    }
  }

  /** What a stored report says about one device row. */
  ghost predicate FollowsReport(before: map<DeviceId, Device>, after: map<DeviceId, Device>, id: WorkerId, items: seq<Item>, d: DeviceId)
    requires d in after
  {
    if after[d].worker != id then d in before && after[d] == before[d]
    else if Reports(items, after[d].uuid) then
      forall i: nat {:trigger LastWord(items, i)} :: LastWord(items, i) && items[i].uuid == after[d].uuid ==>
        after[d].vendor == items[i].report.vendor && after[d].healthy == items[i].report.healthy
    else d in before && !after[d].healthy && after[d].vendor == before[d].vendor && after[d].uuid == before[d].uuid
  }

  lemma ReportedRow(before: map<DeviceId, Device>, id: WorkerId, items: seq<Item>, added: map<DeviceId, string>, d: DeviceId)
    requires FreshIds(before, id, ReportsOf(items), added) && d in Inventoried(before, id, ReportsOf(items), added)
    ensures FollowsReport(before, Inventoried(before, id, ReportsOf(items), added), id, items, d)
  {
    LastWordCounts(items, Inventoried(before, id, ReportsOf(items), added)[d].uuid);
  }

  /** A stored report: every reported device has a row with what was said last, the worker's other devices are
      unhealthy, other workers' devices are untouched, none disappears, and the worker counts its items. */
  lemma InventoryFollowsReport(db: Database, id: WorkerId, session: nat, items: seq<Item>, added: map<DeviceId, string>)
    requires FreshIds(db.devices, id, ReportsOf(items), added) && ReplaceInventory(db, id, session, items, added).Ok?
    ensures var next := ReplaceInventory(db, id, session, items, added).value;
            && db.devices.Keys <= next.devices.Keys && id in next.workers && next.workers[id].gpuCount == |items|
            && (forall d {:trigger next.devices[d]} :: d in next.devices ==> FollowsReport(db.devices, next.devices, id, items, d))
            && (forall i :: 0 <= i < |items| ==> Known(next.devices, id, items[i].uuid))
  {
    var next := ReplaceInventory(db, id, session, items, added).value;
    forall d | d in next.devices ensures FollowsReport(db.devices, next.devices, id, items, d) {
      ReportedRow(db.devices, id, items, added, d);
    }
    forall i | 0 <= i < |items| ensures Known(next.devices, id, items[i].uuid) {
      LastWordCounts(items, items[i].uuid);
      ReportedDeviceIsKnown(db.devices, id, ReportsOf(items), added, items[i].uuid);
    }
  }

  lemma ReportedDeviceIsKnown(devices: map<DeviceId, Device>, id: WorkerId, reported: map<string, Report>, added: map<DeviceId, string>, uuid: string)
    requires FreshIds(devices, id, reported, added) && uuid in reported
    ensures Known(Inventoried(devices, id, reported, added), id, uuid)
  {
    var next := Inventoried(devices, id, reported, added);
    if Known(devices, id, uuid) {
      var d :| d in devices && devices[d].worker == id && devices[d].uuid == uuid;
      assert d in next && next[d].worker == id && next[d].uuid == uuid;
    } else {
      assert uuid in added.Values;
      var d :| d in added && added[d] == uuid;
      assert d in next && next[d].worker == id && next[d].uuid == uuid;
    }
  }

  /** A current report is refused exactly when it names a device twice that the worker did not have. */
  lemma InventoryRefusedExactly(db: Database, id: WorkerId, session: nat, items: seq<Item>, added: map<DeviceId, string>)
    requires FreshIds(db.devices, id, ReportsOf(items), added) && id in db.workers && db.workers[id].session == session
    ensures ReplaceInventory(db, id, session, items, added).Err? <==>
            exists i, j :: 0 <= i < |items| && 0 <= j < |items| && i != j && items[i].uuid == items[j].uuid
                           && forall d :: d in db.devices && db.devices[d].worker == id ==> db.devices[d].uuid != items[i].uuid
  {
    if i, j :| 0 <= i < |items| && 0 <= j < |items| && i != j && items[i].uuid == items[j].uuid
               && forall d :: d in db.devices && db.devices[d].worker == id ==> db.devices[d].uuid != items[i].uuid {
      var x, y := Min(i, j), Max(i, j);
      assert items[x].uuid == items[y].uuid && !Known(db.devices, id, items[x].uuid);
    }
  }

  // --------------------------------------------------------------------------------- tasks

  /** A task holds a place in the queue exactly while it may still be picked up or is just being picked up. */
  lemma WaitingMeans(s: TaskStatus)
    ensures Waiting(s) <==> s.IsRunnable() || s == Scheduling
    ensures Waiting(s) ==> !s.IsFinal()
  {
  }

  /** A cancelled task is marked, never placed and never cancelled again. */
  lemma CancelledStaysOut(db: Database, id: TaskId, now: int, p: Placement, later: int)
    requires CancelQueued(db, id, now).Ok? && p.task == id
    ensures var next := CancelQueued(db, id, now).value;
            && next.tasks == db.tasks[id := db.tasks[id].(status := Cancelled, cancelRequested := true)]
            && Place(next, p) == Err(Conflict(TaskNotQueued)) && CancelQueued(next, id, later).Err?
  {
  }

  // --------------------------------------------------------------------- the binding check

  /** The check fails for a wrong number of devices, a device of another vendor, and ids that were not
      recorded or are not those of the bound devices. */
  lemma BindingCheckCatches(db: Database, e: ExecutionId, r: Reservation)
    requires r.gpus != 0 && r.authority == ExactDevice
    ensures |BoundTo(db.links, db.devices, e)| != r.gpus ==> !BindingHolds(db.links, db.devices, e, r)
    ensures (exists d :: d in db.devices && Bound(db.links, e, d) && Some(db.devices[d].vendor) != r.vendor) ==>
              !BindingHolds(db.links, db.devices, e, r)
    ensures r.observed.None? ==> !BindingHolds(db.links, db.devices, e, r)
    ensures r.observed.Some? && multiset(r.observed.value.ids) != multiset(Uuids(db.devices, BoundTo(db.links, db.devices, e))) ==>
              !BindingHolds(db.links, db.devices, e, r)
  {
  }
}
