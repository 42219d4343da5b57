/** The control plane's repositories as one object over its tables. An error leaves every table as it
    was, since it aborts the surrounding transaction. Every method keeps the invariant of all runs. */
module ControlPlane {
  import opened Common
  import opened ControlPlaneRuns
  import opened Ledger
  import opened LedgerAccounts
  import opened TaskStates
  import Q = Quotas

  // ------------------------------------------------------- what the invariant gives callers

  lemma RegisterOutcome(db: Database, id: WorkerId, g: Registration)
    ensures Inv(db) ==> Inv(Register(db, id, g))
  {
    if Inv(db) {
      StepKeepsInv(db, 0, DoRegister(id, g));
    }
  }

  lemma HeartbeatOutcome(db: Database, id: WorkerId, session: Option<nat>)
    ensures Inv(db) ==> Inv(Heartbeat(db, id, session))
  {
    if Inv(db) {
      StepKeepsInv(db, 0, DoHeartbeat(id, session));
    }
  }

  lemma StatusOutcome(db: Database, id: WorkerId, status: WorkerStatus, session: Option<nat>)
    ensures Inv(db) ==> Inv(SetStatus(db, id, status, session))
  {
    if Inv(db) {
      StepKeepsInv(db, 0, DoSetStatus(id, status, session));
    }
  }

  lemma StaleOutcome(db: Database, stale: set<WorkerId>)
    ensures Inv(db) ==> Inv(MarkStale(db, stale))
  {
    if Inv(db) {
      StepKeepsInv(db, 0, DoMarkStale(stale));
    }
  }

  lemma ObserveOutcome(db: Database, e: ExecutionId, o: Observation)
    ensures Inv(db) && Observe(db, e, o).Ok? ==> Inv(Observe(db, e, o).value.0)
  {
    if Inv(db) {
      StepKeepsInv(db, 0, DoObserve(e, o));
    }
  }

  lemma InventoryStep(db: Database, id: WorkerId, session: nat, items: seq<Item>, added: map<DeviceId, string>)
    requires FreshIds(db.devices, id, ReportsOf(items), added)
    ensures Apply(db, 0, DoInventory(id, session, items, added)) == Kept(db, ReplaceInventory(db, id, session, items, added))
  {
  }

  lemma InventoryOutcome(db: Database, id: WorkerId, session: nat, items: seq<Item>, added: map<DeviceId, string>)
    requires FreshIds(db.devices, id, ReportsOf(items), added)
    ensures Inv(db) ==> Inv(Kept(db, ReplaceInventory(db, id, session, items, added)))
  {
    if Inv(db) {
      InventoryStep(db, id, session, items, added);
      StepKeepsInv(db, 0, DoInventory(id, session, items, added));
    }
  }

  lemma PlaceOutcome(db: Database, p: Placement)
    ensures Inv(db) ==> match Ledger.Place(db, p)
      case Ok(next) => Inv(next)
      case Err(f) => f.Conflict? || f.QuotaMissing? || f.Constraint? || (f.QuotaFailed? && f.error.Exceeded?)
  {
    if Inv(db) {
      if Ledger.Place(db, p).Ok? {
        assert p.(now := p.now) == p;
        StepKeepsInv(db, p.now, DoPlace(p));
      } else {
        PlacementFindsConsistency(db, p);
      }
    }
  }

  lemma ReleaseOutcome(db: Database, e: ExecutionId, now: int, final: TaskStatus)
    ensures Inv(db) ==> match Release(db, e, now, final)
      case Ok((next, done)) => Inv(next) && done == Active(db.reservations, e) && !(done && ClockBehindStart(db, e, now))
      case Err(f) => f == Constraint && Active(db.reservations, e) && ClockBehindStart(db, e, now)
  {
    if Inv(db) {
      StepKeepsInv(db, now, DoRelease(e, final));
      if Active(db.reservations, e) {
        ReleaseSucceedsExactly(db, e, now, final);
      }
    }
  }

  // --------------------------------------------------------------------- loops over rows

  /** Marks every active binding of the execution released. */
  method ReleaseLinks(links: Links, e: ExecutionId) returns (left: Links)
    ensures left == Unlinked(links, e)
  {
    left := links;
    var todo := set link | link in links && link.0 == e && links[link];
    while todo != {}
      invariant left.Keys == links.Keys && todo <= links.Keys
      invariant forall link :: link in todo ==> link.0 == e && links[link]
      invariant forall link :: link in links && link !in todo ==> left[link] == (links[link] && link.0 != e)
      decreases todo
    {
      var link :| link in todo;
      left := left[link := false];
      todo := todo - {link};
    }
  }

  /** `mark_stale_offline`, over the workers its scan returned. */
  method TakeOffline(workers: map<WorkerId, Worker>, stale: set<WorkerId>) returns (left: map<WorkerId, Worker>)
    ensures left.Keys == workers.Keys && forall id :: id in workers ==> left[id] == Expired(workers[id], id in stale)
  {
    left := workers;
    var todo := set id | id in stale && id in workers && workers[id].status == Online;
    while todo != {}
      invariant left.Keys == workers.Keys && todo <= workers.Keys
      invariant forall id :: id in todo ==> id in stale && left[id] == workers[id] && workers[id].status == Online
      invariant forall id :: id in workers && id !in todo ==> left[id] == Expired(workers[id], id in stale)
      decreases todo
    {
      var id :| id in todo;
      left := left[id := left[id].(status := Offline)];
      todo := todo - {id};
    }
  }

  /** The loop over the reported devices: a later row overwrites an earlier one. */
  method Collect(items: seq<Item>) returns (reported: map<string, Report>)
    ensures reported == ReportsOf(items)
  {
    reported := map[];
    for i := 0 to |items|
      invariant reported == ReportsOf(items[..i])
    {
      reported := reported[items[i].uuid := items[i].report];
      assert items[..i + 1][..i] == items[..i];
    }
    assert items[..|items|] == items;
  }

  /** One pass over the known and the added devices. */
  method Inventory(known: map<DeviceId, Device>, id: WorkerId, reported: map<string, Report>, added: map<DeviceId, string>)
    returns (rows: map<DeviceId, Device>)
    requires FreshIds(known, id, reported, added)
    ensures rows == Inventoried(known, id, reported, added)
  {
    ghost var next := Inventoried(known, id, reported, added);
    rows := map[];
    var todo := known.Keys + added.Keys;
    while todo != {}
      invariant todo <= next.Keys && rows.Keys == next.Keys - todo
      invariant forall d :: d in rows ==> rows[d] == next[d]
      decreases todo
    {
      var d :| d in todo;
      rows := rows[d := InventoryRow(known, id, reported, added, d)];
      todo := todo - {d};
    }
  }

  /** A restart replaces capacity, keeps what executions still hold and recomputes the flag. */
  method Restart(worker: Worker, g: Registration) returns (w: Worker)
    ensures w == Registered(worker, g)
  {
    w := worker.(session := g.session, concurrency := g.concurrency, cpuAllocatable := g.cpuCount * 1000);
    w := w.(memoryAllocatable := g.memory, gpuCount := g.gpuCount);
    w := w.(overcommitted := w.cpu > w.cpuAllocatable || w.memory > w.memoryAllocatable || w.gpus > w.gpuCount);
    w := w.(status := if w.overcommitted then Draining else Online);
  }

  class Repositories {
    var workers: map<WorkerId, Worker>
    var devices: map<DeviceId, Device>
    var tasks: map<TaskId, Task>
    var quotas: map<ProjectId, Q.Quota>
    var executions: map<ExecutionId, Execution>
    var reservations: map<ExecutionId, Reservation>
    var links: Links
    var ledger: seq<Usage>

    function State(): Database
      reads this
    {
      Database(workers, devices, tasks, quotas, executions, reservations, links, ledger)
    }

    constructor ()
      ensures State() == EMPTY && Inv(State())
    {
      workers, devices, tasks, quotas := map[], map[], map[], map[];
      executions, reservations, links, ledger := map[], map[], map[], [];
      EmptyTables();
    }

    /** `SchedulingRepository.place`. */
    method Place(p: Placement) returns (refused: Option<Failure>)
      modifies this
      ensures Ledger.Place(old(State()), p) == if refused.None? then Ok(State()) else Err(refused.value)
      ensures refused.Some? ==> State() == old(State())
      ensures Inv(old(State())) ==> Inv(State())
      ensures Inv(old(State())) && refused.Some? ==>
        || refused.value.Conflict? || refused.value.QuotaMissing? || refused.value.Constraint?
        || (refused.value.QuotaFailed? && refused.value.error.Exceeded?)
    {
      ghost var before := State();
      refused := PlaceCheck(State(), p);
      if refused.None? {
        refused := FinalCheck(State(), p);
        if refused.None? {
          Insert(p);
        }
      }
      PlaceOutcome(before, p);
    }

    /** The row changes of one placement. */
    method Insert(p: Placement)
      requires PlaceCheck(State(), p).None? && FinalCheck(State(), p).None?
      modifies this
      ensures State() == Placed(old(State()), p)
    {
      var t, w, r := tasks[p.task], workers[p.worker], ReservationFor(State(), p);
      var q, x := quotas[r.project], NewExecution(State(), t, p);
      var reserved := Q.Reserve(q, Day(p.now), RequestOf(r)).value;
      tasks := tasks[p.task := t.(status := Assigned, startedAt := None, cancelRequested := false)];
      workers := workers[p.worker := Loaded(w, t)];
      executions := executions[p.execution := x];
      reservations := reservations[p.execution := r];
      links := NewLinks(links, p.execution, Chosen(devices, p));
      quotas := quotas[r.project := q.(counters := reserved)];
    }

    /** `ReservationRepository.release_and_settle`: in a consistent state it answers whether the execution
        was still active, and fails only when the clock is behind the task's recorded start. */
    method ReleaseAndSettle(e: ExecutionId, now: int, final: TaskStatus) returns (released: Result<bool, Failure>)
      modifies this
      ensures match Release(old(State()), e, now, final)
              case Ok((next, done)) => released == Ok(done) && State() == next
              case Err(f) => released == Err(f) && State() == old(State())
      ensures Inv(old(State())) ==> Inv(State())
      ensures Inv(old(State())) ==>
        if old(Active(reservations, e)) && ClockBehindStart(old(State()), e, now) then released == Err(Constraint)
        else released == Ok(old(Active(reservations, e)))
    {
      ghost var before := State();
      released := Ok(false);
      if Active(reservations, e) {
        var refused := ReleaseCheck(State(), e, now);
        if refused.Some? {
          released := Err(refused.value);
        } else {
          Withdraw(e, now, final);
          released := Ok(true);
        }
      }
      ReleaseOutcome(before, e, now, final);
    }

    /** The row changes of one release. */
    method Withdraw(e: ExecutionId, now: int, final: TaskStatus)
      requires e in reservations && ReleaseCheck(State(), e, now).None?
      modifies this
      ensures State() == Released(old(State()), e, now, final)
    {
      var r, usage := reservations[e], NewUsage(State(), e, now);
      var q := quotas[r.project];
      var settled := Q.Release(q, Day(now), SettlementOf(r, usage)).value;
      FreeCapacity(e);
      Settle(e, now, final, usage, settled);
    }

    /** Gives back the worker's capacity and the devices. */
    method FreeCapacity(e: ExecutionId)
      requires e in reservations
      modifies `workers, `links
      ensures var r := reservations[e];
              workers == if r.worker in old(workers) then old(workers)[r.worker := Unloaded(old(workers)[r.worker], r)] else old(workers)
      ensures links == Unlinked(old(links), e)
    {
      var r := reservations[e];
      if r.worker in workers {
        workers := workers[r.worker := Unloaded(workers[r.worker], r)];
      }
      links := ReleaseLinks(links, e);
    }

    /** Closes the reservation and its execution, and writes the usage row and the quota. */
    method Settle(e: ExecutionId, now: int, final: TaskStatus, usage: Option<Usage>, c: Q.Counters)
      requires e in reservations && e in executions && reservations[e].project in quotas
      modifies `reservations, `executions, `ledger, `quotas
      ensures reservations == old(reservations)[e := old(reservations)[e].(released := true)]
      ensures executions == old(executions)[e := old(executions)[e].(status := final, finishedAt := Some(now))]
      ensures ledger == if usage.Some? then old(ledger) + [usage.value] else old(ledger)
      ensures var p := old(reservations)[e].project; quotas == old(quotas)[p := old(quotas)[p].(counters := c)]
    {
      var p := reservations[e].project;
      quotas := quotas[p := quotas[p].(counters := c)];
      reservations := reservations[e := reservations[e].(released := true)];
      executions := executions[e := executions[e].(status := final, finishedAt := Some(now))];
      if usage.Some? {
        ledger := ledger + [usage.value];
      }
    }

    /** `ReservationRepository.record_observed_allocation`: both rows are written, or neither. */
    method RecordObservedAllocation(e: ExecutionId, o: Observation) returns (recorded: Result<bool, Failure>)
      modifies `reservations, `executions
      ensures match Observe(old(State()), e, o)
              case Ok((next, done)) => recorded == Ok(done) && State() == next
              case Err(f) => recorded == Err(f) && State() == old(State())
      ensures Inv(old(State())) ==> Inv(State())
    {
      ghost var before := State();
      var outcome := Observe(State(), e, o);
      if outcome.Err? {
        return Err(outcome.error);
      }
      if outcome.value.1 {
        reservations := reservations[e := reservations[e].(observed := Some(o))];
        executions := executions[e := executions[e].(observed := Some(o))];
      }
      ObserveOutcome(before, e, o);
      recorded := Ok(outcome.value.1);
    }

    /** `WorkerRepository.register`. */
    method RegisterWorker(id: WorkerId, g: Registration)
      modifies `workers
      ensures State() == Register(old(State()), id, g)
      ensures Inv(old(State())) ==> Inv(State())
    {
      ghost var before := State();
      var w := NewWorker(g);
      if id in workers {
        w := Restart(workers[id], g);
      }
      workers := workers[id := w];
      RegisterOutcome(before, id, g);
    }

    method RecordHeartbeat(id: WorkerId, session: Option<nat>)
      modifies `workers
      ensures State() == Heartbeat(old(State()), id, session)
      ensures Inv(old(State())) ==> Inv(State())
    {
      ghost var before := State();
      if SessionMatches(State(), id, session) && workers[id].status != Draining {
        workers := workers[id := workers[id].(status := Online)];
      }
      assert workers == Heartbeat(before, id, session).workers;
      HeartbeatOutcome(before, id, session);
    }

    method ChangeStatus(id: WorkerId, status: WorkerStatus, session: Option<nat>)
      modifies `workers
      ensures State() == SetStatus(old(State()), id, status, session)
      ensures Inv(old(State())) ==> Inv(State())
    {
      ghost var before := State();
      if SessionMatches(State(), id, session) {
        workers := workers[id := workers[id].(status := status)];
      }
      StatusOutcome(before, id, status, session);
    }

    method MarkStaleOffline(stale: set<WorkerId>)
      modifies `workers
      ensures State() == MarkStale(old(State()), stale)
      ensures Inv(old(State())) ==> Inv(State())
    {
      ghost var before := State();
      workers := TakeOffline(workers, stale);
      StaleOutcome(before, stale);
    }

    /** `WorkerRepository.replace_gpu_inventory`, given ids for the devices it adds. */
    method ReplaceGpuInventory(id: WorkerId, session: nat, items: seq<Item>, added: map<DeviceId, string>)
      returns (refused: Option<Failure>)
      requires FreshIds(devices, id, ReportsOf(items), added)
      modifies `devices, `workers
      ensures ReplaceInventory(old(State()), id, session, items, added)
              == if refused.None? then Ok(State()) else Err(refused.value)
      ensures refused.Some? ==> State() == old(State())
      ensures Inv(old(State())) ==> Inv(State())
    {
      ghost var before := State();
      if !SessionMatches(State(), id, Some(session)) {
        return Some(Stale);
      }
      if NewTwice(devices, id, items) {
        return Some(Constraint);
      }
      StoreInventory(id, session, items, added);
      InventoryOutcome(before, id, session, items, added);
      refused := None;
    }

    method StoreInventory(id: WorkerId, session: nat, items: seq<Item>, added: map<DeviceId, string>)
      requires FreshIds(devices, id, ReportsOf(items), added)
      requires ReplaceInventory(State(), id, session, items, added).Ok?
      modifies `devices, `workers
      ensures State() == ReplaceInventory(old(State()), id, session, items, added).value
    {
      var reported := Collect(items);
      devices := Inventory(devices, id, reported, added);
      workers := workers[id := workers[id].(gpuCount := |items|)];
    }
  }
}
