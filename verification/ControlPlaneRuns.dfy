/** What every run of the control plane's transactions keeps, from empty tables on. */
module ControlPlaneRuns {
  import opened Common
  import opened Ledger
  import opened LedgerAccounts
  import opened TaskStates
  import Balance = LedgerBalance
  import Bindings = LedgerBindings
  import Queue = LedgerQueue
  import Q = Quotas

  // ----------------------------------------------------------------------- usage ledger

  /** Usage is written at most once per execution, and only for released ones. */
  ghost predicate LedgerOnce(ledger: seq<Usage>, rs: map<ExecutionId, Reservation>) {
    && (forall i, j {:trigger ledger[i], ledger[j]} :: 0 <= i < j < |ledger| ==> ledger[i].execution != ledger[j].execution)
    && (forall i {:trigger ledger[i]} :: 0 <= i < |ledger| ==> ledger[i].execution in rs && rs[ledger[i].execution].released)
  }

  lemma ActiveIsUnbilled(db: Database, e: ExecutionId)
    requires LedgerOnce(db.ledger, db.reservations) && Active(db.reservations, e)
    ensures !Billed(db.ledger, e)
  {
  }

  /** The row of an execution that started at `start` and is released at `now`. */
  function UsageRow(db: Database, e: ExecutionId, start: int, now: int): Usage
    requires e in db.reservations && e in db.executions
  {
    Usage(e, db.reservations[e].task, db.reservations[e].project, start, now, Cost(db.executions[e], (now - start) as real))
  }

  /** A release appends one usage row if the task had started and none otherwise, and touches no other row. */
  lemma ReleaseBillsOnce(db: Database, e: ExecutionId, now: int, final: TaskStatus)
    requires LedgerOnce(db.ledger, db.reservations) && Active(db.reservations, e) && ReleaseCheck(db, e, now).None?
    ensures var after, started := Released(db, e, now, final).ledger, StartedAt(db, db.reservations[e]);
            && (started.None? ==> after == db.ledger)
            && (started.Some? ==> started.value <= now && after == db.ledger + [UsageRow(db, e, started.value, now)])
    ensures LedgerOnce(Released(db, e, now, final).ledger, Released(db, e, now, final).reservations)
  {
    ActiveIsUnbilled(db, e);
    LedgerGrows(db.ledger, db.reservations, e, NewUsage(db, e, now));
  }

  lemma LedgerGrows(ledger: seq<Usage>, rs: map<ExecutionId, Reservation>, e: ExecutionId, usage: Option<Usage>)
    requires LedgerOnce(ledger, rs) && e in rs && !Billed(ledger, e) && (usage.Some? ==> usage.value.execution == e)
    ensures LedgerOnce(if usage.Some? then ledger + [usage.value] else ledger, rs[e := rs[e].(released := true)])
  {
  }

  lemma OthersKeepLedger(ledger: seq<Usage>, rs: map<ExecutionId, Reservation>, e: ExecutionId, r: Reservation)
    requires LedgerOnce(ledger, rs) && (e in rs ==> r.released == rs[e].released)
    ensures LedgerOnce(ledger, rs[e := r])
  {
  }

  lemma StepKeepsLedger(db: Database, now: int, step: Step)
    requires LedgerOnce(db.ledger, db.reservations)
    ensures LedgerOnce(Apply(db, now, step).ledger, Apply(db, now, step).reservations)
  {
    match step
    case DoPlace(p) =>
      var q := p.(now := now);
      if Place(db, q).Ok? {
        OthersKeepLedger(db.ledger, db.reservations, p.execution, ReservationFor(db, q));
      }
    case DoRelease(e, final) =>
      if Active(db.reservations, e) && ReleaseCheck(db, e, now).None? {
        ReleaseBillsOnce(db, e, now, final);
      }
    case DoObserve(e, o) =>
      if Observe(db, e, o).Ok? && Apply(db, now, step) != db {
        OthersKeepLedger(db.ledger, db.reservations, e, db.reservations[e].(observed := Some(o)));
      }
    case _ => OtherStepsLeaveLedger(db, now, step);
  }

  lemma OtherStepsLeaveLedger(db: Database, now: int, step: Step)
    requires !step.DoPlace? && !step.DoRelease? && !step.DoObserve?
    ensures Apply(db, now, step).ledger == db.ledger && Apply(db, now, step).reservations == db.reservations
  {
    if Balance.IsWorkerStep(step) {
      Balance.WorkerStepKeepsCounters(db, now, step);
    } else {
      Bindings.TaskStepsLeaveBindings(db, now, step);
    }
  }

  // -------------------------------------------------------------------------- every run

  ghost predicate Inv(db: Database) {
    Balanced(db) && Bindings.Exact(db) && Queue.QueuesExact(db.tasks, db.quotas) && LedgerOnce(db.ledger, db.reservations)
  }

  lemma EmptyTables()
    ensures Inv(EMPTY)
  {
  }

  lemma StepKeepsInv(db: Database, now: int, step: Step)
    requires Inv(db)
    ensures Inv(Apply(db, now, step))
  {
    Balance.StepKeepsBalance(db, now, step);
    Bindings.StepKeepsExact(db, now, step);
    Queue.StepKeepsQueues(db, now, step);
    StepKeepsLedger(db, now, step);
  }

  /** In every run: worker and project counters are the sums over active reservations, quotas stay within
      limits, each device has at most one active binding and each exact-device reservation exactly its
      own, queue counters count waiting tasks, and usage is billed at most once. */
  lemma {:induction false} RunsKeepInv(db: Database, steps: seq<(int, Step)>)
    requires Inv(db)
    ensures Inv(Run(db, steps))
    decreases |steps|
  {
    if steps != [] {
      StepKeepsInv(db, steps[0].0, steps[0].1);
      RunsKeepInv(Apply(db, steps[0].0, steps[0].1), steps[1..]);
    }
  }

  lemma EveryRunKeepsInv(steps: seq<(int, Step)>)
    ensures Inv(Run(EMPTY, steps))
  {
    EmptyTables();
    RunsKeepInv(EMPTY, steps);
  }

  // ------------------------------------------------------------------- worker capacity

  predicate Fits(w: Worker) {
    !w.overcommitted ==> w.cpu <= w.cpuAllocatable && w.memory <= w.memoryAllocatable
  }

  /** A worker that is not flagged overcommitted has no more CPU or memory reserved than it can allocate. */
  ghost predicate WithinCapacity(ws: map<WorkerId, Worker>) {
    forall id {:trigger ws[id]} :: id in ws ==> Fits(ws[id])
  }

  lemma PlaceKeepsCapacity(db: Database, p: Placement)
    requires WithinCapacity(db.workers) && Place(db, p).Ok?
    ensures WithinCapacity(Placed(db, p).workers)
  {
  }

  lemma ReleaseKeepsCapacity(db: Database, e: ExecutionId, now: int, final: TaskStatus)
    requires WithinCapacity(db.workers) && Referenced(db) && Active(db.reservations, e) && ReleaseCheck(db, e, now).None?
    ensures WithinCapacity(Released(db, e, now, final).workers)
  {
  }

  lemma WorkerStepKeepsCapacity(db: Database, now: int, step: Step)
    requires WithinCapacity(db.workers) && Balance.IsWorkerStep(step)
    ensures WithinCapacity(Apply(db, now, step).workers)
  {
  }

  lemma StepKeepsCapacity(db: Database, now: int, step: Step)
    requires WithinCapacity(db.workers) && Referenced(db)
    ensures WithinCapacity(Apply(db, now, step).workers)
  {
    match step
    case DoPlace(p) =>
      if Place(db, p.(now := now)).Ok? {
        PlaceKeepsCapacity(db, p.(now := now));
      }
    case DoRelease(e, final) =>
      if Active(db.reservations, e) && ReleaseCheck(db, e, now).None? {
        ReleaseKeepsCapacity(db, e, now, final);
      }
    case DoObserve(_, _) =>
    case _ =>
      if Balance.IsWorkerStep(step) {
        WorkerStepKeepsCapacity(db, now, step);
      } else {
        Bindings.TaskStepsLeaveBindings(db, now, step);
      }
  }

  lemma {:induction false} RunsKeepCapacity(db: Database, steps: seq<(int, Step)>)
    requires Inv(db) && WithinCapacity(db.workers)
    ensures WithinCapacity(Run(db, steps).workers)
    decreases |steps|
  {
    if steps != [] {
      StepKeepsInv(db, steps[0].0, steps[0].1);
      StepKeepsCapacity(db, steps[0].0, steps[0].1);
      RunsKeepCapacity(Apply(db, steps[0].0, steps[0].1), steps[1..]);
    }
  }

  lemma EveryRunKeepsCapacity(steps: seq<(int, Step)>)
    ensures WithinCapacity(Run(EMPTY, steps).workers)
  {
    EmptyTables();
    RunsKeepCapacity(EMPTY, steps);
  }

  // ------------------------------------------------------------------------ consequences

  ghost predicate ReleasedRow(db: Database, e: ExecutionId) {
    e in db.reservations && db.reservations[e].released
  }

  lemma StepKeepsReleased(db: Database, now: int, step: Step, e: ExecutionId)
    requires ReleasedRow(db, e)
    ensures ReleasedRow(Apply(db, now, step), e)
  {
    match step
    case DoPlace(p) =>
      var q := p.(now := now);
      if Place(db, q).Ok? {
        assert q.execution !in db.reservations;
      }
    case DoRelease(_, _) =>
    case DoObserve(_, _) =>
    case _ => OtherStepsLeaveLedger(db, now, step);
  }

  lemma {:induction false} RunKeepsReleased(db: Database, steps: seq<(int, Step)>, e: ExecutionId)
    requires ReleasedRow(db, e)
    ensures ReleasedRow(Run(db, steps), e)
    decreases |steps|
  {
    if steps != [] {
      StepKeepsReleased(db, steps[0].0, steps[0].1, e);
      RunKeepsReleased(Apply(db, steps[0].0, steps[0].1), steps[1..], e);
    }
  }

  /** An execution is released at most once: after it, whatever else runs, every further release is a
      no-op that answers false. */
  lemma ReleasedOnce(db: Database, e: ExecutionId, now: int, final: TaskStatus, steps: seq<(int, Step)>, later: int, other: TaskStatus)
    requires Release(db, e, now, final).Ok? && Release(db, e, now, final).value.1
    ensures var after := Run(Release(db, e, now, final).value.0, steps);
            Release(after, e, later, other) == Ok((after, false))
  {
    RunKeepsReleased(Release(db, e, now, final).value.0, steps, e);
  }

  /** In every reachable state an active execution is released without an accounting error, exactly
      unless the clock is behind its recorded start. */
  lemma ReachableReleaseSucceeds(steps: seq<(int, Step)>, e: ExecutionId, now: int, final: TaskStatus)
    requires Active(Run(EMPTY, steps).reservations, e)
    ensures var db := Run(EMPTY, steps);
            && (ClockBehindStart(db, e, now) ==> Release(db, e, now, final) == Err(Constraint))
            && (!ClockBehindStart(db, e, now) ==> Release(db, e, now, final).Ok? && Release(db, e, now, final).value.1)
  {
    EveryRunKeepsInv(steps);
    ReleaseSucceedsExactly(Run(EMPTY, steps), e, now, final);
  }

  lemma ReservesQueuedTask(q: Q.Quota, day: int, r: Q.Request)
    requires Q.Inv(q) && Q.ValidRequest(r) && q.counters.queued >= 1
    ensures Q.Reserve(q, day, r).Err? ==> Q.Reserve(q, day, r).error.Exceeded?
  {
  }

  /** A placement that passes its checks can then only be refused for an exceeded quota: never for a
      missing queue entry, a broken binding or inconsistent counters. */
  lemma PlacementFailsOnlyOnQuota(db: Database, p: Placement)
    requires Inv(db) && PlaceCheck(db, p).None?
    ensures FinalCheck(db, p).Some? ==> FinalCheck(db, p).value.QuotaFailed? && FinalCheck(db, p).value.error.Exceeded?
  {
    Bindings.PlacementBindsExactly(db, p);
    CheckedPlacementReserves(db, p);
  }

  lemma CheckedPlacement(db: Database, p: Placement)
    requires PlaceCheck(db, p).None?
    ensures p.task in db.tasks && Waiting(db.tasks[p.task].status) && db.tasks[p.task].project in db.quotas
    ensures ReservationFor(db, p).project == db.tasks[p.task].project && Q.ValidRequest(RequestOf(ReservationFor(db, p)))
  {
  }

  lemma CheckedPlacementReserves(db: Database, p: Placement)
    requires PlaceCheck(db, p).None? && Queue.QueuesExact(db.tasks, db.quotas) && QuotasBalanced(db.quotas, db.reservations)
    ensures var r := ReservationFor(db, p);
            var outcome := Q.Reserve(db.quotas[r.project], Day(p.now), RequestOf(r));
            outcome.Err? ==> outcome.error.Exceeded?
  {
    CheckedPlacement(db, p);
    var r := ReservationFor(db, p);
    Queue.WaitingIsCounted(db, p.task);
    assert QuotaOwes(db.quotas[r.project], Held(db.reservations, OfProject(r.project)));
    ReservesQueuedTask(db.quotas[r.project], Day(p.now), RequestOf(r));
  }

  /** No placement ever finds the tables inconsistent: every refusal is a conflict, a missing quota row,
      a table constraint or an exceeded quota. */
  lemma PlacementFindsConsistency(db: Database, p: Placement)
    requires Inv(db) && Place(db, p).Err?
    ensures var f := Place(db, p).error; f.Conflict? || f.QuotaMissing? || f.Constraint? || (f.QuotaFailed? && f.error.Exceeded?)
  {
    if PlaceCheck(db, p).None? {
      PlacementFailsOnlyOnQuota(db, p);
    } else {
      CheckFindsConsistency(db, p);
    }
  }

  lemma CheckFindsConsistency(db: Database, p: Placement)
    requires QuotasBalanced(db.quotas, db.reservations) && PlaceCheck(db, p).Some?
    ensures var f := PlaceCheck(db, p).value; f.Conflict? || f.QuotaMissing? || f.Constraint?
  {
    if p.task in db.tasks && db.tasks[p.task].project in db.quotas {
      var project := db.tasks[p.task].project;
      assert QuotaOwes(db.quotas[project], Held(db.reservations, OfProject(project)));
    }
  }

  /** Cancelling a waiting task never fails. */
  lemma CancelSucceeds(db: Database, id: TaskId, now: int)
    requires Inv(db) && id in db.tasks && Waiting(db.tasks[id].status)
    ensures CancelQueued(db, id, now).Ok?
  {
    Queue.WaitingIsCounted(db, id);
    var p := db.tasks[id].project;
    assert QuotaOwes(db.quotas[p], Held(db.reservations, OfProject(p)));
  }

  /** A device-plugin reservation owns no device. */
  lemma DevicePluginOwnsNone(db: Database, e: ExecutionId)
    requires Inv(db) && e in db.reservations && db.reservations[e].authority == DevicePlugin
    ensures BoundTo(db.links, db.devices, e) == {}
  {
  }

  /** An observation is recorded once: repeating it changes nothing, and a different one is refused. */
  lemma ObservedOnce(db: Database, e: ExecutionId, o: Observation, other: Observation)
    requires Observe(db, e, o).Ok?
    ensures var after := Observe(db, e, o).value.0;
            && Observe(after, e, o) == Ok((after, false))
            && (other != o ==> Observe(after, e, other) == Err(ObservationConflict))
  {
  }
}
