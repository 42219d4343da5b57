/** Every transaction keeps worker and project counters equal to the reservations they stand for. */
module LedgerBalance {
  import opened Amounts
  import opened Common
  import opened Ledger
  import opened LedgerAccounts
  import opened TaskStates
  import B = QuotaBook
  import Q = Quotas

  // ------------------------------------------------------------------ what stays the same

  /** Workers may change in anything but their counters, and new ones start with nothing reserved. */
  ghost predicate CountersKept(ws: map<WorkerId, Worker>, ws': map<WorkerId, Worker>) {
    && ws.Keys <= ws'.Keys
    && (forall id {:trigger ws'[id]} :: id in ws' ==>
          if id in ws then SameCounters(ws[id], ws'[id]) else SameCounters(NewWorker(Registration(0, 0, 0, 0, 0)), ws'[id]))
  }

  predicate SameCounters(w: Worker, w': Worker) {
    w'.running == w.running && w'.cpu == w.cpu && w'.memory == w.memory && w'.gpus == w.gpus
  }

  lemma KeptCountersBalance(db: Database, ws: map<WorkerId, Worker>)
    requires WorkersBalanced(db.workers, db.reservations) && Referenced(db) && CountersKept(db.workers, ws)
    ensures WorkersBalanced(ws, db.reservations)
  {
  }

  /** The tables outside workers and devices are untouched. */
  ghost predicate OnlyInventory(db: Database, next: Database) {
    next == db.(workers := next.workers, devices := next.devices)
  }

  lemma RegisterKeepsCounters(db: Database, id: WorkerId, g: Registration)
    ensures CountersKept(db.workers, Register(db, id, g).workers) && OnlyInventory(db, Register(db, id, g))
  {
  }

  lemma OneWorkerKeepsCounters(ws: map<WorkerId, Worker>, id: WorkerId, w: Worker)
    requires id in ws && SameCounters(ws[id], w)
    ensures CountersKept(ws, ws[id := w])
  {
  }

  lemma HeartbeatKeepsCounters(db: Database, id: WorkerId, session: Option<nat>)
    ensures CountersKept(db.workers, Heartbeat(db, id, session).workers) && OnlyInventory(db, Heartbeat(db, id, session))
  {
    if SessionMatches(db, id, session) {
      OneWorkerKeepsCounters(db.workers, id, Heartbeat(db, id, session).workers[id]);
    }
  }

  lemma SetStatusKeepsCounters(db: Database, id: WorkerId, status: WorkerStatus, session: Option<nat>)
    ensures var next := SetStatus(db, id, status, session);
            CountersKept(db.workers, next.workers) && OnlyInventory(db, next)
  {
    if SessionMatches(db, id, session) {
      OneWorkerKeepsCounters(db.workers, id, SetStatus(db, id, status, session).workers[id]);
    }
  }

  lemma MarkStaleKeepsCounters(db: Database, stale: set<WorkerId>)
    ensures CountersKept(db.workers, MarkStale(db, stale).workers) && OnlyInventory(db, MarkStale(db, stale))
  {
  }

  lemma InventoryKeepsCounters(db: Database, id: WorkerId, session: nat, items: seq<Item>, ids: map<DeviceId, string>)
    requires FreshIds(db.devices, id, ReportsOf(items), ids) && ReplaceInventory(db, id, session, items, ids).Ok?
    ensures var next := ReplaceInventory(db, id, session, items, ids).value;
            CountersKept(db.workers, next.workers) && OnlyInventory(db, next)
  {
  }

  predicate IsWorkerStep(step: Step) {
    step.DoRegister? || step.DoHeartbeat? || step.DoSetStatus? || step.DoMarkStale? || step.DoInventory?
  }

  /** Registration, heartbeats, status changes, expiry and inventory never touch a counter. */
  lemma WorkerStepKeepsCounters(db: Database, now: int, step: Step)
    requires IsWorkerStep(step)
    ensures CountersKept(db.workers, Apply(db, now, step).workers) && OnlyInventory(db, Apply(db, now, step))
  {
    match step
    case DoRegister(w, g) => RegisterKeepsCounters(db, w, g);
    case DoHeartbeat(w, s) => HeartbeatKeepsCounters(db, w, s);
    case DoSetStatus(w, status, s) => SetStatusKeepsCounters(db, w, status, s);
    case DoMarkStale(ws) => MarkStaleKeepsCounters(db, ws);
    case DoInventory(w, s, items, ids) =>
      if FreshIds(db.devices, w, ReportsOf(items), ids) && ReplaceInventory(db, w, s, items, ids).Ok? {
        InventoryKeepsCounters(db, w, s, items, ids);
      }
  }

  // ---------------------------------------------------------------------- placement, release

  lemma PlaceKeepsReferences(db: Database, p: Placement)
    requires Referenced(db) && Place(db, p).Ok?
    ensures Referenced(Placed(db, p))
  {
    var next := Placed(db, p);
    assert ValidReservation(next.reservations[p.execution]) && ValidExecution(next.executions[p.execution]);
    forall e | e in next.reservations
      ensures && ValidReservation(next.reservations[e]) && e in next.executions
              && next.reservations[e].worker in next.workers && next.reservations[e].project in next.quotas {
      if e != p.execution {
        assert next.reservations[e] == db.reservations[e];
      }
    }
    forall e | e in next.executions ensures ValidExecution(next.executions[e]) {
      if e != p.execution {
        assert next.executions[e] == db.executions[e];
      }
    }
  }

  lemma PlaceKeepsBalance(db: Database, p: Placement)
    requires Balanced(db) && Place(db, p).Ok?
    ensures Balanced(Placed(db, p))
  {
    var t, r := db.tasks[p.task], ReservationFor(db, p);
    PlaceKeepsWorkers(db.workers, db.reservations, p.execution, r, t);
    ReserveKeepsQuotas(db.quotas, db.reservations, p.execution, r, Day(p.now));
    PlaceKeepsReferences(db, p);
  }

  lemma ReleaseKeepsReferences(db: Database, e: ExecutionId, now: int, final: TaskStatus)
    requires Referenced(db) && Active(db.reservations, e) && ReleaseCheck(db, e, now).None?
    ensures Referenced(Released(db, e, now, final))
  {
    var next := Released(db, e, now, final);
    forall x | x in next.reservations
      ensures && ValidReservation(next.reservations[x]) && x in next.executions
              && next.reservations[x].worker in next.workers && next.reservations[x].project in next.quotas {
      assert ValidReservation(db.reservations[x]);
    }
    forall x | x in next.executions ensures ValidExecution(next.executions[x]) {
      assert ValidExecution(db.executions[x]);
    }
  }

  lemma ReleaseKeepsBalance(db: Database, e: ExecutionId, now: int, final: TaskStatus)
    requires Balanced(db) && Active(db.reservations, e) && ReleaseCheck(db, e, now).None?
    ensures Balanced(Released(db, e, now, final))
  {
    var r := db.reservations[e];
    ReleaseKeepsWorkers(db.workers, db.reservations, e);
    ReleaseKeepsQuotas(db.quotas, db.reservations, e, Day(now), SettlementOf(r, NewUsage(db, e, now)));
    ReleaseKeepsReferences(db, e, now, final);
  }

  lemma SameHeldStaysBalanced(ws: map<WorkerId, Worker>, qs: map<ProjectId, Q.Quota>, rs: map<ExecutionId, Reservation>,
                              rs': map<ExecutionId, Reservation>)
    requires WorkersBalanced(ws, rs) && QuotasBalanced(qs, rs)
    requires forall scope :: Held(rs', scope) == Held(rs, scope)
    ensures WorkersBalanced(ws, rs') && QuotasBalanced(qs, rs')
  {
  }

  lemma ObserveKeepsBalance(db: Database, e: ExecutionId, o: Observation)
    requires Balanced(db) && Observe(db, e, o).Ok?
    ensures Balanced(Observe(db, e, o).value.0)
  {
    var next := Observe(db, e, o).value.0;
    if next != db {
      forall scope ensures Held(next.reservations, scope) == Held(db.reservations, scope) {
        HeldAfterObserve(db.reservations, e, Some(o), scope);
      }
      SameHeldStaysBalanced(db.workers, db.quotas, db.reservations, next.reservations);
      ObserveKeepsReferences(db, e, o);
    }
  }

  lemma ObserveKeepsReferences(db: Database, e: ExecutionId, o: Observation)
    requires Referenced(db) && Observe(db, e, o).Ok?
    ensures Referenced(Observe(db, e, o).value.0)
  {
    var next := Observe(db, e, o).value.0;
    forall x | x in next.reservations
      ensures && ValidReservation(next.reservations[x]) && x in next.executions
              && next.reservations[x].worker in next.workers && next.reservations[x].project in next.quotas {
      assert ValidReservation(db.reservations[x]);
    }
    forall x | x in next.executions ensures ValidExecution(next.executions[x]) {
      assert ValidExecution(db.executions[x]);
    }
  }

  // ------------------------------------------------------------------------ quota steps

  lemma OtherKeepsOwes(q: Q.Quota, day: int, op: Q.Operation, a: Amount)
    requires QuotaOwes(q, a) && !op.Start? && !op.Settle?
    ensures QuotaOwes(Q.Apply(q, day, op), a)
  {
    Q.StepKeepsInv(q, day, op);
    if Q.Outcome(q, day, op).Ok? {
      B.OtherOnlyRolls(q, day, op);
    }
  }

  /** A transaction that changes tasks and one project's quota, by an operation that starts and settles nothing. */
  lemma QuotaStepKeepsBalance(db: Database, p: ProjectId, day: int, op: Q.Operation, next: Database)
    requires Balanced(db) && p in db.quotas && !op.Start? && !op.Settle?
    requires next == db.(quotas := db.quotas[p := Q.Apply(db.quotas[p], day, op)], tasks := next.tasks)
    ensures Balanced(next)
  {
    assert QuotaOwes(db.quotas[p], Held(db.reservations, OfProject(p)));
    OtherKeepsOwes(db.quotas[p], day, op, Held(db.reservations, OfProject(p)));
    OneProjectMoves(db.quotas, Q.Apply(db.quotas[p], day, op), db.reservations, db.reservations, p);
  }

  lemma FreshOwesNothing(limits: Q.Limits, day: int)
    requires Q.ValidLimits(limits)
    ensures QuotaOwes(Q.Fresh(limits, day), NONE)
  {
  }

  lemma NewProjectHoldsNothing(db: Database, p: ProjectId)
    requires Referenced(db) && p !in db.quotas
    ensures Held(db.reservations, OfProject(p)) == NONE
  {
  }

  lemma InitializeKeepsQuotas(db: Database, p: ProjectId, limits: Q.Limits, day: int)
    requires Referenced(db) && QuotasBalanced(db.quotas, db.reservations) && p !in db.quotas && Q.ValidLimits(limits)
    ensures QuotasBalanced(db.quotas[p := Q.Fresh(limits, day)], db.reservations)
  {
    NewProjectHoldsNothing(db, p);
    FreshOwesNothing(limits, day);
    OneProjectMoves(db.quotas, Q.Fresh(limits, day), db.reservations, db.reservations, p);
  }

  lemma InitializeKeepsBalance(db: Database, p: ProjectId, limits: Q.Limits, now: int)
    requires Balanced(db)
    ensures Balanced(Initialize(db, p, limits, now))
  {
    if p !in db.quotas && Q.ValidLimits(limits) {
      InitializeKeepsQuotas(db, p, limits, Day(now));
      var next := Initialize(db, p, limits, now);
      assert next.workers == db.workers && next.reservations == db.reservations && next.executions == db.executions;
    }
  }

  // -------------------------------------------------------------------------- every step

  lemma SubmitKeepsBalance(db: Database, id: TaskId, t: Task, now: int)
    requires Balanced(db) && Submit(db, id, t, now).Ok?
    ensures Balanced(Submit(db, id, t, now).value)
  {
  }

  lemma RequeueKeepsBalance(db: Database, id: TaskId, now: int)
    requires Balanced(db) && Requeue(db, id, now).Ok?
    ensures Balanced(Requeue(db, id, now).value)
  {
    QuotaStepKeepsBalance(db, db.tasks[id].project, Day(now), Q.Admit, Requeue(db, id, now).value);
  }

  lemma CancelKeepsBalance(db: Database, id: TaskId, now: int)
    requires Balanced(db) && CancelQueued(db, id, now).Ok?
    ensures Balanced(CancelQueued(db, id, now).value)
  {
    QuotaStepKeepsBalance(db, db.tasks[id].project, Day(now), Q.Unqueue, CancelQueued(db, id, now).value);
  }

  lemma ChangeQuotaKeepsBalance(db: Database, p: ProjectId, op: Q.Operation, now: int)
    requires Balanced(db)
    ensures Balanced(ChangeQuota(db, p, op, now))
  {
    if p in db.quotas && (op.Lock? || op.Commit? || op.Limit?) {
      QuotaStepKeepsBalance(db, p, Day(now), op, ChangeQuota(db, p, op, now));
    }
  }

  lemma ProgressKeepsBalance(db: Database, id: TaskId, to: TaskStatus, at: Option<int>)
    requires Balanced(db)
    ensures Balanced(Progress(db, id, to, at))
  {
  }

  lemma TaskStepKeepsBalance(db: Database, now: int, step: Step)
    requires Balanced(db) && (step.DoSubmit? || step.DoProgress? || step.DoRequeue? || step.DoCancel?)
    ensures Balanced(Apply(db, now, step))
  {
    match step
    case DoSubmit(id, t) =>
      if Submit(db, id, t, now).Ok? {
        SubmitKeepsBalance(db, id, t, now);
      }
    case DoProgress(id, to, at) => ProgressKeepsBalance(db, id, to, at);
    case DoRequeue(id) =>
      if Requeue(db, id, now).Ok? {
        RequeueKeepsBalance(db, id, now);
      }
    case DoCancel(id) =>
      if CancelQueued(db, id, now).Ok? {
        CancelKeepsBalance(db, id, now);
      }
  }

  lemma PlaceStepKeepsBalance(db: Database, now: int, p: Placement)
    requires Balanced(db)
    ensures Balanced(Apply(db, now, DoPlace(p)))
  {
    if Place(db, p.(now := now)).Ok? {
      PlaceKeepsBalance(db, p.(now := now));
    }
  }

  lemma ReleaseStep(db: Database, now: int, e: ExecutionId, final: TaskStatus)
    ensures Apply(db, now, DoRelease(e, final)) ==
            if Active(db.reservations, e) && ReleaseCheck(db, e, now).None? then Released(db, e, now, final) else db
  {
  }

  lemma ReleaseStepKeepsBalance(db: Database, now: int, e: ExecutionId, final: TaskStatus)
    requires Balanced(db)
    ensures Balanced(Apply(db, now, DoRelease(e, final)))
  {
    ReleaseStep(db, now, e, final);
    if Active(db.reservations, e) && ReleaseCheck(db, e, now).None? {
      ReleaseKeepsBalance(db, e, now, final);
    }
  }

  lemma ObserveStepKeepsBalance(db: Database, now: int, e: ExecutionId, o: Observation)
    requires Balanced(db)
    ensures Balanced(Apply(db, now, DoObserve(e, o)))
  {
    if Observe(db, e, o).Ok? {
      ObserveKeepsBalance(db, e, o);
    }
  }

  lemma WorkerStepKeepsBalance(db: Database, now: int, step: Step)
    requires Balanced(db) && IsWorkerStep(step)
    ensures Balanced(Apply(db, now, step))
  {
    WorkerStepKeepsCounters(db, now, step);
    KeptCountersBalance(db, Apply(db, now, step).workers);
    OnlyInventoryKeepsReferences(db, Apply(db, now, step));
  }

  lemma OnlyInventoryKeepsReferences(db: Database, next: Database)
    requires Referenced(db) && OnlyInventory(db, next) && CountersKept(db.workers, next.workers)
    ensures Referenced(next)
  {
  }

  /** In every state the transactions reach, each worker's and each project's counters are the sums over
      active reservations, and quotas are within limits. */
  lemma StepKeepsBalance(db: Database, now: int, step: Step)
    requires Balanced(db)
    ensures Balanced(Apply(db, now, step))
  {
    if step.DoPlace? {
      PlaceStepKeepsBalance(db, now, step.placement);
    } else if step.DoRelease? {
      ReleaseStepKeepsBalance(db, now, step.execution, step.final);
    } else if step.DoObserve? {
      ObserveStepKeepsBalance(db, now, step.observed, step.observation);
    } else if IsWorkerStep(step) {
      WorkerStepKeepsBalance(db, now, step);
    } else if step.DoInitialize? {
      InitializeKeepsBalance(db, step.project, step.limits, now);
    } else if step.DoChangeQuota? {
      ChangeQuotaKeepsBalance(db, step.project, step.op, now);
    } else {
      TaskStepKeepsBalance(db, now, step);
    }
  }
}
