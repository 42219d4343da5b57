/** The queue counter of each project against the tasks that wait in it. */
module LedgerQueue {
  import opened Common
  import opened Ledger
  import opened TaskStates
  import Q = Quotas

  type Tasks = map<TaskId, Task>
  type Rows = map<ProjectId, Q.Quota>

  ghost function WaitingIn(tasks: Tasks, p: ProjectId): set<TaskId> {
    set id | id in tasks && tasks[id].project == p && Waiting(tasks[id].status)
  }

  /** Every project's queue counter is the number of its waiting tasks. */
  ghost predicate QueuesExact(tasks: Tasks, qs: Rows) {
    && (forall id {:trigger tasks[id]} :: id in tasks ==> tasks[id].project in qs)
    && (forall p {:trigger qs[p]} :: p in qs ==> qs[p].counters.queued == |WaitingIn(tasks, p)|)
  }

  // ------------------------------------------------------------------ counts, step by step

  lemma TaskEnters(tasks: Tasks, id: TaskId, t: Task, p: ProjectId)
    requires id in tasks ==> tasks[id].project == t.project && !Waiting(tasks[id].status)
    requires Waiting(t.status)
    ensures |WaitingIn(tasks[id := t], p)| == |WaitingIn(tasks, p)| + if t.project == p then 1 else 0
  {
    if t.project == p {
      assert WaitingIn(tasks[id := t], p) == WaitingIn(tasks, p) + {id};
    } else {
      assert WaitingIn(tasks[id := t], p) == WaitingIn(tasks, p);
    }
  }

  lemma TaskLeaves(tasks: Tasks, id: TaskId, t: Task, p: ProjectId)
    requires id in tasks && tasks[id].project == t.project && Waiting(tasks[id].status) && !Waiting(t.status)
    ensures |WaitingIn(tasks[id := t], p)| == |WaitingIn(tasks, p)| - if t.project == p then 1 else 0
  {
    if t.project == p {
      assert WaitingIn(tasks[id := t], p) == WaitingIn(tasks, p) - {id};
    } else {
      assert WaitingIn(tasks[id := t], p) == WaitingIn(tasks, p);
    }
  }

  lemma TaskStays(tasks: Tasks, id: TaskId, t: Task, p: ProjectId)
    requires id in tasks && tasks[id].project == t.project && Waiting(tasks[id].status) == Waiting(t.status)
    ensures WaitingIn(tasks[id := t], p) == WaitingIn(tasks, p)
  {
  }

  lemma EnterKeepsQueues(tasks: Tasks, qs: Rows, id: TaskId, t: Task, q: Q.Quota)
    requires QueuesExact(tasks, qs) && t.project in qs
    requires id in tasks ==> tasks[id].project == t.project && !Waiting(tasks[id].status)
    requires Waiting(t.status) && q.counters.queued == qs[t.project].counters.queued + 1
    ensures QueuesExact(tasks[id := t], qs[t.project := q])
  {
    var qs' := qs[t.project := q];
    forall p | p in qs' ensures qs'[p].counters.queued == |WaitingIn(tasks[id := t], p)| {
      TaskEnters(tasks, id, t, p);
      assert qs[p].counters.queued == |WaitingIn(tasks, p)|;
    }
  }

  lemma LeaveKeepsQueues(tasks: Tasks, qs: Rows, id: TaskId, t: Task, q: Q.Quota)
    requires QueuesExact(tasks, qs) && t.project in qs
    requires id in tasks && tasks[id].project == t.project && Waiting(tasks[id].status) && !Waiting(t.status)
    requires q.counters.queued == qs[t.project].counters.queued - 1
    ensures QueuesExact(tasks[id := t], qs[t.project := q])
  {
    var qs' := qs[t.project := q];
    forall p | p in qs' ensures qs'[p].counters.queued == |WaitingIn(tasks[id := t], p)| {
      TaskLeaves(tasks, id, t, p);
      assert qs[p].counters.queued == |WaitingIn(tasks, p)|;
    }
  }

  lemma StayKeepsQueues(tasks: Tasks, qs: Rows, id: TaskId, t: Task)
    requires QueuesExact(tasks, qs) && id in tasks && tasks[id].project == t.project
    requires Waiting(tasks[id].status) == Waiting(t.status)
    ensures QueuesExact(tasks[id := t], qs)
  {
    forall p | p in qs ensures qs[p].counters.queued == |WaitingIn(tasks[id := t], p)| {
      TaskStays(tasks, id, t, p);
    }
  }

  lemma SameQueueStaysExact(tasks: Tasks, qs: Rows, p: ProjectId, q: Q.Quota)
    requires QueuesExact(tasks, qs)
    requires q.counters.queued == if p in qs then qs[p].counters.queued else 0
    ensures QueuesExact(tasks, qs[p := q])
  {
  }

  // ---------------------------------------------------------------------------- each step

  /** A waiting task is counted, so its project's queue is never empty. */
  lemma WaitingIsCounted(db: Database, id: TaskId)
    requires QueuesExact(db.tasks, db.quotas) && id in db.tasks && Waiting(db.tasks[id].status)
    ensures db.tasks[id].project in db.quotas && db.quotas[db.tasks[id].project].counters.queued >= 1
  {
    var p := db.tasks[id].project;
    assert id in WaitingIn(db.tasks, p);
    assert db.quotas[p].counters.queued == |WaitingIn(db.tasks, p)|;
  }

  lemma PlaceKeepsQueues(db: Database, p: Placement)
    requires QueuesExact(db.tasks, db.quotas) && Place(db, p).Ok?
    ensures QueuesExact(Placed(db, p).tasks, Placed(db, p).quotas)
  {
    var next, t := Placed(db, p), db.tasks[p.task];
    LeaveKeepsQueues(db.tasks, db.quotas, p.task, next.tasks[p.task], next.quotas[t.project]);
  }

  lemma ReleaseKeepsQueues(db: Database, e: ExecutionId, now: int, final: TaskStatus)
    requires QueuesExact(db.tasks, db.quotas) && Active(db.reservations, e) && ReleaseCheck(db, e, now).None?
    ensures QueuesExact(Released(db, e, now, final).tasks, Released(db, e, now, final).quotas)
  {
    var next, p := Released(db, e, now, final), db.reservations[e].project;
    SameQueueStaysExact(db.tasks, db.quotas, p, next.quotas[p]);
  }

  lemma SubmitKeepsQueues(db: Database, id: TaskId, t: Task, now: int)
    requires QueuesExact(db.tasks, db.quotas) && Submit(db, id, t, now).Ok?
    ensures QueuesExact(Submit(db, id, t, now).value.tasks, Submit(db, id, t, now).value.quotas)
  {
    EnterKeepsQueues(db.tasks, db.quotas, id, t, Submit(db, id, t, now).value.quotas[t.project]);
  }

  lemma RequeueKeepsQueues(db: Database, id: TaskId, now: int)
    requires QueuesExact(db.tasks, db.quotas) && Requeue(db, id, now).Ok?
    ensures QueuesExact(Requeue(db, id, now).value.tasks, Requeue(db, id, now).value.quotas)
  {
    var next := Requeue(db, id, now).value;
    EnterKeepsQueues(db.tasks, db.quotas, id, next.tasks[id], next.quotas[db.tasks[id].project]);
  }

  lemma CancelKeepsQueues(db: Database, id: TaskId, now: int)
    requires QueuesExact(db.tasks, db.quotas) && CancelQueued(db, id, now).Ok?
    ensures QueuesExact(CancelQueued(db, id, now).value.tasks, CancelQueued(db, id, now).value.quotas)
  {
    var next := CancelQueued(db, id, now).value;
    LeaveKeepsQueues(db.tasks, db.quotas, id, next.tasks[id], next.quotas[db.tasks[id].project]);
  }

  lemma ProgressKeepsQueues(db: Database, id: TaskId, to: TaskStatus, at: Option<int>)
    requires QueuesExact(db.tasks, db.quotas)
    ensures QueuesExact(Progress(db, id, to, at).tasks, Progress(db, id, to, at).quotas)
  {
    if id in db.tasks && Waiting(to) == Waiting(db.tasks[id].status) {
      StayKeepsQueues(db.tasks, db.quotas, id, db.tasks[id].(status := to, startedAt := at));
    }
  }

  lemma ChangeQuotaKeepsQueues(db: Database, p: ProjectId, op: Q.Operation, now: int)
    requires QueuesExact(db.tasks, db.quotas)
    ensures QueuesExact(ChangeQuota(db, p, op, now).tasks, ChangeQuota(db, p, op, now).quotas)
  {
    if p in db.quotas && (op.Lock? || op.Commit? || op.Limit?) {
      SameQueueStaysExact(db.tasks, db.quotas, p, Q.Apply(db.quotas[p], Day(now), op));
    }
  }

  lemma InitializeKeepsQueues(db: Database, p: ProjectId, limits: Q.Limits, now: int)
    requires QueuesExact(db.tasks, db.quotas)
    ensures QueuesExact(Initialize(db, p, limits, now).tasks, Initialize(db, p, limits, now).quotas)
  {
  }

  // -------------------------------------------------------------------------- every step

  lemma TaskStepKeepsQueues(db: Database, now: int, step: Step)
    requires QueuesExact(db.tasks, db.quotas) && (step.DoSubmit? || step.DoProgress? || step.DoRequeue? || step.DoCancel?)
    ensures QueuesExact(Apply(db, now, step).tasks, Apply(db, now, step).quotas)
  {
    match step
    case DoSubmit(id, t) =>
      if Submit(db, id, t, now).Ok? {
        SubmitKeepsQueues(db, id, t, now);
      }
    case DoProgress(id, to, at) => ProgressKeepsQueues(db, id, to, at);
    case DoRequeue(id) =>
      if Requeue(db, id, now).Ok? {
        RequeueKeepsQueues(db, id, now);
      }
    case DoCancel(id) =>
      if CancelQueued(db, id, now).Ok? {
        CancelKeepsQueues(db, id, now);
      }
  }

  lemma OtherStepsLeaveQueues(db: Database, now: int, step: Step)
    requires step.DoObserve? || step.DoRegister? || step.DoHeartbeat? || step.DoSetStatus? || step.DoMarkStale? || step.DoInventory?
    ensures Apply(db, now, step).tasks == db.tasks && Apply(db, now, step).quotas == db.quotas
  {
  }

  lemma StepKeepsQueues(db: Database, now: int, step: Step)
    requires QueuesExact(db.tasks, db.quotas)
    ensures QueuesExact(Apply(db, now, step).tasks, Apply(db, now, step).quotas)
  {
    match step
    case DoPlace(p) =>
      if Place(db, p.(now := now)).Ok? {
        PlaceKeepsQueues(db, p.(now := now));
      }
    case DoRelease(e, final) =>
      if Active(db.reservations, e) && ReleaseCheck(db, e, now).None? {
        ReleaseKeepsQueues(db, e, now, final);
      }
    case DoSubmit(_, _) => TaskStepKeepsQueues(db, now, step);
    case DoProgress(_, _, _) => TaskStepKeepsQueues(db, now, step);
    case DoRequeue(_) => TaskStepKeepsQueues(db, now, step);
    case DoCancel(_) => TaskStepKeepsQueues(db, now, step);
    case DoInitialize(p, limits) => InitializeKeepsQueues(db, p, limits, now);
    case DoChangeQuota(p, op) => ChangeQuotaKeepsQueues(db, p, op, now);
    case _ => OtherStepsLeaveQueues(db, now, step);
  }
}
