/** Worker and project counters against the reservations they stand for. */
module LedgerAccounts {
  import opened Amounts
  import opened Common
  import opened Ledger
  import opened TaskStates
  import B = QuotaBook
  import Q = Quotas

  datatype Scope = OfWorker(worker: WorkerId) | OfProject(project: ProjectId)

  predicate InScope(r: Reservation, scope: Scope) {
    match scope
    case OfWorker(w) => r.worker == w
    case OfProject(p) => r.project == p
  }

  function AmountOf(r: Reservation): Amount {
    B.AmountOf(RequestOf(r))
  }

  /** What the active reservations of a scope hold. */
  ghost function HeldBy(rs: map<ExecutionId, Reservation>, scope: Scope): map<ExecutionId, Amount> {
    map e | e in rs && !rs[e].released && InScope(rs[e], scope) :: AmountOf(rs[e])
  }

  ghost function Held(rs: map<ExecutionId, Reservation>, scope: Scope): Amount {
    Sum(HeldBy(rs, scope))
  }

  // ------------------------------------------------------------------------- invariants

  ghost predicate WorkerOwes(w: Worker, a: Amount) {
    w.running == a.tasks && w.cpu == a.cpu && w.memory == a.memory && w.gpus == Devices(a)
  }

  /** Every worker's counters are the sums over its active reservations. */
  ghost predicate WorkersBalanced(ws: map<WorkerId, Worker>, rs: map<ExecutionId, Reservation>) {
    forall id {:trigger Held(rs, OfWorker(id))} :: id in ws ==> WorkerOwes(ws[id], Held(rs, OfWorker(id)))
  }

  ghost predicate QuotaOwes(q: Q.Quota, a: Amount) {
    Q.Inv(q) && B.Owes(q.counters, a)
  }

  /** Every project's counters are the sums over its active reservations, and stay within its limits. */
  ghost predicate QuotasBalanced(qs: map<ProjectId, Q.Quota>, rs: map<ExecutionId, Reservation>) {
    forall p {:trigger Held(rs, OfProject(p))} :: p in qs ==> QuotaOwes(qs[p], Held(rs, OfProject(p)))
  }

  predicate ValidReservation(r: Reservation) {
    Q.ValidRequest(RequestOf(r)) && (r.gpus == 0 <==> r.vendor.None?)
  }

  ghost predicate Reservations(rs: map<ExecutionId, Reservation>) {
    forall e {:trigger rs[e]} :: e in rs ==> ValidReservation(rs[e])
  }

  predicate ValidExecution(x: Execution) {
    x.cpu >= 0 && x.memory >= 0 && x.gpus >= 0
  }

  /** Reservations refer to existing rows. */
  ghost predicate Referenced(db: Database) {
    && Reservations(db.reservations)
    && (forall e {:trigger db.reservations[e]} :: e in db.reservations ==>
          && e in db.executions && db.reservations[e].worker in db.workers && db.reservations[e].project in db.quotas)
    && (forall e {:trigger db.executions[e]} :: e in db.executions ==> ValidExecution(db.executions[e]))
  }

  // ------------------------------------------------------------------ sums, step by step

  lemma HeldAfterInsert(rs: map<ExecutionId, Reservation>, e: ExecutionId, r: Reservation, scope: Scope)
    requires e !in rs && !r.released
    ensures Held(rs[e := r], scope) == if InScope(r, scope) then Plus(AmountOf(r), Held(rs, scope)) else Held(rs, scope)
  {
    if InScope(r, scope) {
      assert HeldBy(rs[e := r], scope) == HeldBy(rs, scope)[e := AmountOf(r)];
      SumWith(HeldBy(rs, scope), e, AmountOf(r));
    } else {
      assert HeldBy(rs[e := r], scope) == HeldBy(rs, scope);
    }
  }

  lemma HeldAfterRelease(rs: map<ExecutionId, Reservation>, e: ExecutionId, scope: Scope)
    requires Active(rs, e)
    ensures var after := Held(rs[e := rs[e].(released := true)], scope);
            Held(rs, scope) == if InScope(rs[e], scope) then Plus(AmountOf(rs[e]), after) else after
  {
    var less := rs[e := rs[e].(released := true)];
    if InScope(rs[e], scope) {
      assert HeldBy(less, scope) == HeldBy(rs, scope) - {e};
      SumWithout(HeldBy(rs, scope), e);
    } else {
      assert HeldBy(less, scope) == HeldBy(rs, scope);
    }
  }

  lemma HeldAfterObserve(rs: map<ExecutionId, Reservation>, e: ExecutionId, o: Option<Observation>, scope: Scope)
    requires e in rs
    ensures Held(rs[e := rs[e].(observed := o)], scope) == Held(rs, scope)
  {
    assert HeldBy(rs[e := rs[e].(observed := o)], scope) == HeldBy(rs, scope);
  }

  /** An active reservation is covered by what its worker and its project hold. */
  lemma ActiveIsCovered(rs: map<ExecutionId, Reservation>, e: ExecutionId, scope: Scope)
    requires Active(rs, e) && InScope(rs[e], scope) && Reservations(rs)
    ensures Leq(AmountOf(rs[e]), Held(rs, scope))
  {
    assert NonNegative(HeldBy(rs, scope)) by {
      forall k | k in HeldBy(rs, scope) ensures Leq(NONE, HeldBy(rs, scope)[k]) {
        assert ValidReservation(rs[k]);
      }
    }
    MemberIsCovered(HeldBy(rs, scope), e);
  }

  // -------------------------------------------------------------------------- placement

  lemma LoadedOwes(w: Worker, t: Task, r: Reservation, a: Amount)
    requires WorkerOwes(w, a) && r.cpu == t.cpu && r.memory == t.memory && r.gpus == t.gpus
    ensures WorkerOwes(Loaded(w, t), Plus(AmountOf(r), a))
  {
    Q.TypesCoverRequest(r.gpus, r.vendor);
  }

  lemma PlaceKeepsWorkers(ws: map<WorkerId, Worker>, rs: map<ExecutionId, Reservation>, e: ExecutionId, r: Reservation, t: Task)
    requires WorkersBalanced(ws, rs) && e !in rs && !r.released && r.worker in ws
    requires r.cpu == t.cpu && r.memory == t.memory && r.gpus == t.gpus
    ensures WorkersBalanced(ws[r.worker := Loaded(ws[r.worker], t)], rs[e := r])
  {
    var ws' := ws[r.worker := Loaded(ws[r.worker], t)];
    forall id | id in ws' ensures WorkerOwes(ws'[id], Held(rs[e := r], OfWorker(id))) {
      HeldAfterInsert(rs, e, r, OfWorker(id));
      assert WorkerOwes(ws[id], Held(rs, OfWorker(id)));
      if id == r.worker {
        LoadedOwes(ws[id], t, r, Held(rs, OfWorker(id)));
      }
    }
  }

  /** A change of one project's reservations and counters that keeps that project balanced. */
  lemma OneProjectMoves(qs: map<ProjectId, Q.Quota>, q: Q.Quota, rs: map<ExecutionId, Reservation>,
                        rs': map<ExecutionId, Reservation>, p: ProjectId)
    requires QuotasBalanced(qs, rs) && QuotaOwes(q, Held(rs', OfProject(p)))
    requires forall other :: other != p ==> Held(rs', OfProject(other)) == Held(rs, OfProject(other))
    ensures QuotasBalanced(qs[p := q], rs')
  {
  }

  lemma ReservedOwes(q: Q.Quota, day: int, r: Q.Request, a: Amount)
    requires QuotaOwes(q, a) && Q.Reserve(q, day, r).Ok?
    ensures QuotaOwes(q.(counters := Q.Reserve(q, day, r).value), Plus(B.AmountOf(r), a))
  {
    Q.StartKeepsInv(q, day, r);
    B.StartOwes(q, day, r, a);
  }

  lemma ReserveKeepsQuotas(qs: map<ProjectId, Q.Quota>, rs: map<ExecutionId, Reservation>, e: ExecutionId, r: Reservation, day: int)
    requires QuotasBalanced(qs, rs) && e !in rs && !r.released && r.project in qs
    requires Q.Reserve(qs[r.project], day, RequestOf(r)).Ok?
    ensures QuotasBalanced(qs[r.project := qs[r.project].(counters := Q.Reserve(qs[r.project], day, RequestOf(r)).value)], rs[e := r])
  {
    var q := qs[r.project];
    forall p ensures Held(rs[e := r], OfProject(p)) ==
                     if p == r.project then Plus(AmountOf(r), Held(rs, OfProject(p))) else Held(rs, OfProject(p)) {
      HeldAfterInsert(rs, e, r, OfProject(p));
    }
    ReservedOwes(q, day, RequestOf(r), Held(rs, OfProject(r.project)));
    OneProjectMoves(qs, q.(counters := Q.Reserve(q, day, RequestOf(r)).value), rs, rs[e := r], r.project);
  }

  // ---------------------------------------------------------------------------- release

  lemma UnloadedOwes(w: Worker, r: Reservation, a: Amount)
    requires WorkerOwes(w, Plus(AmountOf(r), a))
    ensures WorkerOwes(Unloaded(w, r), a)
  {
    Q.TypesCoverRequest(r.gpus, r.vendor);
  }

  lemma ReleaseKeepsWorkers(ws: map<WorkerId, Worker>, rs: map<ExecutionId, Reservation>, e: ExecutionId)
    requires WorkersBalanced(ws, rs) && Active(rs, e) && rs[e].worker in ws
    ensures WorkersBalanced(ws[rs[e].worker := Unloaded(ws[rs[e].worker], rs[e])], rs[e := rs[e].(released := true)])
  {
    var r := rs[e];
    var ws', rs' := ws[r.worker := Unloaded(ws[r.worker], r)], rs[e := r.(released := true)];
    forall id | id in ws' ensures WorkerOwes(ws'[id], Held(rs', OfWorker(id))) {
      HeldAfterRelease(rs, e, OfWorker(id));
      assert WorkerOwes(ws[id], Held(rs, OfWorker(id)));
      if id == r.worker {
        UnloadedOwes(ws[id], r, Held(rs', OfWorker(id)));
      }
    }
  }

  lemma ReleasedOwes(q: Q.Quota, day: int, t: Q.Settlement, a: Amount)
    requires QuotaOwes(q, Plus(B.AmountOf(t.request), a)) && Q.Release(q, day, t).Ok?
    ensures QuotaOwes(q.(counters := Q.Release(q, day, t).value), a)
  {
    Q.SettleKeepsInv(q, day, t);
    assert Q.Apply(q, day, Q.Settle(t)) == q.(counters := Q.Release(q, day, t).value);
    B.SettleOwes(q, day, t, a);
  }

  lemma ReleaseKeepsQuotas(qs: map<ProjectId, Q.Quota>, rs: map<ExecutionId, Reservation>, e: ExecutionId, day: int, s: Q.Settlement)
    requires QuotasBalanced(qs, rs) && Active(rs, e) && rs[e].project in qs && s.request == RequestOf(rs[e])
    requires Q.Release(qs[rs[e].project], day, s).Ok?
    ensures var p := rs[e].project;
            QuotasBalanced(qs[p := qs[p].(counters := Q.Release(qs[p], day, s).value)], rs[e := rs[e].(released := true)])
  {
    var r, q := rs[e], qs[rs[e].project];
    var rs' := rs[e := r.(released := true)];
    forall p ensures Held(rs, OfProject(p)) ==
                     if p == r.project then Plus(AmountOf(r), Held(rs', OfProject(p))) else Held(rs', OfProject(p)) {
      HeldAfterRelease(rs, e, OfProject(p));
    }
    ReleasedOwes(q, day, s, Held(rs', OfProject(r.project)));
    OneProjectMoves(qs, q.(counters := Q.Release(q, day, s).value), rs, rs', r.project);
  }

  lemma WorkerCoversActive(ws: map<WorkerId, Worker>, rs: map<ExecutionId, Reservation>, e: ExecutionId)
    requires WorkersBalanced(ws, rs) && Active(rs, e) && rs[e].worker in ws && Reservations(rs)
    ensures WorkerCovers(ws[rs[e].worker], rs[e])
  {
    ActiveIsCovered(rs, e, OfWorker(rs[e].worker));
    assert WorkerOwes(ws[rs[e].worker], Held(rs, OfWorker(rs[e].worker)));
    Q.TypesCoverRequest(rs[e].gpus, rs[e].vendor);
  }

  lemma QuotaCoversActive(qs: map<ProjectId, Q.Quota>, rs: map<ExecutionId, Reservation>, e: ExecutionId)
    requires QuotasBalanced(qs, rs) && Active(rs, e) && rs[e].project in qs && Reservations(rs)
    ensures Q.Covers(qs[rs[e].project].counters, RequestOf(rs[e]))
  {
    ActiveIsCovered(rs, e, OfProject(rs[e].project));
    assert QuotaOwes(qs[rs[e].project], Held(rs, OfProject(rs[e].project)));
    Q.TypesCoverRequest(rs[e].gpus, rs[e].vendor);
  }

  lemma CostIsNonNegative(x: Execution, seconds: real)
    requires ValidExecution(x) && seconds >= 0.0
    ensures Cost(x, seconds) >= 0.0
  {
  }

  ghost predicate Balanced(db: Database) {
    WorkersBalanced(db.workers, db.reservations) && QuotasBalanced(db.quotas, db.reservations) && Referenced(db)
  }

  /** A release with the database clock behind the recorded start cannot insert its ledger row. */
  predicate ClockBehindStart(db: Database, e: ExecutionId, now: int) {
    && e in db.reservations && !Billed(db.ledger, e)
    && StartedAt(db, db.reservations[e]).Some? && now < StartedAt(db, db.reservations[e]).value
  }

  lemma UsageCostIsNonNegative(db: Database, e: ExecutionId, now: int)
    requires e in db.reservations && e in db.executions && ValidExecution(db.executions[e])
    ensures SettlementOf(db.reservations[e], NewUsage(db, e, now)).cost >= 0.0
  {
    var started := StartedAt(db, db.reservations[e]);
    if started.Some? {
      CostIsNonNegative(db.executions[e], Max(0, now - started.value) as real);
    }
  }

  lemma CoveredReleaseSucceeds(q: Q.Quota, day: int, s: Q.Settlement)
    requires Q.Inv(q) && Q.ValidRequest(s.request) && Q.Covers(q.counters, s.request) && s.request.cost == 0.0 && s.cost >= 0.0
    ensures Q.Release(q, day, s).Ok?
  {
  }

  lemma SettlementSucceeds(db: Database, e: ExecutionId, now: int)
    requires Balanced(db) && Active(db.reservations, e)
    ensures var r := db.reservations[e];
            Q.Release(db.quotas[r.project], Day(now), SettlementOf(r, NewUsage(db, e, now))).Ok?
  {
    var r := db.reservations[e];
    assert ValidReservation(r) && ValidExecution(db.executions[e]);
    assert QuotaOwes(db.quotas[r.project], Held(db.reservations, OfProject(r.project)));
    UsageCostIsNonNegative(db, e, now);
    QuotaCoversActive(db.quotas, db.reservations, e);
    CoveredReleaseSucceeds(db.quotas[r.project], Day(now), SettlementOf(r, NewUsage(db, e, now)));
  }

  lemma OnlyTheClockRefuses(db: Database, e: ExecutionId, now: int)
    requires Balanced(db) && Active(db.reservations, e)
    ensures ReleaseCheck(db, e, now) == if ClockBehindStart(db, e, now) then Some(Constraint) else None
  {
    var r := db.reservations[e];
    assert QuotaOwes(db.quotas[r.project], Held(db.reservations, OfProject(r.project)));
    WorkerCoversActive(db.workers, db.reservations, e);
    SettlementSucceeds(db, e, now);
  }

  /** Releasing an active execution never raises an accounting error: it succeeds exactly unless the
      clock is behind the task's recorded start. */
  lemma ReleaseSucceedsExactly(db: Database, e: ExecutionId, now: int, final: TaskStatus)
    requires Balanced(db) && Active(db.reservations, e)
    ensures ClockBehindStart(db, e, now) ==> Release(db, e, now, final) == Err(Constraint)
    ensures !ClockBehindStart(db, e, now) ==> Release(db, e, now, final).Ok? && Release(db, e, now, final).value.1
  {
    OnlyTheClockRefuses(db, e, now);
  }
}
