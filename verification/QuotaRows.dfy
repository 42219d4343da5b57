/** The quota row of one project, updated field by field. A raised error aborts the caller's
    transaction, so every method leaves the row as it was when it fails. */
module QuotaRows {
  import opened Accelerators
  import opened Common
  import opened Quotas

  /** An admissible execution: a task is queued and running it stays within every limit. */
  ghost predicate Admissible(q: Quota, today: int, r: Request) {
    var next := Started(Roll(q.counters, today), r);
    && ValidRequest(r) && q.counters.queued >= 1 && WithinLimits(q.limits, next)
    && !ExceedsCost(q.limits.dailyCost, next.settledCost + next.reservedCost)
  }

  /** An admissible commitment: the counters cover it and it stays within every limit. */
  ghost predicate Committable(q: Quota, today: int, m: Commitment) {
    var next := Committed(Roll(q.counters, today), m);
    ValidCommitment(m) && CommitmentCovered(next) && WithinLimits(q.limits, next)
  }

  lemma StepOutcome(q: Quota, today: int, op: Operation)
    ensures Inv(q) ==> Inv(Apply(q, today, op))
  {
    if Inv(q) {
      StepKeepsInv(q, today, op);
    }
  }

  lemma ReserveOutcome(q: Quota, today: int, r: Request)
    ensures Inv(q) ==> (Reserve(q, today, r).Ok? <==> Admissible(q, today, r))
  {
    if Inv(q) && ValidRequest(r) {
      ReserveAdmitsExactly(q, today, r);
    }
  }

  lemma CommitOutcome(q: Quota, today: int, m: Commitment)
    ensures Inv(q) ==> (ReplaceCommitment(q, today, m).Ok? <==> Committable(q, today, m))
  {
    if Inv(q) && ValidCommitment(m) {
      CommitAdmitsExactly(q, today, m);
    }
  }

  class QuotaRow {
    var limits: Limits
    var queued: int
    var running: int
    var cpu: int
    var memory: int
    var gpus: int
    var nvidia: int
    var ascend: int
    var services: int
    var replicas: int
    var serviceCpu: int
    var serviceMemory: int
    var serviceGpus: int
    var serviceNvidia: int
    var serviceAscend: int
    var artifactBytes: int
    var day: int
    var reservedCost: real
    var settledCost: real

    function Counted(): Counters
      reads this
    {
      Counters(queued, running, cpu, memory, gpus, nvidia, ascend, services, replicas, serviceCpu, serviceMemory,
               serviceGpus, serviceNvidia, serviceAscend, artifactBytes, day, reservedCost, settledCost)
    }

    function State(): Quota
      reads this
    {
      Quota(limits, Counted())
    }

    /** `initialize`: a project's first row. */
    constructor (limits: Limits, today: int)
      ensures State() == Fresh(limits, today) && (ValidLimits(limits) ==> Inv(State()))
    {
      this.limits := limits;
      queued, running, cpu, memory, gpus, nvidia, ascend := 0, 0, 0, 0, 0, 0, 0;
      services, replicas, serviceCpu, serviceMemory, serviceGpus, serviceNvidia, serviceAscend := 0, 0, 0, 0, 0, 0, 0;
      artifactBytes, day, reservedCost, settledCost := 0, today, 0.0, 0.0;
    }

    /** `_roll_daily_state`. */
    method RollDaily(today: int)
      modifies `day, `reservedCost, `settledCost
      ensures Counted() == Roll(old(Counted()), today)
    {
      if day != today {
        day := today;
        reservedCost := 0.0;
        settledCost := 0.0;
      }
    }

    method AdmitQueuedTask(today: int) returns (error: Option<Error>)
      modifies `queued, `day, `reservedCost, `settledCost
      ensures AdmitQueued(old(State()), today) == if error.None? then Ok(Counted()) else Err(error.value)
      ensures State() == Apply(old(State()), today, Admit)
      ensures Inv(old(State())) ==> Inv(State())
    {
      StepOutcome(State(), today, Admit);
      if !Sound(Counted()) {
        return Some(Violation);
      }
      var prospective := queued + 1;
      if Exceeds(limits.queued, prospective) {
        return Some(Exceeded(QueuedTasks));
      }
      RollDaily(today);
      queued := prospective;
      error := None;
    }

    method ReleaseQueuedTask(today: int) returns (error: Option<Error>)
      modifies `queued, `day, `reservedCost, `settledCost
      ensures ReleaseQueued(old(State()), today) == if error.None? then Ok(Counted()) else Err(error.value)
      ensures State() == Apply(old(State()), today, Unqueue)
      ensures Inv(old(State())) ==> Inv(State())
    {
      StepOutcome(State(), today, Unqueue);
      if !Sound(Counted()) || queued < 1 {
        return Some(Violation);
      }
      RollDaily(today);
      queued := queued - 1;
      error := None;
    }

    method ReserveExecution(today: int, r: Request) returns (error: Option<Error>)
      modifies `queued, `running, `cpu, `memory, `gpus, `nvidia, `ascend, `day, `reservedCost, `settledCost
      ensures Reserve(old(State()), today, r) == if error.None? then Ok(Counted()) else Err(error.value)
      ensures State() == Apply(old(State()), today, Start(r))
      ensures Inv(old(State())) ==> Inv(State())
      ensures Inv(old(State())) ==> (error.None? <==> Admissible(old(State()), today, r))
    {
      StepOutcome(State(), today, Start(r));
      ReserveOutcome(State(), today, r);
      var outcome := Reserve(State(), today, r);
      if outcome.Err? {
        return Some(outcome.error);
      }
      RollDaily(today);
      CountStarted(r);
      error := None;
    }

    method CountAccelerators(moreNvidia: int, moreAscend: int)
      modifies `gpus, `nvidia, `ascend
      ensures nvidia == old(nvidia) + moreNvidia && ascend == old(ascend) + moreAscend && gpus == nvidia + ascend
    {
      nvidia := nvidia + moreNvidia;
      ascend := ascend + moreAscend;
      gpus := nvidia + ascend;
    }

    method CountStarted(r: Request)
      modifies `queued, `running, `cpu, `memory, `gpus, `nvidia, `ascend, `reservedCost
      ensures Counted() == Started(old(Counted()), r)
    {
      CountAccelerators(Of(Nvidia, r.gpus, r.vendor), Of(Ascend, r.gpus, r.vendor));
      queued, running := queued - 1, running + 1;
      cpu, memory, reservedCost := cpu + r.cpu, memory + r.memory, reservedCost + r.cost;
    }

    method ReleaseExecution(today: int, s: Settlement) returns (error: Option<Error>)
      modifies `running, `cpu, `memory, `gpus, `nvidia, `ascend, `day, `reservedCost, `settledCost
      ensures Release(old(State()), today, s) == if error.None? then Ok(Counted()) else Err(error.value)
      ensures State() == Apply(old(State()), today, Settle(s))
      ensures Inv(old(State())) ==> Inv(State())
    {
      StepOutcome(State(), today, Settle(s));
      var outcome := Release(State(), today, s);
      if outcome.Err? {
        return Some(outcome.error);
      }
      RollDaily(today);
      CountFinished(s);
      error := None;
    }

    method CountFinished(s: Settlement)
      modifies `running, `cpu, `memory, `gpus, `nvidia, `ascend, `reservedCost, `settledCost
      ensures Counted() == Finished(old(Counted()), s)
    {
      var r := s.request;
      SettleCost(s);
      running := running - 1;
      cpu := cpu - r.cpu;
      memory := memory - r.memory;
      CountAccelerators(-Of(Nvidia, r.gpus, r.vendor), -Of(Ascend, r.gpus, r.vendor));
    }

    method SettleCost(s: Settlement)
      modifies `reservedCost, `settledCost
      ensures reservedCost == Finished(old(Counted()), s).reservedCost
      ensures settledCost == old(settledCost) + s.cost
    {
      if s.reservedOn.None? || s.reservedOn.value == day {
        reservedCost := reservedCost - s.request.cost;
      }
      settledCost := settledCost + s.cost;
    }

    method ReplaceServiceCommitment(today: int, m: Commitment) returns (error: Option<Error>)
      modifies `services, `replicas, `serviceCpu, `serviceMemory, `serviceGpus, `serviceNvidia, `serviceAscend, `day,
               `reservedCost, `settledCost
      ensures ReplaceCommitment(old(State()), today, m) == if error.None? then Ok(Counted()) else Err(error.value)
      ensures State() == Apply(old(State()), today, Commit(m))
      ensures Inv(old(State())) ==> Inv(State())
      ensures Inv(old(State())) ==> (error.None? <==> Committable(old(State()), today, m))
    {
      StepOutcome(State(), today, Commit(m));
      CommitOutcome(State(), today, m);
      var outcome := ReplaceCommitment(State(), today, m);
      if outcome.Err? {
        return Some(outcome.error);
      }
      RollDaily(today);
      if m.desired != m.current {
        CountCommitted(m);
      }
      error := None;
    }

    method CountCommitted(m: Commitment)
      modifies `services, `replicas, `serviceCpu, `serviceMemory, `serviceGpus, `serviceNvidia, `serviceAscend
      ensures Counted() == Committed(old(Counted()), m)
    {
      var next := Committed(Counted(), m);
      services, replicas, serviceCpu, serviceMemory, serviceGpus, serviceNvidia, serviceAscend :=
        next.services, next.replicas, next.serviceCpu, next.serviceMemory, next.serviceGpus, next.serviceNvidia, next.serviceAscend;
    }

    /** `replace`: new limits, refused while the counters exceed one of them. */
    method ReplaceLimitsWith(today: int, l: Limits) returns (error: Option<Error>)
      modifies `limits, `day, `reservedCost, `settledCost
      ensures ReplaceLimits(old(State()), today, l) == if error.None? then Ok(Counted()) else Err(error.value)
      ensures State() == Apply(old(State()), today, Limit(l))
      ensures Inv(old(State())) ==> Inv(State())
    {
      StepOutcome(State(), today, Limit(l));
      var outcome := ReplaceLimits(State(), today, l);
      if outcome.Err? {
        return Some(outcome.error);
      }
      RollDaily(today);
      limits := l;
      error := None;
    }
  }
}
