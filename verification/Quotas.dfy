/** Project quota counters: the limits they keep, and the operations that move them. */
module Quotas {
  import opened Accelerators
  import opened Common

  datatype Limits = Limits(
    queued: Option<int>, running: Option<int>, cpu: Option<int>, memory: Option<int>, gpus: Option<int>,
    nvidia: Option<int>, ascend: Option<int>, services: Option<int>, replicas: Option<int>,
    artifactBytes: Option<int>, dailyCost: Option<real>)

  datatype Counters = Counters(
    queued: int, running: int, cpu: int, memory: int, gpus: int, nvidia: int, ascend: int,
    services: int, replicas: int, serviceCpu: int, serviceMemory: int, serviceGpus: int, serviceNvidia: int,
    serviceAscend: int, artifactBytes: int, day: int, reservedCost: real, settledCost: real)

  datatype Quota = Quota(limits: Limits, counters: Counters)

  datatype Resource =
    | QueuedTasks | RunningTasks | CpuMillicores | MemoryMb | Gpus | NvidiaGpus | AscendNpus
    | Services | ServiceReplicas | ArtifactBytes | DailyCost

  datatype Error = BadInput | Violation | Exceeded(resource: Resource)

  /** One execution's resources. */
  datatype Request = Request(cpu: int, memory: int, gpus: int, vendor: Option<Vendor>, cost: real)

  /** Settling an execution: its request, the day it was reserved on if known, and the final cost. */
  datatype Settlement = Settlement(request: Request, reservedOn: Option<int>, cost: real)

  /** One replica's resources, and the replica counts a service moves between. */
  datatype Commitment = Commitment(cpu: int, memory: int, gpus: int, vendor: Option<Vendor>, current: int, desired: int)

  // ------------------------------------------------------------------------- invariants

  /** `_assert_state_nonnegative`. */
  predicate Sound(c: Counters) {
    && c.queued >= 0 && c.running >= 0 && c.cpu >= 0 && c.memory >= 0 && c.gpus >= 0 && c.nvidia >= 0 && c.ascend >= 0
    && c.services >= 0 && c.replicas >= 0 && c.serviceCpu >= 0 && c.serviceMemory >= 0 && c.serviceGpus >= 0
    && c.serviceNvidia >= 0 && c.serviceAscend >= 0 && c.artifactBytes >= 0 && c.reservedCost >= 0.0 && c.settledCost >= 0.0
    && c.gpus == c.nvidia + c.ascend && c.serviceGpus == c.serviceNvidia + c.serviceAscend
  }

  predicate Exceeds(limit: Option<int>, requested: int) {
    limit.Some? && requested > limit.value
  }

  predicate ExceedsCost(limit: Option<real>, requested: real) {
    limit.Some? && requested > limit.value
  }

  /** No hard limit is exceeded, tasks and services counted together. */
  predicate WithinLimits(l: Limits, c: Counters) {
    && !Exceeds(l.queued, c.queued)
    && !Exceeds(l.running, c.running + c.replicas)
    && !Exceeds(l.cpu, c.cpu + c.serviceCpu)
    && !Exceeds(l.memory, c.memory + c.serviceMemory)
    && !Exceeds(l.gpus, c.gpus + c.serviceGpus)
    && !Exceeds(l.nvidia, c.nvidia + c.serviceNvidia)
    && !Exceeds(l.ascend, c.ascend + c.serviceAscend)
    && !Exceeds(l.services, c.services)
    && !Exceeds(l.replicas, c.replicas)
    && !Exceeds(l.artifactBytes, c.artifactBytes)
  }

  predicate NonNegative(limit: Option<int>) {
    limit.None? || limit.value >= 0
  }

  predicate ValidLimits(l: Limits) {
    && NonNegative(l.queued) && NonNegative(l.running) && NonNegative(l.cpu) && NonNegative(l.memory)
    && NonNegative(l.gpus) && NonNegative(l.nvidia) && NonNegative(l.ascend) && NonNegative(l.services)
    && NonNegative(l.replicas) && NonNegative(l.artifactBytes) && (l.dailyCost.None? || l.dailyCost.value >= 0.0)
  }

  predicate Inv(q: Quota) {
    Sound(q.counters) && ValidLimits(q.limits) && WithinLimits(q.limits, q.counters)
  }

  const UNLIMITED := Limits(None, None, None, None, None, None, None, None, None, None, None)

  /** A project's first quota row: nothing in use. */
  function Fresh(limits: Limits, day: int): Quota {
    Quota(limits, Counters(0, 0, 0, 0, 0, 0, 0, 0, 0, 0, 0, 0, 0, 0, 0, day, 0.0, 0.0))
  }

  // ------------------------------------------------------------------------- operations

  /** `_normalize_accelerator_vendor`: no accelerators have no vendor, and NVIDIA is the default. */
  function Normalized(gpus: int, vendor: Option<Vendor>): Option<Vendor> {
    if gpus == 0 then None else if vendor.None? then Some(Nvidia) else vendor
  }

  function Of(vendor: Vendor, gpus: int, requested: Option<Vendor>): int {
    if Normalized(gpus, requested) == Some(vendor) then gpus else 0
  }

  /** `_roll_daily_state`. */
  function Roll(c: Counters, day: int): Counters {
    if c.day == day then c else c.(day := day, reservedCost := 0.0, settledCost := 0.0)
  }

  predicate ValidRequest(r: Request) {
    r.cpu >= 0 && r.memory >= 0 && r.gpus >= 0 && r.cost >= 0.0
  }

  /** The counters once one queued task runs with `r`. */
  function Started(c: Counters, r: Request): Counters {
    c.(queued := c.queued - 1, running := c.running + 1, cpu := c.cpu + r.cpu, memory := c.memory + r.memory,
       nvidia := c.nvidia + Of(Nvidia, r.gpus, r.vendor), ascend := c.ascend + Of(Ascend, r.gpus, r.vendor),
       gpus := c.nvidia + Of(Nvidia, r.gpus, r.vendor) + c.ascend + Of(Ascend, r.gpus, r.vendor),
       reservedCost := c.reservedCost + r.cost)
  }

  predicate CostIsToday(c: Counters, s: Settlement) {
    s.reservedOn.None? || s.reservedOn.value == c.day
  }

  /** The counters once an execution is settled. */
  function Finished(c: Counters, s: Settlement): Counters {
    var r := s.request;
    c.(running := c.running - 1, cpu := c.cpu - r.cpu, memory := c.memory - r.memory,
       nvidia := c.nvidia - Of(Nvidia, r.gpus, r.vendor), ascend := c.ascend - Of(Ascend, r.gpus, r.vendor),
       gpus := c.nvidia - Of(Nvidia, r.gpus, r.vendor) + c.ascend - Of(Ascend, r.gpus, r.vendor),
       reservedCost := if CostIsToday(c, s) then c.reservedCost - r.cost else c.reservedCost,
       settledCost := c.settledCost + s.cost)
  }

  predicate ValidCommitment(m: Commitment) {
    m.current >= 0 && m.desired >= 0 && m.cpu >= 0 && m.memory >= 0 && m.gpus >= 0
  }

  function Present(replicas: int): int {
    if replicas > 0 then 1 else 0
  }

  /** The counters once a service moves from its current to its desired replicas. */
  function Committed(c: Counters, m: Commitment): Counters {
    var delta := m.desired - m.current;
    var nvidia := c.serviceNvidia + (if Normalized(m.gpus, m.vendor) == Some(Nvidia) then m.gpus * delta else 0);
    var ascend := c.serviceAscend + (if Normalized(m.gpus, m.vendor) == Some(Ascend) then m.gpus * delta else 0);
    c.(services := c.services + Present(m.desired) - Present(m.current), replicas := c.replicas + delta,
       serviceCpu := c.serviceCpu + m.cpu * delta, serviceMemory := c.serviceMemory + m.memory * delta,
       serviceNvidia := nvidia, serviceAscend := ascend, serviceGpus := nvidia + ascend)
  }

  predicate CommitmentCovered(c: Counters) {
    && c.services >= 0 && c.replicas >= 0 && c.serviceCpu >= 0 && c.serviceMemory >= 0
    && c.serviceGpus >= 0 && c.serviceNvidia >= 0 && c.serviceAscend >= 0
  }

  /** `get_locked`: check the row, then roll it to the current day. */
  function Locked(c: Counters, day: int): Result<Counters, Error> {
    if Sound(c) then Ok(Roll(c, day)) else Err(Violation)
  }

  function AdmitQueued(q: Quota, day: int): Result<Counters, Error> {
    if !Sound(q.counters) then Err(Violation)
    else
      var c := Roll(q.counters, day);
      if Exceeds(q.limits.queued, c.queued + 1) then Err(Exceeded(QueuedTasks)) else Ok(c.(queued := c.queued + 1))
  }

  function ReleaseQueued(q: Quota, day: int): Result<Counters, Error> {
    if !Sound(q.counters) then Err(Violation)
    else
      var c := Roll(q.counters, day);
      if c.queued < 1 then Err(Violation) else Ok(c.(queued := c.queued - 1))
  }

  function Reserve(q: Quota, day: int, r: Request): Result<Counters, Error> {
    if !ValidRequest(r) then Err(BadInput)
    else if !Sound(q.counters) then Err(Violation)
    else
      var c, l := Roll(q.counters, day), q.limits;
      if c.queued < 1 then Err(Violation)
      else if Exceeds(l.running, c.running + c.replicas + 1) then Err(Exceeded(RunningTasks))
      else if Exceeds(l.cpu, c.cpu + c.serviceCpu + r.cpu) then Err(Exceeded(CpuMillicores))
      else if Exceeds(l.memory, c.memory + c.serviceMemory + r.memory) then Err(Exceeded(MemoryMb))
      else if Exceeds(l.gpus, c.gpus + c.serviceGpus + r.gpus) then Err(Exceeded(Gpus))
      else if Exceeds(l.nvidia, c.nvidia + Of(Nvidia, r.gpus, r.vendor) + c.serviceNvidia) then Err(Exceeded(NvidiaGpus))
      else if Exceeds(l.ascend, c.ascend + Of(Ascend, r.gpus, r.vendor) + c.serviceAscend) then Err(Exceeded(AscendNpus))
      else if ExceedsCost(l.dailyCost, c.settledCost + c.reservedCost + r.cost) then Err(Exceeded(DailyCost))
      else Ok(Started(c, r))
  }

  /** The typed counter a release is taken from; none for a release without accelerators. */
  function TypedReserved(c: Counters, r: Request): int {
    match Normalized(r.gpus, r.vendor)
    case Some(Nvidia) => c.nvidia
    case Some(Ascend) => c.ascend
    case None => 0
  }

  predicate Covers(c: Counters, r: Request) {
    && c.running >= 1 && c.cpu >= r.cpu && c.memory >= r.memory && c.gpus >= r.gpus && TypedReserved(c, r) >= r.gpus
  }

  function Release(q: Quota, day: int, s: Settlement): Result<Counters, Error> {
    if !ValidRequest(s.request) || s.cost < 0.0 then Err(BadInput)
    else if !Sound(q.counters) then Err(Violation)
    else
      var c := Roll(q.counters, day);
      if !Covers(c, s.request) || (CostIsToday(c, s) && c.reservedCost < s.request.cost) then Err(Violation)
      else Ok(Finished(c, s))
  }

  function ReplaceCommitment(q: Quota, day: int, m: Commitment): Result<Counters, Error> {
    if !ValidCommitment(m) then Err(BadInput)
    else if !Sound(q.counters) then Err(Violation)
    else
      var c, l := Roll(q.counters, day), q.limits;
      var next := Committed(c, m);
      if !CommitmentCovered(next) then Err(Violation)
      else if Exceeds(l.services, next.services) then Err(Exceeded(Services))
      else if Exceeds(l.replicas, next.replicas) then Err(Exceeded(ServiceReplicas))
      else if Exceeds(l.running, c.running + next.replicas) then Err(Exceeded(RunningTasks))
      else if Exceeds(l.cpu, c.cpu + next.serviceCpu) then Err(Exceeded(CpuMillicores))
      else if Exceeds(l.memory, c.memory + next.serviceMemory) then Err(Exceeded(MemoryMb))
      else if Exceeds(l.gpus, c.gpus + next.serviceGpus) then Err(Exceeded(Gpus))
      else if Exceeds(l.nvidia, c.nvidia + next.serviceNvidia) then Err(Exceeded(NvidiaGpus))
      else if Exceeds(l.ascend, c.ascend + next.serviceAscend) then Err(Exceeded(AscendNpus))
      else if m.desired == m.current then Ok(c)
      else Ok(next)
  }

  function ReplaceLimits(q: Quota, day: int, l: Limits): Result<Counters, Error> {
    if !ValidLimits(l) then Err(BadInput)
    else if !Sound(q.counters) then Err(Violation)
    else
      var c := Roll(q.counters, day);
      if Exceeds(l.queued, c.queued) then Err(Exceeded(QueuedTasks))
      else if Exceeds(l.running, c.running + c.replicas) then Err(Exceeded(RunningTasks))
      else if Exceeds(l.cpu, c.cpu + c.serviceCpu) then Err(Exceeded(CpuMillicores))
      else if Exceeds(l.memory, c.memory + c.serviceMemory) then Err(Exceeded(MemoryMb))
      else if Exceeds(l.gpus, c.gpus + c.serviceGpus) then Err(Exceeded(Gpus))
      else if Exceeds(l.nvidia, c.nvidia + c.serviceNvidia) then Err(Exceeded(NvidiaGpus))
      else if Exceeds(l.ascend, c.ascend + c.serviceAscend) then Err(Exceeded(AscendNpus))
      else if Exceeds(l.services, c.services) then Err(Exceeded(Services))
      else if Exceeds(l.replicas, c.replicas) then Err(Exceeded(ServiceReplicas))
      else if Exceeds(l.artifactBytes, c.artifactBytes) then Err(Exceeded(ArtifactBytes))
      else if ExceedsCost(l.dailyCost, c.reservedCost + c.settledCost) then Err(Exceeded(DailyCost))
      else Ok(c)
  }

  // ------------------------------------------------------- what admission means, exactly

  lemma TypesCoverRequest(gpus: int, vendor: Option<Vendor>)
    ensures Of(Nvidia, gpus, vendor) + Of(Ascend, gpus, vendor) == gpus
  {
    if vendor.Some? {
      match vendor.value
      case Nvidia =>
      case Ascend =>
    }
  }

  /** From a sound state within limits, an execution is admitted exactly when a task is queued and the
      resulting state is within every hard limit and the daily cost limit. */
  lemma ReserveAdmitsExactly(q: Quota, day: int, r: Request)
    requires Inv(q) && ValidRequest(r)
    ensures var next := Started(Roll(q.counters, day), r);
            Reserve(q, day, r).Ok? <==>
              && q.counters.queued >= 1 && WithinLimits(q.limits, next)
              && !ExceedsCost(q.limits.dailyCost, next.settledCost + next.reservedCost)
  {
    TypesCoverRequest(r.gpus, r.vendor);
  }

  /** A commitment is admitted exactly when it is covered by the counters and the result is within limits. */
  lemma CommitAdmitsExactly(q: Quota, day: int, m: Commitment)
    requires Inv(q) && ValidCommitment(m)
    ensures var next := Committed(Roll(q.counters, day), m);
            ReplaceCommitment(q, day, m).Ok? <==> CommitmentCovered(next) && WithinLimits(q.limits, next)
  {
  }

  /** Limits may be replaced exactly by those the current counters respect. */
  lemma LimitsReplacedExactly(q: Quota, day: int, l: Limits)
    requires Inv(q) && ValidLimits(l)
    ensures var c := Roll(q.counters, day);
            ReplaceLimits(q, day, l).Ok? <==>
              WithinLimits(l, c) && !ExceedsCost(l.dailyCost, c.reservedCost + c.settledCost)
  {
  }

  /** Input is rejected as such exactly when some amount in it is negative. */
  lemma BadInputExactly(q: Quota, day: int, r: Request, s: Settlement, m: Commitment)
    ensures Reserve(q, day, r) == Err(BadInput) <==> r.cpu < 0 || r.memory < 0 || r.gpus < 0 || r.cost < 0.0
    ensures Release(q, day, s) == Err(BadInput) <==>
            s.request.cpu < 0 || s.request.memory < 0 || s.request.gpus < 0 || s.request.cost < 0.0 || s.cost < 0.0
    ensures ReplaceCommitment(q, day, m) == Err(BadInput) <==>
            m.cpu < 0 || m.memory < 0 || m.gpus < 0 || m.current < 0 || m.desired < 0
  {
  }

  predicate Negative(limit: Option<int>) {
    limit.Some? && limit.value < 0
  }

  lemma BadLimitsExactly(q: Quota, day: int, l: Limits)
    ensures ReplaceLimits(q, day, l) == Err(BadInput) <==>
            || Negative(l.queued) || Negative(l.running) || Negative(l.cpu) || Negative(l.memory) || Negative(l.gpus)
            || Negative(l.nvidia) || Negative(l.ascend) || Negative(l.services) || Negative(l.replicas)
            || Negative(l.artifactBytes) || (l.dailyCost.Some? && l.dailyCost.value < 0.0)
  {
  }

  /** Accelerators of an unnamed vendor count as NVIDIA's, those of a named one as that vendor's. */
  lemma CountedByVendor(gpus: int, vendor: Option<Vendor>)
    ensures Of(Nvidia, gpus, vendor) == if vendor == Some(Ascend) then 0 else gpus
    ensures Of(Ascend, gpus, vendor) == if vendor == Some(Ascend) then gpus else 0
  {
    if vendor.Some? {
      match vendor.value
      case Nvidia =>
      case Ascend =>
    }
  }

  // ------------------------------------------------------------------------------- runs

  datatype Operation =
    | Lock
    | Admit
    | Unqueue
    | Start(request: Request)
    | Settle(settlement: Settlement)
    | Commit(commitment: Commitment)
    | Limit(limits: Limits)

  function Outcome(q: Quota, day: int, op: Operation): Result<Counters, Error> {
    match op
    case Lock => Locked(q.counters, day)
    case Admit => AdmitQueued(q, day)
    case Unqueue => ReleaseQueued(q, day)
    case Start(r) => Reserve(q, day, r)
    case Settle(s) => Release(q, day, s)
    case Commit(m) => ReplaceCommitment(q, day, m)
    case Limit(l) => ReplaceLimits(q, day, l)
  }

  /** A raised error aborts the transaction. */
  function Apply(q: Quota, day: int, op: Operation): Quota {
    match Outcome(q, day, op)
    case Ok(c) => Quota(if op.Limit? then op.limits else q.limits, c)
    case Err(_) => q
  }

  function Run(q: Quota, steps: seq<(int, Operation)>): Quota
    decreases |steps|
  {
    if steps == [] then q else Run(Apply(q, steps[0].0, steps[0].1), steps[1..])
  }

  lemma StartKeepsInv(q: Quota, day: int, r: Request)
    requires Inv(q)
    ensures Inv(Apply(q, day, Start(r)))
  {
    if Reserve(q, day, r).Ok? {
      ReserveAdmitsExactly(q, day, r);
    }
  }

  lemma SettleKeepsInv(q: Quota, day: int, s: Settlement)
    requires Inv(q)
    ensures Inv(Apply(q, day, Settle(s)))
  {
    if Release(q, day, s).Ok? {
      assert Sound(Finished(Roll(q.counters, day), s));
    }
  }

  lemma CommitKeepsInv(q: Quota, day: int, m: Commitment)
    requires Inv(q)
    ensures Inv(Apply(q, day, Commit(m)))
  {
    if ReplaceCommitment(q, day, m).Ok? {
      CommitAdmitsExactly(q, day, m);
      RollKeepsInv(q, day);
    }
  }

  lemma LimitKeepsInv(q: Quota, day: int, l: Limits)
    requires Inv(q)
    ensures Inv(Apply(q, day, Limit(l)))
  {
  }

  lemma RollKeepsInv(q: Quota, day: int)
    requires Inv(q)
    ensures Inv(Quota(q.limits, Roll(q.counters, day))) && Roll(q.counters, day).queued == q.counters.queued
  {
  }

  lemma RequeueKeepsInv(q: Quota, queued: int)
    requires Inv(q) && queued >= 0 && !Exceeds(q.limits.queued, queued)
    ensures Inv(Quota(q.limits, q.counters.(queued := queued)))
  {
  }

  lemma QueueKeepsInv(q: Quota, day: int, op: Operation)
    requires Inv(q) && (op.Lock? || op.Admit? || op.Unqueue?)
    ensures Inv(Apply(q, day, op))
  {
    RollKeepsInv(q, day);
    var rolled := Quota(q.limits, Roll(q.counters, day));
    if op.Admit? && AdmitQueued(q, day).Ok? {
      RequeueKeepsInv(rolled, q.counters.queued + 1);
    } else if op.Unqueue? && ReleaseQueued(q, day).Ok? {
      RequeueKeepsInv(rolled, q.counters.queued - 1);
    }
  }

  lemma StepKeepsInv(q: Quota, day: int, op: Operation)
    requires Inv(q)
    ensures Inv(Apply(q, day, op))
  {
    match op
    case Start(r) => StartKeepsInv(q, day, r);
    case Settle(s) => SettleKeepsInv(q, day, s);
    case Commit(m) => CommitKeepsInv(q, day, m);
    case Limit(l) => LimitKeepsInv(q, day, l);
    case _ => QueueKeepsInv(q, day, op);
  }

  /** No run of quota operations, on whatever days, exceeds a limit, drives a counter below zero or
      separates an accelerator total from its typed counters. */
  lemma {:induction false} RunsStayWithinLimits(limits: Limits, day: int, steps: seq<(int, Operation)>)
    requires ValidLimits(limits)
    ensures Inv(Run(Fresh(limits, day), steps))
  {
    RunKeepsInv(Fresh(limits, day), steps);
  }

  lemma {:induction false} RunKeepsInv(q: Quota, steps: seq<(int, Operation)>)
    requires Inv(q)
    ensures Inv(Run(q, steps))
    decreases |steps|
  {
    if steps != [] {
      StepKeepsInv(q, steps[0].0, steps[0].1);
      RunKeepsInv(Apply(q, steps[0].0, steps[0].1), steps[1..]);
    }
  }
}
