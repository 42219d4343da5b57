/** Choosing what to schedule next: three bounded query lanes against the full policy order. */
module CandidateLanes {
  import opened Common
  import opened Sorting

  /** A queued task whose dependencies are satisfied and which is not excluded. */
  datatype Task = Task(
    id: nat, project: nat, unschedulable: bool, priority: int, queuedAt: Option<real>, queueOrder: int)

  datatype Usage = Usage(cpu: nat, memory: nat, gpus: nat)

  /** One scheduling round: the clock, the aging interval, the cluster size and project usage. */
  datatype Round = Round(now: real, agingSeconds: int, cluster: Usage, used: map<nat, Usage>)

  const MAX_PRIORITY := 100

  // ------------------------------------------------------------ effective priority

  /** `scheduler.policies.effective_priority`. */
  function EffectivePriority(t: Task, round: Round): int
    requires round.agingSeconds >= 1
  {
    if t.queuedAt.None? then t.priority
    else
      var elapsed := round.now - t.queuedAt.value;
      var waited := if elapsed > 0.0 then elapsed else 0.0;
      Min(MAX_PRIORITY, t.priority + (waited / round.agingSeconds as real).Floor)
  }

  /** `_effective_priority_expression`, as the database evaluates it. */
  function SqlEffectivePriority(t: Task, round: Round): int
    requires round.agingSeconds >= 1
  {
    var elapsed :=
      if t.queuedAt.None? then 0.0
      else if round.now - t.queuedAt.value > 0.0 then round.now - t.queuedAt.value
      else 0.0;
    var uncapped := t.priority + (elapsed / round.agingSeconds as real).Floor;
    if uncapped >= MAX_PRIORITY then MAX_PRIORITY else uncapped
  }

  /** The SQL mirror is exact but for a task that was never queued and whose raw priority lies
      above the cap, which the CHECK constraint on priorities rules out. */
  lemma SqlPriorityMirrorsPolicy(t: Task, round: Round)
    requires round.agingSeconds >= 1
    ensures SqlEffectivePriority(t, round) == EffectivePriority(t, round) <==> t.queuedAt.Some? || t.priority <= MAX_PRIORITY
  {
  }

  // ----------------------------------------------------------------- dominant share

  function MaxReal(x: real, y: real): real {
    if x >= y then x else y
  }

  function Fraction(part: nat, whole: nat): real {
    part as real / Max(1, whole) as real
  }

  /** `scheduler.policies.dominant_share`. */
  function DominantShare(used: Usage, cluster: Usage): real {
    var gpuShare :=
      if cluster.gpus != 0 then Fraction(used.gpus, cluster.gpus) else if used.gpus != 0 then 1.0 else 0.0;
    MaxReal(Fraction(used.cpu, cluster.cpu), MaxReal(Fraction(used.memory, cluster.memory), gpuShare))
  }

  /** The share expression of `project_fair_candidate_query`: missing rows count as zero. */
  function SqlDominantShare(used: Option<Usage>, cluster: Usage): real {
    var u := if used.Some? then used.value else Usage(0, 0, 0);
    var cpuShare := Fraction(u.cpu, cluster.cpu);
    var memoryShare := Fraction(u.memory, cluster.memory);
    var gpuShare := if cluster.gpus != 0 then u.gpus as real / cluster.gpus as real else if u.gpus > 0 then 1.0 else 0.0;
    var cpuOrMemory := if cpuShare >= memoryShare then cpuShare else memoryShare;
    if cpuOrMemory >= gpuShare then cpuOrMemory else gpuShare
  }

  function UsageOf(round: Round, project: nat): Option<Usage> {
    if project in round.used then Some(round.used[project]) else None
  }

  function Share(round: Round, project: nat): real {
    if project in round.used then DominantShare(round.used[project], round.cluster) else 0.0
  }

  lemma SqlShareMirrorsPolicy(round: Round, project: nat)
    ensures SqlDominantShare(UsageOf(round, project), round.cluster) == Share(round, project)
  {
  }

  // --------------------------------------------------------------------- sort keys

  function Flag(b: bool): real {
    if b then 1.0 else 0.0
  }

  /** Ascending timestamps with absent ones last. */
  function QueuedKey(t: Task): Key {
    if t.queuedAt.Some? then [0.0, t.queuedAt.value] else [1.0, 0.0]
  }

  /** What the task table guarantees: unique ids and priorities within their CHECK constraint. */
  ghost predicate ValidRows(tasks: seq<Task>) {
    && (forall i, j :: 0 <= i < j < |tasks| ==> tasks[i].id != tasks[j].id)
    && (forall t :: t in tasks ==> 0 <= t.priority <= MAX_PRIORITY)
  }

  ghost predicate ValidRound(round: Round, tasks: seq<Task>) {
    round.agingSeconds >= 1 && ValidRows(tasks)
  }

  /** Order of the effective-priority lane, also used to rank the tasks of one project. */
  function AgedKey(round: Round, t: Task): Key
    requires round.agingSeconds >= 1
  {
    [Flag(t.unschedulable), -(SqlEffectivePriority(t, round) as real), t.queueOrder as real] + QueuedKey(t) + [t.id as real]
  }

  function RawKey(t: Task): Key {
    [Flag(t.unschedulable), -(t.priority as real), t.queueOrder as real] + QueuedKey(t) + [t.id as real]
  }

  function FairKey(round: Round, t: Task): Key
    requires round.agingSeconds >= 1
  {
    [Flag(t.unschedulable), -(SqlEffectivePriority(t, round) as real),
     SqlDominantShare(UsageOf(round, t.project), round.cluster), t.queueOrder as real] + QueuedKey(t) + [t.id as real]
  }

  /** The policy: schedulable first, then aged priority, then the least served project, then queue order. */
  function PolicyKey(round: Round, t: Task): Key
    requires round.agingSeconds >= 1
  {
    [Flag(t.unschedulable), -(EffectivePriority(t, round) as real), Share(round, t.project), t.queueOrder as real]
  }

  /** The final sort breaks policy ties by task id. */
  function FullKey(round: Round, t: Task): Key
    requires round.agingSeconds >= 1
  {
    PolicyKey(round, t) + [t.id as real]
  }

  // --------------------------------------------------------------------------- lanes

  function Aged(round: Round): Task -> Key
    requires round.agingSeconds >= 1
  {
    t => AgedKey(round, t)
  }

  function Fair(round: Round): Task -> Key
    requires round.agingSeconds >= 1
  {
    t => FairKey(round, t)
  }

  function Full(round: Round): Task -> Key
    requires round.agingSeconds >= 1
  {
    t => FullKey(round, t)
  }

  function Limit(s: seq<Task>, n: nat): seq<Task> {
    if |s| <= n then s else s[..n]
  }

  predicate IsHead(round: Round, tasks: seq<Task>, t: Task)
    requires round.agingSeconds >= 1
  {
    forall u :: u in tasks && u.project == t.project ==> Leq(AgedKey(round, t), AgedKey(round, u))
  }

  function Heads(round: Round, tasks: seq<Task>, all: seq<Task>): (heads: seq<Task>)
    requires round.agingSeconds >= 1
    ensures forall t :: t in heads <==> t in tasks && IsHead(round, all, t)
    ensures |heads| <= |tasks|
  {
    if tasks == [] then []
    else
      var rest := Heads(round, tasks[1..], all);
      if IsHead(round, all, tasks[0]) then [tasks[0]] + rest else rest
  }

  function AgedLane(round: Round, tasks: seq<Task>, n: nat): seq<Task>
    requires round.agingSeconds >= 1
  {
    Limit(SortBy(tasks, Aged(round)), n)
  }

  function RawLane(tasks: seq<Task>, n: nat): seq<Task> {
    Limit(SortBy(tasks, RawKey), n)
  }

  function FairLane(round: Round, tasks: seq<Task>, n: nat): seq<Task>
    requires round.agingSeconds >= 1
  {
    Limit(SortBy(Heads(round, tasks, tasks), Fair(round)), n)
  }

  lemma LimitKeepsMembers(s: seq<Task>, key: Task -> Key, n: nat)
    ensures |Limit(SortBy(s, key), n)| <= n
    ensures forall t :: t in Limit(SortBy(s, key), n) ==> t in s
    ensures n >= |s| ==> forall t :: t in s ==> t in Limit(SortBy(s, key), n)
  {
    SortSorts(s, key);
  }

  lemma LanesAreTasks(round: Round, tasks: seq<Task>, n: nat)
    requires round.agingSeconds >= 1
    ensures forall t :: t in AgedLane(round, tasks, n) || t in RawLane(tasks, n) || t in FairLane(round, tasks, n) ==> t in tasks
    ensures |AgedLane(round, tasks, n)| <= n && |RawLane(tasks, n)| <= n && |FairLane(round, tasks, n)| <= n
    ensures n >= |tasks| ==> forall t :: t in tasks ==> t in AgedLane(round, tasks, n)
  {
    LimitKeepsMembers(tasks, Aged(round), n);
    LimitKeepsMembers(tasks, RawKey, n);
    LimitKeepsMembers(Heads(round, tasks, tasks), Fair(round), n);
  }

  // ----------------------------------------------- the fair lane starts at the policy minimum

  lemma {:induction false} LeastElement(tasks: seq<Task>, key: Task -> Key) returns (least: Task)
    requires tasks != []
    ensures least in tasks && AtMostAll(least, tasks, key)
  {
    SortSorts(tasks, key);
    least := SortBy(tasks, key)[0];
    assert least in SortBy(tasks, key);
  }

  function SameProject(tasks: seq<Task>, project: nat): (r: seq<Task>)
    ensures forall t :: t in r <==> t in tasks && t.project == project
  {
    if tasks == [] then []
    else
      var rest := SameProject(tasks[1..], project);
      if tasks[0].project == project then [tasks[0]] + rest else rest
  }

  lemma ProjectHasHead(round: Round, tasks: seq<Task>, t: Task) returns (head: Task)
    requires round.agingSeconds >= 1 && t in tasks
    ensures head in Heads(round, tasks, tasks) && head.project == t.project
    ensures Leq(AgedKey(round, head), AgedKey(round, t))
  {
    head := LeastElement(SameProject(tasks, t.project), Aged(round));
    assert Leq(Aged(round)(head), Aged(round)(t));
    forall u | u in tasks && u.project == head.project ensures Leq(AgedKey(round, head), AgedKey(round, u)) {
      assert Leq(Aged(round)(head), Aged(round)(u));
    }
  }

  /** Equal third components do not change a comparison. */
  lemma InsertEqualComponent(a: real, b: real, c: real, a': real, b': real, c': real, share: real)
    requires Leq([a, b, c], [a', b', c'])
    ensures Leq([a, b, share, c], [a', b', share, c'])
  {
  }

  lemma PolicyPrefixes(round: Round, t: Task)
    requires round.agingSeconds >= 1 && t.priority <= MAX_PRIORITY
    ensures FairKey(round, t)[..4] == PolicyKey(round, t) == FullKey(round, t)[..4]
    ensures AgedKey(round, t)[..3] == [PolicyKey(round, t)[0], PolicyKey(round, t)[1], PolicyKey(round, t)[3]]
  {
  }

  lemma HeadBeatsItsProject(round: Round, head: Task, t: Task)
    requires round.agingSeconds >= 1 && head.priority <= MAX_PRIORITY && t.priority <= MAX_PRIORITY
    requires head.project == t.project && Leq(AgedKey(round, head), AgedKey(round, t))
    ensures Leq(PolicyKey(round, head), PolicyKey(round, t))
  {
    PolicyPrefixes(round, head);
    PolicyPrefixes(round, t);
    LeqOnPrefix(AgedKey(round, head), AgedKey(round, t), 3);
    var p, q := PolicyKey(round, head), PolicyKey(round, t);
    InsertEqualComponent(p[0], p[1], p[3], q[0], q[1], q[3], Share(round, t.project));
    assert p == [p[0], p[1], p[2], p[3]] && q == [q[0], q[1], q[2], q[3]];
  }

  /** With room for one task, the fair lane already starts at the policy minimum of all tasks. */
  lemma FairLaneStartsAtPolicyMinimum(round: Round, tasks: seq<Task>, n: nat)
    requires ValidRound(round, tasks) && tasks != [] && n >= 1
    ensures FairLane(round, tasks, n) != []
    ensures forall t :: t in tasks ==> Leq(PolicyKey(round, FairLane(round, tasks, n)[0]), PolicyKey(round, t))
  {
    var heads := Heads(round, tasks, tasks);
    SortSorts(heads, Fair(round));
    var someHead := ProjectHasHead(round, tasks, tasks[0]);
    var first := SortBy(heads, Fair(round))[0];
    assert first in SortBy(heads, Fair(round));
    forall t | t in tasks ensures Leq(PolicyKey(round, first), PolicyKey(round, t)) {
      var head := ProjectHasHead(round, tasks, t);
      HeadBeatsItsProject(round, head, t);
      assert Leq(Fair(round)(first), Fair(round)(head));
      PolicyPrefixes(round, first);
      PolicyPrefixes(round, head);
      LeqOnPrefix(FairKey(round, first), FairKey(round, head), 4);
      LeqTransitive(PolicyKey(round, first), PolicyKey(round, head), PolicyKey(round, t));
    }
  }

  // ------------------------------------------------------------------- merging the lanes

  /** Dictionary insertion: a task already present is not added again. */
  method MergeLane(seen: seq<Task>, lane: seq<Task>) returns (merged: seq<Task>)
    requires NoRepeats(seen)
    ensures NoRepeats(merged)
    ensures forall t :: t in merged <==> t in seen || t in lane
    ensures |merged| <= |seen| + |lane|
  {
    merged := seen;
    for i := 0 to |lane|
      invariant NoRepeats(merged)
      invariant forall t :: t in merged <==> t in seen || t in lane[..i]
      invariant |merged| <= |seen| + i
    {
      if lane[i] !in merged {
        merged := merged + [lane[i]];
      }
      assert lane[..i + 1] == lane[..i] + [lane[i]];
    }
    assert lane[..|lane|] == lane;
  }

  ghost predicate InSomeLane(round: Round, tasks: seq<Task>, n: nat, t: Task)
    requires round.agingSeconds >= 1
  {
    t in AgedLane(round, tasks, n) || t in RawLane(tasks, n) || t in FairLane(round, tasks, n)
  }

  /** `choose_candidates`; a limit or aging interval below one is refused. */
  method ChooseCandidates(round: Round, tasks: seq<Task>, scanLimit: int) returns (r: Option<seq<Task>>)
    requires ValidRows(tasks)
    ensures r.None? <==> scanLimit < 1 || round.agingSeconds < 1
    ensures r.Some? ==> IsPolicyScan(round, tasks, scanLimit, r.value)
  {
    if scanLimit < 1 || round.agingSeconds < 1 {
      return None;
    }
    var n: nat := scanLimit;
    LanesAreTasks(round, tasks, n);
    var merged := MergeLane([], AgedLane(round, tasks, n));
    merged := MergeLane(merged, RawLane(tasks, n));
    merged := MergeLane(merged, FairLane(round, tasks, n));
    var candidates := SortBy(merged, Full(round));
    SortSorts(merged, Full(round));
    SortKeepsIdentity(merged, Full(round));
    if tasks != [] {
      FairLaneStartsAtPolicyMinimum(round, tasks, n);
      FirstCandidateIsMinimal(round, tasks, candidates, FairLane(round, tasks, n)[0]);
    }
    r := Some(candidates);
  }

  /** What the bounded scan delivers: the lanes' tasks in full policy order, starting with a
      task no eligible task beats. */
  ghost predicate IsPolicyScan(round: Round, tasks: seq<Task>, n: nat, candidates: seq<Task>)
    requires round.agingSeconds >= 1
  {
    && SortedBy(candidates, Full(round)) && NoRepeats(candidates)
    && (forall t :: t in candidates <==> InSomeLane(round, tasks, n, t))
    && |candidates| <= 3 * n
    && (candidates == [] <==> tasks == [])
    && (tasks != [] ==> forall t :: t in tasks ==> Leq(PolicyKey(round, candidates[0]), PolicyKey(round, t)))
  }

  lemma FirstCandidateIsMinimal(round: Round, tasks: seq<Task>, candidates: seq<Task>, minimum: Task)
    requires ValidRound(round, tasks) && SortedBy(candidates, Full(round)) && minimum in candidates
    requires forall c :: c in candidates ==> c in tasks
    requires forall t :: t in tasks ==> Leq(PolicyKey(round, minimum), PolicyKey(round, t))
    ensures candidates != []
    ensures forall t :: t in tasks ==> Leq(PolicyKey(round, candidates[0]), PolicyKey(round, t))
  {
    var first := candidates[0];
    assert Leq(Full(round)(first), Full(round)(minimum));
    PolicyPrefixes(round, first);
    PolicyPrefixes(round, minimum);
    LeqOnPrefix(FullKey(round, first), FullKey(round, minimum), 4);
    forall t | t in tasks ensures Leq(PolicyKey(round, first), PolicyKey(round, t)) {
      LeqTransitive(PolicyKey(round, first), PolicyKey(round, minimum), PolicyKey(round, t));
    }
  }

  // -------------------------------------------------------- agreement with the full sort

  lemma SameKeySameTask(round: Round, tasks: seq<Task>, a: Task, b: Task)
    requires ValidRound(round, tasks) && a in tasks && b in tasks && FullKey(round, a) == FullKey(round, b)
    ensures a == b
  {
    assert FullKey(round, a)[4] == a.id as real && FullKey(round, b)[4] == b.id as real;
  }

  lemma {:induction false} HeadsHaveNoRepeats(round: Round, tasks: seq<Task>, all: seq<Task>)
    requires round.agingSeconds >= 1 && NoRepeats(tasks)
    ensures NoRepeats(Heads(round, tasks, all))
  {
    if tasks != [] {
      HeadsHaveNoRepeats(round, tasks[1..], all);
      assert tasks[0] !in tasks[1..];
    }
  }

  /** Every lane's key ends in the task id. */
  lemma KeysEndInId(round: Round, t: Task)
    requires round.agingSeconds >= 1
    ensures AgedKey(round, t)[5] == RawKey(t)[5] == FairKey(round, t)[6] == t.id as real
  {
  }

  lemma SameIdSameTask(tasks: seq<Task>, a: Task, b: Task)
    requires ValidRows(tasks) && a in tasks && b in tasks && a.id == b.id
    ensures a == b
  {
  }

  lemma IdKeysIdentify(tasks: seq<Task>, some: seq<Task>, key: Task -> Key, at: nat)
    requires ValidRows(tasks) && NoRepeats(some) && forall t :: t in some ==> t in tasks
    requires forall t :: t in some ==> at < |key(t)| && key(t)[at] == t.id as real
    ensures KeysIdentify(some, key)
  {
    forall a, b | a in some && b in some && key(a) == key(b) ensures a == b {
      assert key(a)[at] == key(b)[at];
      SameIdSameTask(tasks, a, b);
    }
  }

  lemma LaneKeysIdentify(round: Round, tasks: seq<Task>)
    requires ValidRound(round, tasks)
    ensures KeysIdentify(tasks, Aged(round)) && KeysIdentify(tasks, RawKey)
    ensures KeysIdentify(Heads(round, tasks, tasks), Fair(round))
  {
    forall t: Task ensures Aged(round)(t)[5] == RawKey(t)[5] == Fair(round)(t)[6] == t.id as real {
      KeysEndInId(round, t);
    }
    HeadsHaveNoRepeats(round, tasks, tasks);
    IdKeysIdentify(tasks, tasks, Aged(round), 5);
    IdKeysIdentify(tasks, tasks, RawKey, 5);
    IdKeysIdentify(tasks, Heads(round, tasks, tasks), Fair(round), 6);
  }

  /** Fewer than `n` tasks ahead of `t` in the aged order or in the raw order, or `t` is its project's
      head with fewer than `n` heads ahead of it in the fair order. */
  predicate WithinLimit(round: Round, tasks: seq<Task>, n: nat, t: Task)
    requires round.agingSeconds >= 1
  {
    || Ahead(tasks, t, Aged(round)) < n
    || Ahead(tasks, t, RawKey) < n
    || (IsHead(round, tasks, t) && Ahead(Heads(round, tasks, tasks), t, Fair(round)) < n)
  }

  /** The lanes reach exactly the tasks within the limit. */
  lemma LanesReachExactly(round: Round, tasks: seq<Task>, n: nat, t: Task)
    requires ValidRound(round, tasks)
    ensures InSomeLane(round, tasks, n, t) <==> t in tasks && WithinLimit(round, tasks, n, t)
  {
    LaneKeysIdentify(round, tasks);
    LimitReachesExactly(tasks, Aged(round), n, t);
    LimitReachesExactly(tasks, RawKey, n, t);
    LimitReachesExactly(Heads(round, tasks, tasks), Fair(round), n, t);
  }

  /** The bounded scan names the task the full policy sort would name if and only if that task is within
      the scan limit in one of the three orders. */
  lemma FirstCandidateAgreesExactly(round: Round, tasks: seq<Task>, n: nat, candidates: seq<Task>)
    requires ValidRound(round, tasks) && tasks != []
    requires candidates != [] && SortedBy(candidates, Full(round))
    requires forall t :: t in candidates <==> InSomeLane(round, tasks, n, t)
    ensures SortBy(tasks, Full(round)) != []
    ensures candidates[0] == SortBy(tasks, Full(round))[0] <==> WithinLimit(round, tasks, n, SortBy(tasks, Full(round))[0])
  {
    var sorted := SortBy(tasks, Full(round));
    SortSorts(tasks, Full(round));
    LanesAreTasks(round, tasks, n);
    assert candidates[0] in candidates && sorted[0] in sorted;
    LanesReachExactly(round, tasks, n, sorted[0]);
    if sorted[0] in candidates {
      assert Leq(Full(round)(candidates[0]), Full(round)(sorted[0]));
      assert candidates[0] in sorted && Leq(Full(round)(sorted[0]), Full(round)(candidates[0]));
      LeqAntisymmetric(FullKey(round, candidates[0]), FullKey(round, sorted[0]));
      SameKeySameTask(round, tasks, candidates[0], sorted[0]);
    }
  }

  /** Distinct policy keys always reach it: then the scan and the full sort agree for every limit. */
  lemma FirstCandidateAgreesWithoutTies(round: Round, tasks: seq<Task>, n: nat, candidates: seq<Task>)
    requires ValidRound(round, tasks) && tasks != [] && n >= 1
    requires forall i, j :: 0 <= i < j < |tasks| ==> PolicyKey(round, tasks[i]) != PolicyKey(round, tasks[j])
    requires candidates != [] && SortedBy(candidates, Full(round))
    requires forall t :: t in candidates <==> InSomeLane(round, tasks, n, t)
    ensures SortBy(tasks, Full(round)) != [] && candidates[0] == SortBy(tasks, Full(round))[0]
  {
    var sorted := SortBy(tasks, Full(round));
    SortSorts(tasks, Full(round));
    FairLaneStartsAtPolicyMinimum(round, tasks, n);
    LanesAreTasks(round, tasks, n);
    var first, best := FairLane(round, tasks, n)[0], sorted[0];
    assert first in FairLane(round, tasks, n) && best in sorted;
    assert Leq(Full(round)(best), Full(round)(first));
    PolicyPrefixes(round, best);
    PolicyPrefixes(round, first);
    LeqOnPrefix(FullKey(round, best), FullKey(round, first), 4);
    LeqAntisymmetric(PolicyKey(round, best), PolicyKey(round, first));
    assert best == first;
    LanesReachExactly(round, tasks, n, best);
    FirstCandidateAgreesExactly(round, tasks, n, candidates);
  }

  /** Two tasks of one project that tie on the policy key: the lanes order them by the time they
      were queued, the final sort by id. */
  ghost predicate TiedTheOtherWay(round: Round, early: Task, late: Task)
    requires round.agingSeconds >= 1
  {
    && early.queuedAt.Some? && late.queuedAt.Some?
    && early.queuedAt.value < late.queuedAt.value && late.id < early.id
    && early.unschedulable == late.unschedulable && early.queueOrder == late.queueOrder
    && early.priority == late.priority && early.project == late.project
    && SqlEffectivePriority(early, round) == SqlEffectivePriority(late, round)
    && EffectivePriority(early, round) == EffectivePriority(late, round)
  }

  /** For such a pair a scan with limit one misses the task the full sort would name. */
  lemma TiesCanDisagree(round: Round, early: Task, late: Task)
    requires round.agingSeconds >= 1 && TiedTheOtherWay(round, early, late)
    ensures SortBy([early, late], Full(round)) == [late, early]
    ensures !InSomeLane(round, [early, late], 1, late)
  {
    EarlyFirst(early, late, round);
    SortTwo(early, late, Full(round));
    LanesOfTwo(round, early, late);
  }

  /** A concrete pair. */
  lemma TiedPair()
    ensures var round := Round(90.0, 60, Usage(1, 1, 0), map[]);
            var early, late := Task(2, 0, false, 50, Some(80.0), 0), Task(1, 0, false, 50, Some(85.0), 0);
            ValidRound(round, [early, late]) && TiedTheOtherWay(round, early, late)
  {
    assert (10.0 / 60.0).Floor == 0 && (5.0 / 60.0).Floor == 0;
  }

  lemma LanesOfTwo(round: Round, early: Task, late: Task)
    requires round.agingSeconds >= 1 && early.project == late.project && early != late
    requires Leq(AgedKey(round, early), AgedKey(round, late)) && !Leq(AgedKey(round, late), AgedKey(round, early))
    requires Leq(RawKey(early), RawKey(late))
    ensures !InSomeLane(round, [early, late], 1, late)
  {
    SortTwo(early, late, Aged(round));
    SortTwo(early, late, RawKey);
    HeadOfTwo(round, early, late);
    SortOne(early, Fair(round));
    assert [early, late][..1] == [early];
  }

  lemma EarlyFirst(early: Task, late: Task, round: Round)
    requires round.agingSeconds >= 1 && TiedTheOtherWay(round, early, late)
    ensures Leq(AgedKey(round, early), AgedKey(round, late)) && !Leq(AgedKey(round, late), AgedKey(round, early))
    ensures Leq(RawKey(early), RawKey(late))
    ensures !Leq(FullKey(round, early), FullKey(round, late))
  {
    var e, l := [early.queuedAt.value, early.id as real], [late.queuedAt.value, late.id as real];
    var aged := [Flag(early.unschedulable), -(SqlEffectivePriority(early, round) as real), early.queueOrder as real, 0.0];
    assert AgedKey(round, early) == aged + e && AgedKey(round, late) == aged + l;
    LeqBehindCommonPrefix(aged, e, l);
    LeqBehindCommonPrefix(aged, l, e);
    var raw := [Flag(early.unschedulable), -(early.priority as real), early.queueOrder as real, 0.0];
    assert RawKey(early) == raw + e && RawKey(late) == raw + l;
    LeqBehindCommonPrefix(raw, e, l);
    LeqBehindCommonPrefix(PolicyKey(round, early), [early.id as real], [late.id as real]);
  }

  lemma HeadOfTwo(round: Round, early: Task, late: Task)
    requires round.agingSeconds >= 1 && early.project == late.project
    requires Leq(AgedKey(round, early), AgedKey(round, late)) && !Leq(AgedKey(round, late), AgedKey(round, early))
    ensures Heads(round, [early, late], [early, late]) == [early]
  {
    var both := [early, late];
    LeqTotal(AgedKey(round, early), AgedKey(round, early));
    assert IsHead(round, both, early);
    assert early in both && !IsHead(round, both, late);
    assert both[1..] == [late] && [late][1..] == [];
    assert Heads(round, [late], both) == [];
  }

  lemma SortTwo(a: Task, b: Task, key: Task -> Key)
    ensures SortBy([a, b], key) == (if Leq(key(a), key(b)) then [a, b] else [b, a])
  {
    assert [a, b][..1] == [a] && [a][..0] == [];
    SortOne(a, key);
    assert [a][1..] == [] && Insert([], b, key) == [b];
    assert SortBy([a, b], key) == Insert([a], b, key);
  }

  lemma SortOne(a: Task, key: Task -> Key)
    ensures SortBy([a], key) == [a]
  {
  }
}
