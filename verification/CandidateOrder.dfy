/** The scheduling order in terms of tasks: what the sort keys of the lanes and of the final sort mean. */
module CandidateOrder {
  import opened CandidateLanes
  import opened Common
  import opened Sorting

  // ------------------------------------------------------------------- orders on tasks

  /** Schedulable tasks come first; `rest` decides between equals. */
  predicate SchedulableFirst(a: Task, b: Task, rest: bool) {
    (!a.unschedulable && b.unschedulable) || (a.unschedulable == b.unschedulable && rest)
  }

  /** Older first, tasks that were never queued last, then by id. */
  predicate OlderFirst(a: Task, b: Task) {
    if a.queuedAt.Some? && b.queuedAt.Some? && a.queuedAt != b.queuedAt then a.queuedAt.value < b.queuedAt.value
    else if a.queuedAt.Some? != b.queuedAt.Some? then a.queuedAt.Some?
    else a.id <= b.id
  }

  predicate InQueueOrder(a: Task, b: Task) {
    a.queueOrder < b.queueOrder || (a.queueOrder == b.queueOrder && OlderFirst(a, b))
  }

  predicate ByRawPriority(a: Task, b: Task) {
    SchedulableFirst(a, b, a.priority > b.priority || (a.priority == b.priority && InQueueOrder(a, b)))
  }

  predicate ByAgedPriority(round: Round, a: Task, b: Task, rest: bool)
    requires round.agingSeconds >= 1
  {
    var x, y := EffectivePriority(a, round), EffectivePriority(b, round);
    SchedulableFirst(a, b, x > y || (x == y && rest))
  }

  /** The least served project first; `rest` decides between equals. */
  predicate LeastServedFirst(round: Round, a: Task, b: Task, rest: bool) {
    var x, y := Share(round, a.project), Share(round, b.project);
    x < y || (x == y && rest)
  }

  /** The order of the policy: no task behind `a` should be started before it. */
  predicate PolicyAllows(round: Round, a: Task, b: Task)
    requires round.agingSeconds >= 1
  {
    ByAgedPriority(round, a, b, LeastServedFirst(round, a, b, a.queueOrder <= b.queueOrder))
  }

  // ------------------------------------------------------------------ keys and orders agree

  function Tail(t: Task): Key {
    QueuedKey(t) + [t.id as real]
  }

  lemma TailMeansOlder(a: Task, b: Task)
    ensures Leq(Tail(a), Tail(b)) <==> OlderFirst(a, b)
  {
    var p, q := QueuedKey(a), QueuedKey(b);
    var x, y := [a.id as real], [b.id as real];
    assert Tail(a) == [p[0]] + ([p[1]] + x) && Tail(b) == [q[0]] + ([q[1]] + y);
    LeqStep(p[0], [p[1]] + x, q[0], [q[1]] + y);
    LeqStep(p[1], x, q[1], y);
    assert x[1..] == [] && y[1..] == [];
  }

  lemma QueueTail(a: Task, b: Task)
    ensures Leq([a.queueOrder as real] + Tail(a), [b.queueOrder as real] + Tail(b)) <==> InQueueOrder(a, b)
  {
    LeqStep(a.queueOrder as real, Tail(a), b.queueOrder as real, Tail(b));
    TailMeansOlder(a, b);
  }

  lemma FlagMeansSchedulable(a: Task, b: Task, x: Key, y: Key)
    ensures Leq([Flag(a.unschedulable)] + x, [Flag(b.unschedulable)] + y) <==> SchedulableFirst(a, b, Leq(x, y))
  {
    LeqStep(Flag(a.unschedulable), x, Flag(b.unschedulable), y);
  }

  lemma RawLaneOrder(a: Task, b: Task)
    ensures Leq(RawKey(a), RawKey(b)) <==> ByRawPriority(a, b)
  {
    var x, y := [a.queueOrder as real] + Tail(a), [b.queueOrder as real] + Tail(b);
    var p, q := [-(a.priority as real)] + x, [-(b.priority as real)] + y;
    assert RawKey(a) == [Flag(a.unschedulable)] + p && RawKey(b) == [Flag(b.unschedulable)] + q;
    QueueTail(a, b);
    LeqStep(-(a.priority as real), x, -(b.priority as real), y);
    FlagMeansSchedulable(a, b, p, q);
  }

  /** Tasks whose priorities respect their CHECK constraint. */
  predicate ValidPriority(t: Task) {
    0 <= t.priority <= MAX_PRIORITY
  }

  lemma AgedStep(round: Round, a: Task, b: Task, x: Key, y: Key)
    requires round.agingSeconds >= 1 && ValidPriority(a) && ValidPriority(b)
    ensures Leq([Flag(a.unschedulable)] + ([-(SqlEffectivePriority(a, round) as real)] + x),
                [Flag(b.unschedulable)] + ([-(SqlEffectivePriority(b, round) as real)] + y))
            <==> ByAgedPriority(round, a, b, Leq(x, y))
  {
    SqlPriorityMirrorsPolicy(a, round);
    SqlPriorityMirrorsPolicy(b, round);
    LeqStep(-(SqlEffectivePriority(a, round) as real), x, -(SqlEffectivePriority(b, round) as real), y);
    FlagMeansSchedulable(a, b, [-(SqlEffectivePriority(a, round) as real)] + x, [-(SqlEffectivePriority(b, round) as real)] + y);
  }

  lemma AgedLaneOrder(round: Round, a: Task, b: Task)
    requires round.agingSeconds >= 1 && ValidPriority(a) && ValidPriority(b)
    ensures Leq(AgedKey(round, a), AgedKey(round, b)) <==> ByAgedPriority(round, a, b, InQueueOrder(a, b))
  {
    var x, y := [a.queueOrder as real] + Tail(a), [b.queueOrder as real] + Tail(b);
    assert AgedKey(round, a) == [Flag(a.unschedulable)] + ([-(SqlEffectivePriority(a, round) as real)] + x);
    assert AgedKey(round, b) == [Flag(b.unschedulable)] + ([-(SqlEffectivePriority(b, round) as real)] + y);
    QueueTail(a, b);
    AgedStep(round, a, b, x, y);
  }

  lemma FairLaneOrder(round: Round, a: Task, b: Task)
    requires round.agingSeconds >= 1 && ValidPriority(a) && ValidPriority(b)
    ensures Leq(FairKey(round, a), FairKey(round, b)) <==>
            ByAgedPriority(round, a, b, LeastServedFirst(round, a, b, InQueueOrder(a, b)))
  {
    var x, y := [a.queueOrder as real] + Tail(a), [b.queueOrder as real] + Tail(b);
    var s, t := Share(round, a.project), Share(round, b.project);
    SqlShareMirrorsPolicy(round, a.project);
    SqlShareMirrorsPolicy(round, b.project);
    assert FairKey(round, a) == [Flag(a.unschedulable)] + ([-(SqlEffectivePriority(a, round) as real)] + ([s] + x));
    assert FairKey(round, b) == [Flag(b.unschedulable)] + ([-(SqlEffectivePriority(b, round) as real)] + ([t] + y));
    QueueTail(a, b);
    LeqStep(s, x, t, y);
    AgedStep(round, a, b, [s] + x, [t] + y);
  }

  lemma PolicyOrder(round: Round, a: Task, b: Task)
    requires round.agingSeconds >= 1 && ValidPriority(a) && ValidPriority(b)
    ensures Leq(PolicyKey(round, a), PolicyKey(round, b)) <==> PolicyAllows(round, a, b)
  {
    var x, y := [a.queueOrder as real], [b.queueOrder as real];
    var s, t := Share(round, a.project), Share(round, b.project);
    SqlPriorityMirrorsPolicy(a, round);
    SqlPriorityMirrorsPolicy(b, round);
    assert PolicyKey(round, a) == [Flag(a.unschedulable)] + ([-(SqlEffectivePriority(a, round) as real)] + ([s] + x));
    assert PolicyKey(round, b) == [Flag(b.unschedulable)] + ([-(SqlEffectivePriority(b, round) as real)] + ([t] + y));
    assert x[1..] == [] && y[1..] == [];
    LeqStep(s, x, t, y);
    AgedStep(round, a, b, [s] + x, [t] + y);
  }

  lemma FullOrder(round: Round, a: Task, b: Task)
    requires round.agingSeconds >= 1 && ValidPriority(a) && ValidPriority(b)
    ensures Leq(FullKey(round, a), FullKey(round, b)) <==>
            ByAgedPriority(round, a, b, LeastServedFirst(round, a, b,
              a.queueOrder < b.queueOrder || (a.queueOrder == b.queueOrder && a.id <= b.id)))
  {
    var i, j := [a.id as real], [b.id as real];
    var x, y := [a.queueOrder as real] + i, [b.queueOrder as real] + j;
    var s, t := Share(round, a.project), Share(round, b.project);
    SqlPriorityMirrorsPolicy(a, round);
    SqlPriorityMirrorsPolicy(b, round);
    assert FullKey(round, a) == [Flag(a.unschedulable)] + ([-(SqlEffectivePriority(a, round) as real)] + ([s] + x));
    assert FullKey(round, b) == [Flag(b.unschedulable)] + ([-(SqlEffectivePriority(b, round) as real)] + ([t] + y));
    assert i[1..] == [] && j[1..] == [];
    LeqStep(a.queueOrder as real, i, b.queueOrder as real, j);
    LeqStep(s, x, t, y);
    AgedStep(round, a, b, [s] + x, [t] + y);
  }

  // --------------------------------------------------------------------- what is chosen

  /** The first candidate against every eligible task: it is schedulable if any task is, then it has the
      highest aged priority, then its project has the least share, then it comes first in the queue. */
  lemma FirstCandidateObeysPolicy(round: Round, tasks: seq<Task>, n: nat, candidates: seq<Task>, t: Task)
    requires ValidRound(round, tasks) && IsPolicyScan(round, tasks, n, candidates) && t in tasks
    ensures candidates != [] && PolicyAllows(round, candidates[0], t)
  {
    var first := candidates[0];
    assert first in candidates;
    LanesAreTasks(round, tasks, n);
    PolicyOrder(round, first, t);
  }

  lemma {:induction false} SortedPair(s: seq<Task>, key: Task -> Key, i: nat, j: nat)
    requires SortedBy(s, key) && i < j < |s|
    ensures Leq(key(s[i]), key(s[j]))
  {
    if i == 0 {
      assert s[j] in s;
    } else {
      SortedPair(s[1..], key, i - 1, j - 1);
    }
  }

  /** Every candidate against every later one. */
  lemma CandidatesFollowPolicy(round: Round, tasks: seq<Task>, n: nat, candidates: seq<Task>, i: nat, j: nat)
    requires ValidRound(round, tasks) && IsPolicyScan(round, tasks, n, candidates) && i < j < |candidates|
    ensures var a, b := candidates[i], candidates[j];
            ByAgedPriority(round, a, b, LeastServedFirst(round, a, b,
              a.queueOrder < b.queueOrder || (a.queueOrder == b.queueOrder && a.id < b.id)))
  {
    var a, b := candidates[i], candidates[j];
    assert a in candidates && b in candidates && a != b;
    LanesAreTasks(round, tasks, n);
    SortedPair(candidates, Full(round), i, j);
    FullOrder(round, a, b);
    if a.id == b.id {
      SameIdSameTask(tasks, a, b);
    }
  }

  // --------------------------------------------------------------- laws of the aged priority

  /** A task keeps its own priority for the first interval, gains one for every full interval it waits,
      never loses any by waiting, and is never raised above 100. */
  lemma PriorityAges(t: Task, round: Round, later: real)
    requires round.agingSeconds >= 1 && ValidPriority(t) && t.queuedAt.Some? && round.now <= later
    ensures round.now < t.queuedAt.value + round.agingSeconds as real ==> EffectivePriority(t, round) == t.priority
    ensures t.queuedAt.value <= round.now ==>
              EffectivePriority(t, round.(now := round.now + round.agingSeconds as real)) == Min(MAX_PRIORITY, EffectivePriority(t, round) + 1)
    ensures EffectivePriority(t, round) <= EffectivePriority(t, round.(now := later)) <= MAX_PRIORITY == 100
  {
    var step, elapsed := round.agingSeconds as real, round.now - t.queuedAt.value;
    var waited, longer := if elapsed > 0.0 then elapsed else 0.0, if later - t.queuedAt.value > 0.0 then later - t.queuedAt.value else 0.0;
    QuotientGrows(waited, longer, step);
    if elapsed < step {
      QuotientIsSmall(waited, step);
    }
    if elapsed >= 0.0 {
      OneMoreInterval(elapsed, step);
    }
  }

  lemma QuotientGrows(x: real, y: real, step: real)
    requires 0.0 <= x <= y && step >= 1.0
    ensures (x / step).Floor <= (y / step).Floor
  {
    assert x / step <= y / step;
  }

  lemma QuotientIsSmall(x: real, step: real)
    requires 0.0 <= x < step
    ensures (x / step).Floor == 0
  {
    assert 0.0 <= x / step < 1.0;
  }

  lemma OneMoreInterval(x: real, step: real)
    requires 0.0 <= x && step >= 1.0
    ensures ((x + step) / step).Floor == (x / step).Floor + 1
  {
    var q := x / step;
    assert x == q * step && (q + 1.0) * step == q * step + step;
    QuotientIs(x + step, q + 1.0, step);
  }

  lemma QuotientIs(a: real, q: real, step: real)
    requires step > 0.0 && a == q * step
    ensures a / step == q
  {
  }

  /** A task that was never queued keeps its priority. */
  lemma UnqueuedPriority(t: Task, round: Round)
    requires round.agingSeconds >= 1 && t.queuedAt.None?
    ensures EffectivePriority(t, round) == t.priority
  {
  }

  // -------------------------------------------------------------------- laws of the share

  /** A project's share is the largest of its shares of CPU, memory and accelerators; using any accelerator
      of a cluster without accelerators counts as a full share, and a project without a quota row has none. */
  lemma ShareIsDominant(round: Round, project: nat)
    requires round.cluster.cpu >= 1 && round.cluster.memory >= 1
    ensures project !in round.used ==> Share(round, project) == 0.0
    ensures project in round.used ==>
              var u, c := round.used[project], round.cluster;
              var cpu, memory := u.cpu as real / c.cpu as real, u.memory as real / c.memory as real;
              var gpus := if c.gpus > 0 then u.gpus as real / c.gpus as real else if u.gpus > 0 then 1.0 else 0.0;
              && Share(round, project) in {cpu, memory, gpus}
              && Share(round, project) >= cpu && Share(round, project) >= memory && Share(round, project) >= gpus
  {
  }

  // ------------------------------------------------------------ what the lanes reach, in tasks

  /** First of its project, by aged priority and queue order. */
  ghost predicate LeadsProject(round: Round, tasks: seq<Task>, t: Task)
    requires round.agingSeconds >= 1
  {
    forall u :: u in tasks && u.project == t.project ==> ByAgedPriority(round, t, u, InQueueOrder(t, u))
  }

  ghost function AheadByAge(round: Round, tasks: seq<Task>, t: Task): set<Task>
    requires round.agingSeconds >= 1
  {
    set u | u in tasks && !ByAgedPriority(round, t, u, InQueueOrder(t, u))
  }

  ghost function AheadByPriority(tasks: seq<Task>, t: Task): set<Task> {
    set u | u in tasks && !ByRawPriority(t, u)
  }

  ghost function AheadByShare(round: Round, tasks: seq<Task>, t: Task): set<Task>
    requires round.agingSeconds >= 1
  {
    set u | u in tasks && LeadsProject(round, tasks, u)
            && !ByAgedPriority(round, t, u, LeastServedFirst(round, t, u, InQueueOrder(t, u)))
  }

  ghost function AheadSet(s: seq<Task>, t: Task, key: Task -> Key): set<Task> {
    set u | u in s && Before(key(u), key(t))
  }

  lemma {:induction false} AheadIsCount(s: seq<Task>, t: Task, key: Task -> Key)
    requires NoRepeats(s)
    ensures Ahead(s, t, key) == |AheadSet(s, t, key)|
  {
    var all := AheadSet(s, t, key);
    if s == [] {
      assert all == {};
    } else {
      var rest := AheadSet(s[1..], t, key);
      AheadIsCount(s[1..], t, key);
      assert s[0] !in s[1..] && forall u :: u in s <==> u == s[0] || u in s[1..];
      assert all == if Before(key(s[0]), key(t)) then rest + {s[0]} else rest;
      assert s[0] !in rest;
    }
  }

  lemma HeadLeadsProject(round: Round, tasks: seq<Task>, t: Task)
    requires ValidRound(round, tasks) && t in tasks
    ensures IsHead(round, tasks, t) <==> LeadsProject(round, tasks, t)
  {
    forall u | u in tasks ensures Leq(AgedKey(round, t), AgedKey(round, u)) <==> ByAgedPriority(round, t, u, InQueueOrder(t, u)) {
      AgedLaneOrder(round, t, u);
    }
  }

  lemma CountsAheadByAge(round: Round, tasks: seq<Task>, t: Task)
    requires ValidRound(round, tasks) && t in tasks
    ensures Ahead(tasks, t, Aged(round)) == |AheadByAge(round, tasks, t)|
  {
    AheadIsCount(tasks, t, Aged(round));
    forall u | u in tasks ensures u in AheadSet(tasks, t, Aged(round)) <==> u in AheadByAge(round, tasks, t) {
      AgedLaneOrder(round, t, u);
    }
    assert AheadSet(tasks, t, Aged(round)) == AheadByAge(round, tasks, t);
  }

  lemma CountsAheadByPriority(tasks: seq<Task>, t: Task)
    requires ValidRows(tasks) && t in tasks
    ensures Ahead(tasks, t, RawKey) == |AheadByPriority(tasks, t)|
  {
    AheadIsCount(tasks, t, RawKey);
    forall u | u in tasks ensures u in AheadSet(tasks, t, RawKey) <==> u in AheadByPriority(tasks, t) {
      RawLaneOrder(t, u);
    }
    assert AheadSet(tasks, t, RawKey) == AheadByPriority(tasks, t);
  }

  lemma AheadAmongHeads(round: Round, tasks: seq<Task>, t: Task, u: Task)
    requires ValidRound(round, tasks) && t in tasks && u in tasks
    ensures u in AheadSet(Heads(round, tasks, tasks), t, Fair(round)) <==> u in AheadByShare(round, tasks, t)
  {
    HeadLeadsProject(round, tasks, u);
    FairLaneOrder(round, t, u);
  }

  lemma CountsAheadByShare(round: Round, tasks: seq<Task>, t: Task)
    requires ValidRound(round, tasks) && t in tasks
    ensures Ahead(Heads(round, tasks, tasks), t, Fair(round)) == |AheadByShare(round, tasks, t)|
  {
    var heads := Heads(round, tasks, tasks);
    HeadsHaveNoRepeats(round, tasks, tasks);
    AheadIsCount(heads, t, Fair(round));
    forall u | u in tasks ensures u in AheadSet(heads, t, Fair(round)) <==> u in AheadByShare(round, tasks, t) {
      AheadAmongHeads(round, tasks, t, u);
    }
    assert forall u :: u in AheadSet(heads, t, Fair(round)) || u in AheadByShare(round, tasks, t) ==> u in tasks;
    assert AheadSet(heads, t, Fair(round)) == AheadByShare(round, tasks, t);
  }

  /** The scan considers exactly the tasks with fewer than `n` ahead of them by aged priority, or by raw
      priority, or, for the first of a project, by share among the first of each project. */
  lemma LanesConsiderExactly(round: Round, tasks: seq<Task>, n: nat, t: Task)
    requires ValidRound(round, tasks)
    ensures InSomeLane(round, tasks, n, t) <==>
            t in tasks && (|| |AheadByAge(round, tasks, t)| < n
                           || |AheadByPriority(tasks, t)| < n
                           || (LeadsProject(round, tasks, t) && |AheadByShare(round, tasks, t)| < n))
  {
    LanesReachExactly(round, tasks, n, t);
    if t in tasks {
      CountsAheadByAge(round, tasks, t);
      CountsAheadByPriority(tasks, t);
      CountsAheadByShare(round, tasks, t);
      HeadLeadsProject(round, tasks, t);
    }
  }
}
