/** The table of task dependencies, written by the job-group API and by task submission.
    Every run of the two keeps the whole table acyclic. */
module DependencyTable {
  import opened Common
  import opened Graphs
  import opened TaskStates
  import opened JobGroups

  const MAX_BATCH := 1000

  /** `group` is absent on the edges a submission creates. */
  datatype Row = Row(group: Option<nat>, policy: FailurePolicy)

  datatype TaskRow = TaskRow(project: nat, status: TaskStatus)

  type Rows = map<Edge, Row>

  datatype Database = Database(tasks: map<Node, TaskRow>, rows: Rows)

  datatype AddError =
    | TooManyDependencies | SelfDependency | UnknownTask | OtherGroup | PolicyConflict | WouldCycle | AlreadyStarted

  function Key(d: Dependency): Edge {
    (d.task, d.dependsOn)
  }

  predicate Touches(e: Edge, t: Node) {
    e.0 == t || e.1 == t
  }

  ghost function GroupEdges(rows: Rows, group: nat): set<Edge> {
    set e | e in rows && rows[e].group == Some(group)
  }

  ghost function Keys(deps: seq<Dependency>): set<Edge> {
    set d | d in deps :: Key(d)
  }

  // ---------------------------------------------------------------- what is accepted

  predicate WellShaped(deps: seq<Dependency>) {
    && |deps| <= MAX_BATCH
    && forall d :: d in deps ==> d.task != d.dependsOn
  }

  predicate InProject(tasks: map<Node, TaskRow>, project: nat, t: Node) {
    t in tasks && tasks[t].project == project
  }

  predicate AllInProject(tasks: map<Node, TaskRow>, project: nat, deps: seq<Dependency>) {
    forall d :: d in deps ==> InProject(tasks, project, d.task) && InProject(tasks, project, d.dependsOn)
  }

  /** No requested task has an edge outside `group`. */
  predicate OnlyThisGroup(rows: Rows, group: nat, deps: seq<Dependency>) {
    forall d, e :: d in deps && e in rows && (Touches(e, d.task) || Touches(e, d.dependsOn)) ==>
                     rows[e].group == Some(group)
  }

  ghost predicate PoliciesAgree(rows: Rows, deps: seq<Dependency>) {
    && (forall d :: d in deps && Key(d) in rows ==> rows[Key(d)].policy == d.policy)
    && (forall d, d' :: d in deps && d' in deps && Key(d) == Key(d') ==> d.policy == d'.policy)
  }

  ghost predicate NotStarted(tasks: map<Node, TaskRow>, rows: Rows, deps: seq<Dependency>) {
    forall d :: d in deps && Key(d) !in rows ==> d.task in tasks && tasks[d.task].status.IsRunnable()
  }

  /** The whole batch is acceptable. The cycle condition looks at the final graph only, so
      acceptance does not depend on the order in which the batch lists its edges. */
  ghost predicate Acceptable(db: Database, group: nat, project: nat, deps: seq<Dependency>) {
    && WellShaped(deps)
    && AllInProject(db.tasks, project, deps)
    && OnlyThisGroup(db.rows, group, deps)
    && PoliciesAgree(db.rows, deps)
    && NotStarted(db.tasks, db.rows, deps)
    && !HasCycle(GroupEdges(db.rows, group) + Keys(deps))
  }

  function InsertEdge(rows: Rows, group: nat, d: Dependency): Rows {
    if Key(d) in rows then rows else rows[Key(d) := Row(Some(group), d.policy)]
  }

  function InsertEdges(rows: Rows, group: nat, deps: seq<Dependency>): Rows {
    if deps == [] then rows
    else InsertEdge(InsertEdges(rows, group, deps[..|deps| - 1]), group, deps[|deps| - 1])
  }

  // ------------------------------------------------------------------- invariant

  /** Edges that meet at a task belong together: two job-group edges carry the same group, and
      a task submitted with dependencies has no job-group edge at all. */
  ghost predicate EdgesMeetInOneGroup(rows: Rows) {
    forall e, f, t {:trigger Touches(e, t), Touches(f, t)} ::
      e in rows && f in rows && Touches(e, t) && Touches(f, t) ==>
        && (rows[e].group.Some? && rows[f].group.Some? ==> rows[e].group == rows[f].group)
        && (e.0 == t && rows[e].group.None? ==> rows[f].group.None?)
  }

  ghost predicate EndpointsExist(db: Database) {
    forall u, v :: (u, v) in db.rows ==> u in db.tasks && v in db.tasks
  }

  ghost predicate Inv(db: Database) {
    EndpointsExist(db) && EdgesMeetInOneGroup(db.rows) && !HasCycle(db.rows.Keys)
  }

  // ------------------------------------------------ inserting a batch, as one change

  lemma {:induction false} InsertedRows(rows: Rows, group: nat, deps: seq<Dependency>)
    ensures InsertEdges(rows, group, deps).Keys == rows.Keys + Keys(deps)
    ensures forall e :: e in rows ==> InsertEdges(rows, group, deps)[e] == rows[e]
    ensures forall e :: e in InsertEdges(rows, group, deps) && e !in rows ==>
              InsertEdges(rows, group, deps)[e].group == Some(group)
  {
    if deps != [] {
      var front, d := deps[..|deps| - 1], deps[|deps| - 1];
      InsertedRows(rows, group, front);
      assert deps == front + [d];
      assert Keys(deps) == Keys(front) + {Key(d)} by {
        assert forall x :: x in deps <==> x in front || x == d;
      }
    }
  }

  lemma KeyOwner(deps: seq<Dependency>, e: Edge) returns (d: Dependency)
    requires e in Keys(deps)
    ensures d in deps && Key(d) == e
  {
    d :| d in deps && Key(d) == e;
  }

  /** An edge of the batch meets only rows of the same group. */
  lemma BatchEdgeMeetsOnlyGroup(rows: Rows, group: nat, deps: seq<Dependency>, e: Edge, f: Edge, t: Node)
    requires OnlyThisGroup(rows, group, deps)
    requires e in Keys(deps) && f in rows && Touches(e, t) && Touches(f, t)
    ensures rows[f].group == Some(group)
  {
  }

  lemma InsertKeepsMeeting(rows: Rows, group: nat, deps: seq<Dependency>)
    requires EdgesMeetInOneGroup(rows) && OnlyThisGroup(rows, group, deps)
    ensures EdgesMeetInOneGroup(InsertEdges(rows, group, deps))
  {
    var after := InsertEdges(rows, group, deps);
    InsertedRows(rows, group, deps);
    forall e, f, t | e in after && f in after && Touches(e, t) && Touches(f, t)
      ensures && (after[e].group.Some? && after[f].group.Some? ==> after[e].group == after[f].group)
              && (e.0 == t && after[e].group.None? ==> after[f].group.None?)
    {
      if e in rows && f !in rows {
        BatchEdgeMeetsOnlyGroup(rows, group, deps, f, e, t);
      } else if f in rows && e !in rows {
        BatchEdgeMeetsOnlyGroup(rows, group, deps, e, f, t);
      }
    }
  }

  // --------------------------------------------- cycles stay inside one job group

  /** Once a walk has taken a job-group edge, it can only go on inside that group. */
  lemma {:induction false} WalkStaysInGroup(rows: Rows, group: nat, walk: seq<Node>, i: nat, j: nat)
    requires EdgesMeetInOneGroup(rows) && IsWalk(rows.Keys, walk)
    requires i <= j < |walk| - 1
    requires rows[(walk[i], walk[i + 1])].group == Some(group)
    ensures rows[(walk[j], walk[j + 1])].group == Some(group)
    decreases j - i
  {
    if i < j {
      NextEdgeStaysInGroup(rows, group, (walk[i], walk[i + 1]), (walk[i + 1], walk[i + 2]));
      WalkStaysInGroup(rows, group, walk, i + 1, j);
    }
  }

  lemma NextEdgeStaysInGroup(rows: Rows, group: nat, e: Edge, f: Edge)
    requires EdgesMeetInOneGroup(rows) && e in rows && f in rows && e.1 == f.0
    requires rows[e].group == Some(group)
    ensures rows[f].group == Some(group)
  {
    assert Touches(e, f.0) && Touches(f, f.0);
  }

  lemma CycleStaysInGroup(rows: Rows, group: nat, walk: seq<Node>, i: nat)
    requires EdgesMeetInOneGroup(rows) && IsCycle(rows.Keys, walk)
    requires i < |walk| - 1 && rows[(walk[i], walk[i + 1])].group == Some(group)
    ensures IsCycle(GroupEdges(rows, group), walk)
  {
    var last := |walk| - 2;
    WalkStaysInGroup(rows, group, walk, i, last);
    NextEdgeStaysInGroup(rows, group, (walk[last], walk[last + 1]), (walk[0], walk[1]));
    forall j | 0 <= j < |walk| - 1 ensures (walk[j], walk[j + 1]) in GroupEdges(rows, group) {
      WalkStaysInGroup(rows, group, walk, 0, j);
    }
  }

  /** The cycle test on one group is enough for the whole table. */
  lemma GroupCheckIsEnough(rows: Rows, after: Rows, group: nat)
    requires !HasCycle(rows.Keys)
    requires EdgesMeetInOneGroup(after)
    requires forall e :: e in after && e !in rows ==> after[e].group == Some(group)
    requires !HasCycle(GroupEdges(after, group))
    ensures !HasCycle(after.Keys)
  {
    if HasCycle(after.Keys) {
      var walk :| IsCycle(after.Keys, walk);
      if i :| 0 <= i < |walk| - 1 && (walk[i], walk[i + 1]) !in rows {
        CycleStaysInGroup(after, group, walk, i);
      } else {
        assert IsCycle(rows.Keys, walk);
      }
    }
  }

  lemma GroupEdgesAfterInsert(rows: Rows, group: nat, deps: seq<Dependency>)
    requires OnlyThisGroup(rows, group, deps)
    ensures GroupEdges(InsertEdges(rows, group, deps), group) == GroupEdges(rows, group) + Keys(deps)
  {
    InsertedRows(rows, group, deps);
    forall e | e in Keys(deps) && e in rows ensures rows[e].group == Some(group) {
      assert Touches(e, e.0);
      BatchEdgeMeetsOnlyGroup(rows, group, deps, e, e, e.0);
    }
  }

  // ----------------------------------------------------------------------- steps

  datatype Step =
    | AddDependencies(group: nat, project: nat, deps: seq<Dependency>)
    | Submit(task: Node, project: nat, dependsOn: seq<Node>, policy: FailurePolicy)
    | Move(task: Node, status: TaskStatus)

  predicate Submittable(db: Database, task: Node, project: nat, dependsOn: seq<Node>) {
    && task !in db.tasks
    && NoRepeats(dependsOn)
    && forall d :: d in dependsOn ==> InProject(db.tasks, project, d)
  }

  /** A new task starts cancelled, queued or pending depending on its prerequisites. */
  function InitialStatus(tasks: map<Node, TaskRow>, dependsOn: seq<Node>, policy: FailurePolicy): TaskStatus {
    if policy.CancelDependants? && exists d :: d in dependsOn && d in tasks && tasks[d].status.FinallyFailed()
    then TaskStatus.Cancelled
    else if forall d :: d in dependsOn ==> d in tasks && tasks[d].status.Succeeded? then TaskStatus.Queued
    else TaskStatus.Pending
  }

  function SubmissionRows(rows: Rows, task: Node, dependsOn: seq<Node>, policy: FailurePolicy): Rows {
    rows + map d | d in dependsOn :: (task, d) := Row(None, policy)
  }

  ghost function Apply(db: Database, step: Step): Database {
    match step
    case AddDependencies(group, project, deps) =>
      if Acceptable(db, group, project, deps) then db.(rows := InsertEdges(db.rows, group, deps)) else db
    case Submit(task, project, dependsOn, policy) =>
      if Submittable(db, task, project, dependsOn)
      then Database(db.tasks[task := TaskRow(project, InitialStatus(db.tasks, dependsOn, policy))],
                    SubmissionRows(db.rows, task, dependsOn, policy))
      else db
    case Move(task, status) =>
      if task in db.tasks then db.(tasks := db.tasks[task := db.tasks[task].(status := status)]) else db
  }

  lemma AddKeepsInv(db: Database, group: nat, project: nat, deps: seq<Dependency>)
    requires Inv(db) && Acceptable(db, group, project, deps)
    ensures Inv(db.(rows := InsertEdges(db.rows, group, deps)))
  {
    var after := InsertEdges(db.rows, group, deps);
    InsertedRows(db.rows, group, deps);
    InsertKeepsMeeting(db.rows, group, deps);
    GroupEdgesAfterInsert(db.rows, group, deps);
    GroupCheckIsEnough(db.rows, after, group);
    forall u, v | (u, v) in after ensures u in db.tasks && v in db.tasks {
      if (u, v) !in db.rows {
        var d := KeyOwner(deps, (u, v));
        assert InProject(db.tasks, project, d.task) && InProject(db.tasks, project, d.dependsOn);
      }
    }
  }

  lemma SubmitKeepsInv(db: Database, task: Node, project: nat, dependsOn: seq<Node>, policy: FailurePolicy)
    requires Inv(db) && Submittable(db, task, project, dependsOn)
    ensures Inv(Apply(db, Submit(task, project, dependsOn, policy)))
  {
    var after := SubmissionRows(db.rows, task, dependsOn, policy);
    forall u, v | (u, v) in after ensures v in db.tasks && (u == task || (u, v) in db.rows) {
    }
    if HasCycle(after.Keys) {
      var walk :| IsCycle(after.Keys, walk);
      forall i | 0 <= i < |walk| - 1 ensures (walk[i], walk[i + 1]) in db.rows {
        assert (walk[i], walk[i + 1]) in after;
        if i > 0 {
          assert (walk[i - 1], walk[i - 1 + 1]) in after;
        } else {
          var last := |walk| - 2;
          assert (walk[last], walk[last + 1]) in after;
        }
      }
      assert IsCycle(db.rows.Keys, walk);
    }
  }

  lemma StepKeepsInv(db: Database, step: Step)
    requires Inv(db)
    ensures Inv(Apply(db, step))
  {
    match step
    case AddDependencies(group, project, deps) =>
      if Acceptable(db, group, project, deps) { AddKeepsInv(db, group, project, deps); }
    case Submit(task, project, dependsOn, policy) =>
      if Submittable(db, task, project, dependsOn) { SubmitKeepsInv(db, task, project, dependsOn, policy); }
    case Move(task, status) =>
  }

  ghost function Run(db: Database, steps: seq<Step>): Database {
    if steps == [] then db else Apply(Run(db, steps[..|steps| - 1]), steps[|steps| - 1])
  }

  /** Over every run from an empty table, the union of all job-group graphs and submission
      edges has no cycle, and so has every single group. */
  lemma {:induction false} RunsStayAcyclic(steps: seq<Step>)
    ensures var db := Run(Database(map[], map[]), steps);
      && Inv(db)
      && !HasCycle(db.rows.Keys)
      && forall group :: !HasCycle(GroupEdges(db.rows, group))
  {
    var db := Run(Database(map[], map[]), steps);
    if steps == [] {
      EmptyTableIsAcyclic();
    } else {
      RunsStayAcyclic(steps[..|steps| - 1]);
      StepKeepsInv(Run(Database(map[], map[]), steps[..|steps| - 1]), steps[|steps| - 1]);
    }
    forall group ensures !HasCycle(GroupEdges(db.rows, group)) {
      CycleMonotone(GroupEdges(db.rows, group), db.rows.Keys);
    }
  }

  lemma EmptyTableIsAcyclic()
    ensures Inv(Database(map[], map[]))
  {
    var rows: Rows := map[];
    forall walk | |walk| >= 2 ensures !IsWalk(rows.Keys, walk) {
      assert (walk[0], walk[0 + 1]) !in rows;
    }
  }

  /** The edges and task statuses of one job group, as read from the table. */
  ghost predicate ReadsGroup(db: Database, group: nat, deps: seq<Dependency>, statuses: Statuses) {
    && EdgesOf(deps) == GroupEdges(db.rows, group)
    && statuses.Keys == TaskIds(deps)
    && forall t :: t in statuses ==> t in db.tasks && statuses[t] == db.tasks[t].status
  }

  /** In every reachable table, a group with unfinished tasks of which none failed has one to go on with:
      an unfinished task, active or runnable, whose dependencies all succeeded. */
  lemma ReachableGroupIsNeverStuck(steps: seq<Step>, group: nat, deps: seq<Dependency>, statuses: Statuses)
    requires ReadsGroup(Run(Database(map[], map[]), steps), group, deps, statuses)
    requires forall t :: t in statuses ==> !statuses[t].FinallyFailed()
    requires exists t :: t in statuses && !statuses[t].Succeeded?
    ensures exists t :: t in statuses && !statuses[t].Succeeded? && Verdict(deps, t, statuses) == Ready
                        && (statuses[t].IsActive() || statuses[t].IsRunnable())
  {
    RunsStayAcyclic(steps);
    AcyclicGroupIsNeverStuck(deps, statuses);
  }

  // ----------------------------------------------------------------- projects never mix

  /** Both ends of every edge belong to one project. */
  ghost predicate WithinProjects(db: Database) {
    forall u, v :: (u, v) in db.rows ==> u in db.tasks && v in db.tasks && db.tasks[u].project == db.tasks[v].project
  }

  lemma StepKeepsProjects(db: Database, step: Step)
    requires WithinProjects(db)
    ensures WithinProjects(Apply(db, step))
  {
    match step
    case AddDependencies(group, project, deps) =>
      if Acceptable(db, group, project, deps) {
        InsertedRows(db.rows, group, deps);
        forall u, v | (u, v) in InsertEdges(db.rows, group, deps) && (u, v) !in db.rows
          ensures u in db.tasks && v in db.tasks && db.tasks[u].project == db.tasks[v].project {
          var d := KeyOwner(deps, (u, v));
          assert InProject(db.tasks, project, d.task) && InProject(db.tasks, project, d.dependsOn);
        }
      }
    case Submit(task, project, dependsOn, policy) =>
      if Submittable(db, task, project, dependsOn) {
        var next := Apply(db, step);
        forall u, v | (u, v) in next.rows
          ensures u in next.tasks && v in next.tasks && next.tasks[u].project == next.tasks[v].project {
          if (u, v) !in db.rows {
            assert u == task && v in dependsOn && InProject(db.tasks, project, v);
          }
        }
      }
    case Move(task, status) =>
  }

  /** In every run, dependencies join tasks of one project only. */
  lemma {:induction false} RunsKeepProjects(steps: seq<Step>)
    ensures WithinProjects(Run(Database(map[], map[]), steps))
  {
    if steps != [] {
      RunsKeepProjects(steps[..|steps| - 1]);
      StepKeepsProjects(Run(Database(map[], map[]), steps[..|steps| - 1]), steps[|steps| - 1]);
    }
  }

  // ------------------------------------------------------- a submitted task's first status

  ghost function StatusesOf(tasks: map<Node, TaskRow>): Statuses {
    map t | t in tasks :: tasks[t].status
  }

  /** The dependencies of a submission as the resolver reads them. */
  ghost predicate ReadsSubmission(deps: seq<Dependency>, task: Node, dependsOn: seq<Node>, policy: FailurePolicy) {
    && (forall d :: d in deps ==> d.task == task && d.policy == policy && d.dependsOn in dependsOn)
    && (forall v :: v in dependsOn ==> exists d :: d in deps && d.dependsOn == v)
  }

  /** A task starts queued exactly when the resolver would call it ready, cancelled exactly when it would cancel
      it, and pending exactly while it would wait or be blocked. */
  lemma FirstStatusMatchesResolution(db: Database, task: Node, project: nat, dependsOn: seq<Node>, policy: FailurePolicy, deps: seq<Dependency>)
    requires Submittable(db, task, project, dependsOn) && ReadsSubmission(deps, task, dependsOn, policy)
    ensures var status, verdict := InitialStatus(db.tasks, dependsOn, policy), Verdict(deps, task, StatusesOf(db.tasks));
            && (status == TaskStatus.Queued <==> verdict == Ready)
            && (status == TaskStatus.Cancelled <==> verdict == CancelledByDependency)
            && (status == TaskStatus.Pending <==> verdict == Waiting || verdict == Blocked)
  {
    var statuses := StatusesOf(db.tasks);
    forall v | v in dependsOn ensures v in statuses && statuses[v] == db.tasks[v].status {
      assert InProject(db.tasks, project, v);
    }
    forall outcome: Outcome
      ensures DependsOn(deps, task, statuses, outcome) <==> exists v :: v in dependsOn && OutcomeOf(statuses, v) == outcome {
    }
  }

  // ------------------------------------------------------- checking a batch edge by edge

  /** What one more edge of the batch adds. */
  lemma StageOne(rows: Rows, group: nat, deps: seq<Dependency>, i: nat)
    requires i < |deps|
    ensures InsertEdges(rows, group, deps[..i + 1]) == InsertEdge(InsertEdges(rows, group, deps[..i]), group, deps[i])
    ensures InsertEdges(rows, group, deps[..i]).Keys == rows.Keys + Keys(deps[..i])
    ensures Keys(deps[..i + 1]) == Keys(deps[..i]) + {Key(deps[i])}
    ensures Keys(deps[..i + 1]) <= Keys(deps)
    ensures forall d :: d in deps[..i + 1] <==> d in deps[..i] || d == deps[i]
    ensures forall d :: d in deps[..i + 1] ==> d in deps
  {
    assert deps[..i + 1] == deps[..i] + [deps[i]];
    assert deps[..i + 1][..i] == deps[..i];
    InsertedRows(rows, group, deps[..i]);
  }

  /** A staged edge is an old row or stems from an earlier edge of the batch. */
  lemma {:induction false} StagedEdgeOrigin(rows: Rows, group: nat, deps: seq<Dependency>, e: Edge)
    requires e in InsertEdges(rows, group, deps) && e !in rows
    ensures exists d :: d in deps && Key(d) == e && d.policy == InsertEdges(rows, group, deps)[e].policy
  {
    var front, d := deps[..|deps| - 1], deps[|deps| - 1];
    if e in InsertEdges(rows, group, front) {
      StagedEdgeOrigin(rows, group, front, e);
    } else {
      assert d in deps && Key(d) == e;
    }
  }

  lemma ConflictRejects(rows: Rows, group: nat, deps: seq<Dependency>, i: nat)
    requires i < |deps|
    requires Key(deps[i]) in InsertEdges(rows, group, deps[..i])
    requires InsertEdges(rows, group, deps[..i])[Key(deps[i])].policy != deps[i].policy
    ensures !PoliciesAgree(rows, deps)
  {
    var e := Key(deps[i]);
    InsertedRows(rows, group, deps[..i]);
    if e !in rows {
      StagedEdgeOrigin(rows, group, deps[..i], e);
      var d :| d in deps[..i] && Key(d) == e && d.policy == InsertEdges(rows, group, deps[..i])[e].policy;
      assert d in deps;
    }
  }

  /** Appending an edge that contradicts nothing seen so far keeps the batch consistent. */
  lemma ExtendBatch(tasks: map<Node, TaskRow>, rows: Rows, front: seq<Dependency>, d: Dependency)
    requires PoliciesAgree(rows, front) && NotStarted(tasks, rows, front)
    requires Key(d) in rows ==> rows[Key(d)].policy == d.policy
    requires Key(d) !in rows ==> d.task in tasks && tasks[d.task].status.IsRunnable()
    requires forall x :: x in front && Key(x) == Key(d) ==> x.policy == d.policy
    ensures PoliciesAgree(rows, front + [d]) && NotStarted(tasks, rows, front + [d])
  {
  }

  lemma KnownEdge(tasks: map<Node, TaskRow>, rows: Rows, group: nat, deps: seq<Dependency>, i: nat)
    requires i < |deps|
    requires Key(deps[i]) in InsertEdges(rows, group, deps[..i])
    requires InsertEdges(rows, group, deps[..i])[Key(deps[i])].policy == deps[i].policy
    requires PoliciesAgree(rows, deps[..i]) && NotStarted(tasks, rows, deps[..i])
    ensures PoliciesAgree(rows, deps[..i + 1]) && NotStarted(tasks, rows, deps[..i + 1])
    ensures Key(deps[i]) in rows || Key(deps[i]) in Keys(deps[..i])
  {
    var e := Key(deps[i]);
    InsertedRows(rows, group, deps[..i]);
    if e !in rows {
      StagedEdgeOrigin(rows, group, deps[..i], e);
      var d :| d in deps[..i] && Key(d) == e && d.policy == deps[i].policy;
      assert d.task == deps[i].task;
    }
    ExtendBatch(tasks, rows, deps[..i], deps[i]);
    assert deps[..i + 1] == deps[..i] + [deps[i]];
  }

  lemma FreshEdge(tasks: map<Node, TaskRow>, rows: Rows, deps: seq<Dependency>, i: nat)
    requires i < |deps|
    requires Key(deps[i]) !in rows && Key(deps[i]) !in Keys(deps[..i])
    requires deps[i].task in tasks && tasks[deps[i].task].status.IsRunnable()
    requires PoliciesAgree(rows, deps[..i]) && NotStarted(tasks, rows, deps[..i])
    ensures PoliciesAgree(rows, deps[..i + 1]) && NotStarted(tasks, rows, deps[..i + 1])
  {
  }

  /** An edge of the batch that is a row already is a row of the group. */
  lemma BatchRowIsGroupRow(rows: Rows, group: nat, deps: seq<Dependency>, d: Dependency)
    requires OnlyThisGroup(rows, group, deps) && d in deps && Key(d) in rows
    ensures Key(d) in GroupEdges(rows, group)
  {
  }

  lemma GrowUnion(g: set<Edge>, k: set<Edge>, e: Edge)
    ensures g + (k + {e}) == g + k + {e}
    ensures e in g + k ==> g + (k + {e}) == g + k
  {
  }

  /** The loop over the batch: each new edge is tested against the group's graph so far. */
  method CheckBatch(tasks: map<Node, TaskRow>, rows: Rows, group: nat, project: nat, deps: seq<Dependency>)
    returns (r: Result<Rows, AddError>)
    requires AllInProject(tasks, project, deps) && OnlyThisGroup(rows, group, deps)
    requires !HasCycle(GroupEdges(rows, group))
    ensures r.Ok? <==> PoliciesAgree(rows, deps) && NotStarted(tasks, rows, deps)
                       && !HasCycle(GroupEdges(rows, group) + Keys(deps))
    ensures r.Ok? ==> r.value == InsertEdges(rows, group, deps)
  {
    var staged := rows;
    var combined := set e | e in rows && rows[e].group == Some(group);
    assert combined + {} == combined;
    for i := 0 to |deps|
      invariant staged == InsertEdges(rows, group, deps[..i])
      invariant combined == GroupEdges(rows, group) + Keys(deps[..i])
      invariant PoliciesAgree(rows, deps[..i]) && NotStarted(tasks, rows, deps[..i])
      invariant !HasCycle(combined)
    {
      var d := deps[i];
      StageOne(rows, group, deps, i);
      GrowUnion(GroupEdges(rows, group), Keys(deps[..i]), Key(d));
      if Key(d) in staged {
        if staged[Key(d)].policy != d.policy {
          ConflictRejects(rows, group, deps, i);
          return Err(PolicyConflict);
        }
        KnownEdge(tasks, rows, group, deps, i);
        if Key(d) in rows {
          BatchRowIsGroupRow(rows, group, deps, d);
        }
      } else {
        var candidate := combined + {Key(d)};
        var cyclic := ContainsCycle(candidate);
        if cyclic {
          CycleMonotone(candidate, GroupEdges(rows, group) + Keys(deps));
          return Err(WouldCycle);
        }
        if !tasks[d.task].status.IsRunnable() {
          return Err(AlreadyStarted);
        }
        FreshEdge(tasks, rows, deps, i);
        staged := staged[Key(d) := Row(Some(group), d.policy)];
        combined := candidate;
      }
    }
    assert deps[..|deps|] == deps;
    r := Ok(staged);
  }

  // ------------------------------------------------------------------- repository

  /** The dependency rows and the task rows they refer to. */
  class DependencyRepository {
    var tasks: map<Node, TaskRow>
    var rows: Rows

    ghost function Db(): Database
      reads this
    {
      Database(tasks, rows)
    }

    constructor ()
      ensures Db() == Database(map[], map[]) && Inv(Db())
    {
      tasks, rows := map[], map[];
      EmptyTableIsAcyclic();
    }

    /** `_add_dependencies_locked`: edges are checked one at a time against the graph built so
        far, and a rejected batch leaves the table as it was. */
    method AddDependencies(group: nat, project: nat, deps: seq<Dependency>) returns (r: Result<nat, AddError>)
      requires Inv(Db())
      modifies this
      ensures r.Ok? <==> Acceptable(old(Db()), group, project, deps)
      ensures Db() == Apply(old(Db()), Step.AddDependencies(group, project, deps))
      ensures Inv(Db())
    {
      StepKeepsInv(Db(), Step.AddDependencies(group, project, deps));
      CycleMonotone(GroupEdges(rows, group), rows.Keys);
      if |deps| > MAX_BATCH {
        return Err(TooManyDependencies);
      }
      if exists d :: d in deps && d.task == d.dependsOn {
        return Err(SelfDependency);
      }
      if !AllInProject(tasks, project, deps) {
        return Err(UnknownTask);
      }
      if !OnlyThisGroup(rows, group, deps) {
        return Err(OtherGroup);
      }
      var checked := CheckBatch(tasks, rows, group, project, deps);
      if checked.Err? {
        return Err(checked.error);
      }
      rows := checked.value;
      r := Ok(|deps|);
    }

    /** `create_queued`: the edges of a new task point only at tasks that exist already. */
    method Submit(task: Node, project: nat, dependsOn: seq<Node>, policy: FailurePolicy) returns (ok: bool)
      requires Inv(Db())
      requires task !in tasks
      modifies this
      ensures ok <==> Submittable(old(Db()), task, project, dependsOn)
      ensures Db() == Apply(old(Db()), Step.Submit(task, project, dependsOn, policy))
      ensures Inv(Db())
    {
      StepKeepsInv(Db(), Step.Submit(task, project, dependsOn, policy));
      if !NoRepeats(dependsOn) {
        return false;
      }
      if exists d :: d in dependsOn && !InProject(tasks, project, d) {
        return false;
      }
      var status := InitialStatus(tasks, dependsOn, policy);
      rows := SubmissionRows(rows, task, dependsOn, policy);
      tasks := tasks[task := TaskRow(project, status)];
      ok := true;
    }
  }
}
