/** Resolution of a task against its dependencies, and the status of a job group. */
module JobGroups {
  import opened Common
  import opened Graphs
  import opened TaskStates

  datatype FailurePolicy = CancelDependants | BlockDependants

  datatype Dependency = Dependency(task: Node, dependsOn: Node, policy: FailurePolicy)

  datatype DependencyState = Ready | Waiting | Blocked | CancelledByDependency

  datatype Resolution = Resolution(
    task: Node, status: TaskStatus, state: DependencyState,
    dependencyIds: multiset<Node>, waitingOn: multiset<Node>, failed: multiset<Node>)

  datatype GroupStatus = GroupPending | GroupRunning | GroupSucceeded | GroupFailed

  datatype Outcome = Missing | Satisfied | Failing | Outstanding

  type Statuses = map<Node, TaskStatus>

  function OutcomeOf(statuses: Statuses, id: Node): Outcome {
    if id !in statuses then Missing
    else if statuses[id].Succeeded? then Satisfied
    else if statuses[id].IsFinal() then Failing
    else Outstanding
  }

  ghost function EdgesOf(deps: seq<Dependency>): set<Edge> {
    set d | d in deps :: (d.task, d.dependsOn)
  }

  ghost function TaskIds(deps: seq<Dependency>): set<Node> {
    (set d | d in deps :: d.task) + (set d | d in deps :: d.dependsOn)
  }

  // ------------------------------------------------------------- declarative verdict

  ghost predicate DependsOn(deps: seq<Dependency>, task: Node, statuses: Statuses, outcome: Outcome) {
    exists d :: d in deps && d.task == task && OutcomeOf(statuses, d.dependsOn) == outcome
  }

  ghost predicate HasFailedCancelEdge(deps: seq<Dependency>, task: Node, statuses: Statuses) {
    exists d :: d in deps && d.task == task && OutcomeOf(statuses, d.dependsOn) == Failing && d.policy.CancelDependants?
  }

  /** What a task's dependencies allow, stated without the scan order. */
  ghost function Verdict(deps: seq<Dependency>, task: Node, statuses: Statuses): DependencyState {
    if HasFailedCancelEdge(deps, task, statuses) then CancelledByDependency
    else if DependsOn(deps, task, statuses, Failing) then Blocked
    else if DependsOn(deps, task, statuses, Outstanding) then Waiting
    else Ready
  }

  /** The dependencies of `task` whose outcome is in `outcomes`, one entry per edge. */
  ghost function Selected(deps: seq<Dependency>, task: Node, statuses: Statuses, outcomes: set<Outcome>): multiset<Node> {
    if deps == [] then multiset{}
    else
      var d := deps[|deps| - 1];
      Selected(deps[..|deps| - 1], task, statuses, outcomes) +
      (if d.task == task && OutcomeOf(statuses, d.dependsOn) in outcomes then multiset{d.dependsOn} else multiset{})
  }

  lemma {:induction false} SelectedIsEmptyExactlyWithoutEdges(
      deps: seq<Dependency>, task: Node, statuses: Statuses, outcome: Outcome)
    ensures Selected(deps, task, statuses, {outcome}) != multiset{} <==> DependsOn(deps, task, statuses, outcome)
  {
    if deps != [] {
      SelectedIsEmptyExactlyWithoutEdges(deps[..|deps| - 1], task, statuses, outcome);
      LastEdge(deps, task, statuses, outcome);
    }
  }

  lemma LastEdge(deps: seq<Dependency>, task: Node, statuses: Statuses, outcome: Outcome)
    requires deps != []
    ensures DependsOn(deps, task, statuses, outcome) <==>
      || DependsOn(deps[..|deps| - 1], task, statuses, outcome)
      || (deps[|deps| - 1].task == task && OutcomeOf(statuses, deps[|deps| - 1].dependsOn) == outcome)
  {
  }

  lemma LastCancelEdge(deps: seq<Dependency>, task: Node, statuses: Statuses)
    requires deps != []
    ensures HasFailedCancelEdge(deps, task, statuses) <==>
      var d := deps[|deps| - 1];
      || HasFailedCancelEdge(deps[..|deps| - 1], task, statuses)
      || (d.task == task && OutcomeOf(statuses, d.dependsOn) == Failing && d.policy.CancelDependants?)
  {
  }

  /** What the scan has recorded after some edges. */
  ghost predicate Recorded(seen: seq<Dependency>, task: Node, statuses: Statuses,
                           all: multiset<Node>, waiting: multiset<Node>, failed: multiset<Node>, sawCancel: bool)
  {
    && !DependsOn(seen, task, statuses, Missing)
    && all == Selected(seen, task, statuses, {Satisfied, Failing, Outstanding})
    && waiting == Selected(seen, task, statuses, {Outstanding})
    && failed == Selected(seen, task, statuses, {Failing})
    && (sawCancel <==> HasFailedCancelEdge(seen, task, statuses))
  }

  lemma SelectedOneMore(seen: seq<Dependency>, d: Dependency, task: Node, statuses: Statuses, outcomes: set<Outcome>)
    ensures Selected(seen + [d], task, statuses, outcomes) == Selected(seen, task, statuses, outcomes) +
            if d.task == task && OutcomeOf(statuses, d.dependsOn) in outcomes then multiset{d.dependsOn} else multiset{}
  {
    assert (seen + [d])[..|seen|] == seen;
  }

  /** One more edge of the scan: another task's, or one of the task's with a known outcome. */
  lemma RecordedOneMore(seen: seq<Dependency>, d: Dependency, task: Node, statuses: Statuses,
                        all: multiset<Node>, waiting: multiset<Node>, failed: multiset<Node>, sawCancel: bool)
    requires Recorded(seen, task, statuses, all, waiting, failed, sawCancel)
    requires d.task == task ==> d.dependsOn in statuses
    ensures var outcome, own := OutcomeOf(statuses, d.dependsOn), d.task == task;
            Recorded(seen + [d], task, statuses, if own then all + multiset{d.dependsOn} else all,
                     if own && outcome == Outstanding then waiting + multiset{d.dependsOn} else waiting,
                     if own && outcome == Failing then failed + multiset{d.dependsOn} else failed,
                     sawCancel || (own && outcome == Failing && d.policy.CancelDependants?))
  {
    var longer := seen + [d];
    assert longer[..|longer| - 1] == seen;
    LastEdge(longer, task, statuses, Missing);
    LastCancelEdge(longer, task, statuses);
    SelectedOneMore(seen, d, task, statuses, {Satisfied, Failing, Outstanding});
    SelectedOneMore(seen, d, task, statuses, {Outstanding});
    SelectedOneMore(seen, d, task, statuses, {Failing});
  }

  /** The scan over the edges; nothing is recorded for a task with an unknown dependency. */
  method ScanEdges(task: Node, statuses: Statuses, deps: seq<Dependency>)
    returns (known: bool, all: multiset<Node>, waiting: multiset<Node>, failed: multiset<Node>, sawCancel: bool)
    ensures known <==> !DependsOn(deps, task, statuses, Missing)
    ensures known ==> Recorded(deps, task, statuses, all, waiting, failed, sawCancel)
  {
    known, all, waiting, failed, sawCancel := true, multiset{}, multiset{}, multiset{}, false;
    for i := 0 to |deps|
      invariant known && Recorded(deps[..i], task, statuses, all, waiting, failed, sawCancel)
    {
      var d := deps[i];
      assert deps[..i + 1] == deps[..i] + [d];
      if d.task == task && d.dependsOn !in statuses {
        assert DependsOn(deps, task, statuses, Missing);
        known := false;
        return;
      }
      RecordedOneMore(deps[..i], d, task, statuses, all, waiting, failed, sawCancel);
      if d.task == task {
        all := all + multiset{d.dependsOn};
        if statuses[d.dependsOn].IsFinal() && !statuses[d.dependsOn].Succeeded? {
          failed := failed + multiset{d.dependsOn};
          sawCancel := sawCancel || d.policy.CancelDependants?;
        } else if !statuses[d.dependsOn].IsFinal() {
          waiting := waiting + multiset{d.dependsOn};
        }
      }
    }
    assert deps[..|deps|] == deps;
  }

  /** `_resolve_task`: one scan over the edges. */
  method ResolveTask(task: Node, statuses: Statuses, deps: seq<Dependency>) returns (r: Option<Resolution>)
    ensures r.None? <==> task !in statuses || DependsOn(deps, task, statuses, Missing)
    ensures r.Some? ==>
      && r.value.task == task && r.value.status == statuses[task]
      && r.value.state == Verdict(deps, task, statuses)
      && r.value.dependencyIds == Selected(deps, task, statuses, {Satisfied, Failing, Outstanding})
      && r.value.waitingOn == Selected(deps, task, statuses, {Outstanding})
      && r.value.failed == Selected(deps, task, statuses, {Failing})
  {
    var known, all, waiting, failed, sawCancel := ScanEdges(task, statuses, deps);
    if !known || task !in statuses {
      return None;
    }
    SelectedIsEmptyExactlyWithoutEdges(deps, task, statuses, Failing);
    SelectedIsEmptyExactlyWithoutEdges(deps, task, statuses, Outstanding);
    var state := if sawCancel then CancelledByDependency else if failed != multiset{} then Blocked
                 else if waiting != multiset{} then Waiting else Ready;
    r := Some(Resolution(task, statuses[task], state, all, waiting, failed));
  }

  // ---------------------------------------------------------------------- group status

  function StatusOfGroup(statuses: Statuses, states: map<Node, DependencyState>): GroupStatus {
    if statuses == map[] then GroupPending
    else if forall t :: t in statuses ==> statuses[t].Succeeded? then GroupSucceeded
    else if (exists t :: t in statuses && statuses[t].FinallyFailed())
            || (exists t :: t in states && (states[t].Blocked? || states[t].CancelledByDependency?)) then GroupFailed
    else if exists t :: t in statuses && statuses[t].IsActive() then GroupRunning
    else GroupPending
  }

  /** `states` holds the verdict of each resolved task. */
  ghost predicate Resolves(deps: seq<Dependency>, statuses: Statuses, states: map<Node, DependencyState>) {
    forall t :: t in states ==> states[t] == Verdict(deps, t, statuses)
  }

  lemma MembersHaveStatuses(deps: seq<Dependency>, statuses: Statuses, d: Dependency)
    requires d in deps && statuses.Keys == TaskIds(deps)
    ensures d.task in statuses && d.dependsOn in statuses
  {
  }

  ghost predicate SomeTaskFailed(statuses: Statuses) {
    exists t :: t in statuses && statuses[t].FinallyFailed()
  }

  /** A group fails exactly when one of its own tasks finally failed: the extra test on
      blocked and cancelled resolutions never changes the answer. */
  lemma GroupFailsExactlyWithATask(deps: seq<Dependency>, statuses: Statuses, states: map<Node, DependencyState>)
    requires Resolves(deps, statuses, states)
    ensures StatusOfGroup(statuses, states) == GroupFailed <==> SomeTaskFailed(statuses)
  {
  }

  /** The status of a group in terms of its tasks: it has succeeded when all have, is running while one is
      active and none has failed, and is pending otherwise. */
  lemma GroupStatusMeans(deps: seq<Dependency>, statuses: Statuses, states: map<Node, DependencyState>)
    requires Resolves(deps, statuses, states)
    ensures StatusOfGroup(statuses, states) == GroupSucceeded <==> statuses != map[] && forall t :: t in statuses ==> statuses[t] == Succeeded
    ensures StatusOfGroup(statuses, states) == GroupRunning <==>
            !SomeTaskFailed(statuses) && exists t :: t in statuses && !statuses[t].IsFinal() && !statuses[t].IsRunnable()
    ensures StatusOfGroup(statuses, states) == GroupPending <==>
            statuses == map[] || (!SomeTaskFailed(statuses) && (exists t :: t in statuses && statuses[t] != Succeeded)
                                  && forall t :: t in statuses ==> statuses[t].IsFinal() || statuses[t].IsRunnable())
  {
    GroupFailsExactlyWithATask(deps, statuses, states);
    assert forall t :: t in statuses ==> (statuses[t].IsActive() <==> !statuses[t].IsFinal() && !statuses[t].IsRunnable());
    assert forall t :: t in statuses ==> statuses[t].FinallyFailed() || statuses[t] == Succeeded || !statuses[t].IsFinal();
  }

  ghost function Unfinished(statuses: Statuses): set<Node> {
    set t | t in statuses && !statuses[t].Succeeded?
  }

  /** Progress: in an acyclic group without a finally failed task and with some task not yet
      succeeded, an unfinished task has every dependency satisfied. If moreover nothing is
      active, that task is one `ready_tasks` reports. */
  lemma AcyclicGroupIsNeverStuck(deps: seq<Dependency>, statuses: Statuses)
    requires statuses.Keys == TaskIds(deps)
    requires !HasCycle(EdgesOf(deps))
    requires forall t :: t in statuses ==> !statuses[t].FinallyFailed()
    requires exists t :: t in statuses && !statuses[t].Succeeded?
    ensures exists t :: t in statuses && !statuses[t].Succeeded? && Verdict(deps, t, statuses) == Ready
                        && (statuses[t].IsActive() || statuses[t].IsRunnable())
  {
    var edges := EdgesOf(deps);
    var unfinished := Unfinished(statuses);
    if forall t :: t in unfinished ==> Verdict(deps, t, statuses) != Ready {
      forall t | t in unfinished ensures HasSuccessorIn(edges, unfinished, t) {
        UnreadyTaskWaits(deps, statuses, t);
      }
      var t :| t in statuses && !statuses[t].Succeeded?;
      assert t in unfinished;
      NoSinkHasCycle(edges, unfinished);
    }
    var t :| t in unfinished && Verdict(deps, t, statuses) == Ready;
    assert !statuses[t].FinallyFailed();
  }

  lemma UnreadyTaskWaits(deps: seq<Dependency>, statuses: Statuses, t: Node)
    requires statuses.Keys == TaskIds(deps)
    requires forall x :: x in statuses ==> !statuses[x].FinallyFailed()
    requires t in statuses && Verdict(deps, t, statuses) != Ready
    ensures HasSuccessorIn(EdgesOf(deps), Unfinished(statuses), t)
  {
    var d :| d in deps && d.task == t
             && (OutcomeOf(statuses, d.dependsOn) == Failing || OutcomeOf(statuses, d.dependsOn) == Outstanding);
    MembersHaveStatuses(deps, statuses, d);
    assert (d.task, d.dependsOn) in EdgesOf(deps);
  }
}
