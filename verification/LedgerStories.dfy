/** Runs from empty tables into the states where a promise of the control plane fails. */
module LedgerStories {
  import opened Accelerators
  import opened Common
  import opened ControlPlaneRuns
  import opened Ledger
  import opened LedgerAccounts
  import opened TaskStates
  import Bindings = LedgerBindings
  import Q = Quotas

  /** One task on one worker with one NVIDIA device, all at one moment. */
  datatype Story = Story(
    worker: WorkerId, machine: Registration, device: DeviceId, uuid: string, id: TaskId, task: Task,
    execution: ExecutionId, prices: Prices, now: int)

  /** The task waits for one accelerator, and the worker has room for it. */
  predicate Ordinary(s: Story) {
    && s.task.status == Queued && !s.task.cancelRequested && s.task.startedAt == None && s.task.gpus == 1
    && 0 < s.task.cpu <= s.machine.cpuCount * 1000 && 0 < s.task.memory <= s.machine.memory && s.machine.concurrency >= 1
  }

  function Binding(s: Story): Placement {
    Placement(s.id, s.worker, s.execution, {s.device}, None, true, true, s.prices, s.now)
  }

  function Reporting(s: Story, vendor: Vendor, ids: map<DeviceId, string>): Step {
    DoInventory(s.worker, s.machine.session, [Item(s.uuid, Report(vendor, true))], ids)
  }

  /** The run that initializes the project, registers the worker, reports its device, and submits and places the task. */
  function Opening(s: Story): seq<(int, Step)> {
    [(s.now, DoInitialize(s.task.project, Q.UNLIMITED)), (s.now, DoRegister(s.worker, s.machine)),
     (s.now, Reporting(s, Nvidia, map[s.device := s.uuid])), (s.now, DoSubmit(s.id, s.task))]
  }

  function Placing(s: Story): seq<(int, Step)> {
    Opening(s) + [(s.now, DoPlace(Binding(s)))]
  }

  lemma {:induction false} RunExtends(db: Database, steps: seq<(int, Step)>, now: int, last: Step)
    ensures Run(db, steps + [(now, last)]) == Apply(Run(db, steps), now, last)
    decreases |steps|
  {
    var longer := steps + [(now, last)];
    if steps == [] {
      assert longer[1..] == [];
    } else {
      assert longer[0] == steps[0] && longer[1..] == steps[1..] + [(now, last)];
      RunExtends(Apply(db, steps[0].0, steps[0].1), steps[1..], now, last);
    }
  }

  // --------------------------------------------------------------------- up to the placement

  function Room(s: Story): Q.Quota {
    Q.Fresh(Q.UNLIMITED, Day(s.now))
  }

  function WithQuota(s: Story): Database {
    EMPTY.(quotas := map[s.task.project := Room(s)])
  }

  function WithWorker(s: Story): Database {
    WithQuota(s).(workers := map[s.worker := NewWorker(s.machine)])
  }

  function WithDevice(s: Story): Database {
    WithQuota(s).(workers := map[s.worker := NewWorker(s.machine).(gpuCount := 1)],
                  devices := map[s.device := Device(s.worker, s.uuid, Nvidia, true)])
  }

  function WithTask(s: Story): Database {
    WithDevice(s).(tasks := map[s.id := s.task],
                   quotas := map[s.task.project := Room(s).(counters := Room(s).counters.(queued := 1))])
  }

  lemma ProjectInitialized(s: Story)
    ensures Apply(EMPTY, s.now, DoInitialize(s.task.project, Q.UNLIMITED)) == WithQuota(s)
  {
  }

  lemma WorkerRegistered(s: Story)
    ensures Apply(WithQuota(s), s.now, DoRegister(s.worker, s.machine)) == WithWorker(s)
  {
  }

  lemma DeviceReported(s: Story)
    ensures Apply(WithWorker(s), s.now, Reporting(s, Nvidia, map[s.device := s.uuid])) == WithDevice(s)
  {
    var items, ids := [Item(s.uuid, Report(Nvidia, true))], map[s.device := s.uuid];
    assert items[..0] == [];
    assert ReportsOf(items) == map[s.uuid := Report(Nvidia, true)];
    assert ids[s.device] in ids.Values;
    assert FreshIds(WithWorker(s).devices, s.worker, ReportsOf(items), ids);
    assert Inventoried(WithWorker(s).devices, s.worker, ReportsOf(items), ids) == WithDevice(s).devices;
  }

  lemma TaskSubmitted(s: Story)
    requires Ordinary(s)
    ensures Apply(WithDevice(s), s.now, DoSubmit(s.id, s.task)) == WithTask(s)
  {
  }

  lemma OpeningRun(s: Story)
    requires Ordinary(s)
    ensures Run(EMPTY, Opening(s)) == WithTask(s)
  {
    var steps := Opening(s);
    ProjectInitialized(s);
    WorkerRegistered(s);
    DeviceReported(s);
    TaskSubmitted(s);
    assert Run(WithDevice(s), steps[1..][1..][1..]) == WithTask(s) by {
      assert steps[1..][1..][1..] == [steps[3]] && steps[1..][1..][1..][1..] == [];
    }
    assert Run(WithWorker(s), steps[1..][1..]) == WithTask(s);
  }

  // -------------------------------------------------------------------------- the placement

  lemma PlacementPassesChecks(s: Story)
    requires Ordinary(s)
    ensures PlaceCheck(WithTask(s), Binding(s)).None?
  {
    assert Chosen(WithTask(s).devices, Binding(s)) == {s.device};
  }

  lemma UnlimitedQuotaAdmits(q: Q.Quota, day: int, r: Q.Request)
    requires q.limits == Q.UNLIMITED
    ensures Q.Reserve(q, day, r).Err? ==> !Q.Reserve(q, day, r).error.Exceeded?
  {
  }

  lemma PlacingRun(s: Story)
    requires Ordinary(s)
    ensures Place(WithTask(s), Binding(s)).Ok? && Run(EMPTY, Placing(s)) == Placed(WithTask(s), Binding(s))
  {
    var db, p := WithTask(s), Binding(s);
    OpeningRun(s);
    EveryRunKeepsInv(Opening(s));
    PlacementPassesChecks(s);
    PlacementFailsOnlyOnQuota(db, p);
    UnlimitedQuotaAdmits(db.quotas[s.task.project], Day(p.now), RequestOf(ReservationFor(db, p)));
    RunExtends(EMPTY, Opening(s), s.now, DoPlace(p));
  }

  lemma PlacedReservation(s: Story)
    requires Ordinary(s) && Place(WithTask(s), Binding(s)).Ok?
    ensures var rows := Placed(WithTask(s), Binding(s)).reservations;
            && Active(rows, s.execution) && rows[s.execution].authority == ExactDevice && rows[s.execution].gpus == 1
            && rows[s.execution].vendor == Some(Nvidia) && rows[s.execution].task == s.id
  {
  }

  lemma PlacedTables(s: Story)
    requires Ordinary(s) && Place(WithTask(s), Binding(s)).Ok?
    ensures var db := Placed(WithTask(s), Binding(s));
            && db.tasks == map[s.id := s.task.(status := Assigned)] && db.devices == WithTask(s).devices && db.ledger == []
            && SessionMatches(db, s.worker, Some(s.machine.session))
  {
  }

  lemma PlacedLink(s: Story)
    requires Ordinary(s) && Place(WithTask(s), Binding(s)).Ok?
    ensures Bound(Placed(WithTask(s), Binding(s)).links, s.execution, s.device)
  {
    assert s.device in Chosen(WithTask(s).devices, Binding(s));
  }

  // ------------------------------------------------------------- a clock behind the start

  /** The task is under way on the execution, which has no usage row. */
  predicate Underway(db: Database, id: TaskId, e: ExecutionId) {
    && id in db.tasks && !Waiting(db.tasks[id].status) && Active(db.reservations, e) && db.reservations[e].task == id
    && db.ledger == []
  }

  lemma Pulled(db: Database, at: int, id: TaskId, e: ExecutionId)
    requires Underway(db, id, e)
    ensures Underway(Apply(db, at, DoProgress(id, Pulling, None)), id, e)
  {
  }

  lemma Started(db: Database, id: TaskId, start: int, e: ExecutionId, now: int)
    requires Underway(db, id, e) && now < start
    ensures var next := Apply(db, start, DoProgress(id, Running, Some(start)));
            Active(next.reservations, e) && ClockBehindStart(next, e, now)
  {
  }

  function PullingRun(s: Story): seq<(int, Step)> {
    Placing(s) + [(s.now, DoProgress(s.id, Pulling, None))]
  }

  /** The image is pulled and the task starts, recording the clock of that moment. */
  function Begun(s: Story, start: int): seq<(int, Step)> {
    PullingRun(s) + [(start, DoProgress(s.id, Running, Some(start)))]
  }

  lemma UnderwayOncePlaced(s: Story)
    requires Ordinary(s)
    ensures Underway(Run(EMPTY, Placing(s)), s.id, s.execution)
  {
    PlacingRun(s);
    PlacedReservation(s);
    PlacedTables(s);
  }

  lemma BehindOnceBegun(s: Story, start: int, now: int)
    requires Ordinary(s) && now < start
    ensures var db := Run(EMPTY, Begun(s, start)); Active(db.reservations, s.execution) && ClockBehindStart(db, s.execution, now)
  {
    UnderwayOncePlaced(s);
    RunExtends(EMPTY, Placing(s), s.now, DoProgress(s.id, Pulling, None));
    Pulled(Run(EMPTY, Placing(s)), s.now, s.id, s.execution);
    RunExtends(EMPTY, PullingRun(s), start, DoProgress(s.id, Running, Some(start)));
    Started(Run(EMPTY, PullingRun(s)), s.id, start, s.execution, now);
  }

  /** A run after which an active execution cannot be released: its task's recorded start is still ahead
      of the clock of the release. */
  lemma ReleaseRefusedByClock(s: Story, start: int, now: int, final: TaskStatus)
    requires Ordinary(s) && now < start
    ensures var db := Run(EMPTY, Begun(s, start));
            Active(db.reservations, s.execution) && Release(db, s.execution, now, final) == Err(Constraint)
  {
    BehindOnceBegun(s, start, now);
    ReachableReleaseSucceeds(Begun(s, start), s.execution, now, final);
  }

  // --------------------------------------------------------- a device reported as another vendor

  lemma ReportedAgain(s: Story, db: Database)
    requires db.devices == map[s.device := Device(s.worker, s.uuid, Nvidia, true)]
    requires SessionMatches(db, s.worker, Some(s.machine.session))
    ensures var next := Apply(db, s.now, Reporting(s, Ascend, map[]));
            && next.devices == map[s.device := Device(s.worker, s.uuid, Ascend, true)]
            && next.links == db.links && next.reservations == db.reservations
  {
    var items, none: map<DeviceId, string> := [Item(s.uuid, Report(Ascend, true))], map[];
    assert items[..0] == [];
    assert ReportsOf(items) == map[s.uuid := Report(Ascend, true)];
    assert db.devices[s.device].uuid == s.uuid;
    assert FreshIds(db.devices, s.worker, ReportsOf(items), none);
    assert Inventoried(db.devices, s.worker, ReportsOf(items), none) == map[s.device := Device(s.worker, s.uuid, Ascend, true)];
  }

  function Rereporting(s: Story): seq<(int, Step)> {
    Placing(s) + [(s.now, Reporting(s, Ascend, map[]))]
  }

  /** A run after which the binding check, had it been repeated, would fail for an active execution. */
  lemma RereportBreaksBinding(s: Story)
    requires Ordinary(s)
    ensures var db := Run(EMPTY, Rereporting(s));
            Active(db.reservations, s.execution) && !BindingHolds(db.links, db.devices, s.execution, db.reservations[s.execution])
  {
    PlacingRun(s);
    PlacedReservation(s);
    PlacedTables(s);
    PlacedLink(s);
    RunExtends(EMPTY, Placing(s), s.now, Reporting(s, Ascend, map[]));
    ReportedAgain(s, Run(EMPTY, Placing(s)));
    EveryRunKeepsInv(Rereporting(s));
    Bindings.BindingHoldsExactly(Run(EMPTY, Rereporting(s)), s.execution);
  }

  /** One such task: a whole CPU and a gigabyte on a machine of that size. */
  const FIRST := Story("worker", Registration(0, 1, 1, 1024, 1), 0, "GPU-0", 0, Task(0, Queued, false, 1000, 1024, 1, None),
                       0, Prices(0.0, 0.0, 0.0), 0)

  lemma PromisesFailForOneTask()
    ensures Release(Run(EMPTY, Begun(FIRST, 1)), FIRST.execution, 0, Succeeded) == Err(Constraint)
    ensures var db := Run(EMPTY, Rereporting(FIRST));
            && FIRST.execution in db.reservations
            && !BindingHolds(db.links, db.devices, FIRST.execution, db.reservations[FIRST.execution])
  {
    ReleaseRefusedByClock(FIRST, 1, 0, Succeeded);
    RereportBreaksBinding(FIRST);
  }
}
