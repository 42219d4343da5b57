/** The control plane's tables and the transactions that place, release and account for executions. */
module Ledger {
  import opened Accelerators
  import opened Common
  import opened TaskStates
  import Q = Quotas

  type WorkerId = string
  type DeviceId = nat
  type TaskId = nat
  type ProjectId = nat
  type ExecutionId = nat

  datatype Authority = ExactDevice | DevicePlugin

  datatype WorkerStatus = Online | Offline | Draining

  /** Reserved CPU is counted in millicores. */
  datatype Worker = Worker(
    status: WorkerStatus, session: nat, overcommitted: bool, concurrency: int,
    cpuAllocatable: int, memoryAllocatable: int, gpuCount: int,
    running: int, cpu: int, memory: int, gpus: int)

  datatype Device = Device(worker: WorkerId, uuid: string, vendor: Vendor, healthy: bool)

  datatype Task = Task(
    project: ProjectId, status: TaskStatus, cancelRequested: bool, cpu: int, memory: int, gpus: int, startedAt: Option<int>)

  /** Settings validate every price as non-negative. */
  type Price = x: real | x >= 0.0

  datatype Prices = Prices(cpuHour: Price, memoryGbHour: Price, gpuHour: Price)

  datatype Observation = Observation(vendor: Vendor, ids: seq<string>)

  datatype Execution = Execution(
    task: TaskId, worker: WorkerId, authority: Authority, cpu: int, memory: int, gpus: int, prices: Prices,
    status: TaskStatus, finishedAt: Option<int>, observed: Option<Observation>)

  datatype Reservation = Reservation(
    project: ProjectId, task: TaskId, worker: WorkerId, session: nat, authority: Authority,
    cpu: int, memory: int, gpus: int, vendor: Option<Vendor>, observed: Option<Observation>, createdAt: int, released: bool)

  datatype Usage = Usage(
    execution: ExecutionId, task: TaskId, project: ProjectId, startedAt: int, finishedAt: int, cost: real)

  /** Exact-device bindings; `true` while the binding is active. */
  type Links = map<(ExecutionId, DeviceId), bool>

  datatype Database = Database(
    workers: map<WorkerId, Worker>, devices: map<DeviceId, Device>, tasks: map<TaskId, Task>,
    quotas: map<ProjectId, Q.Quota>, executions: map<ExecutionId, Execution>,
    reservations: map<ExecutionId, Reservation>, links: Links, ledger: seq<Usage>)

  const EMPTY := Database(map[], map[], map[], map[], map[], map[], map[], [])

  datatype Reason =
    | TaskNotQueued | DependenciesNotReady | WorkerUnavailable | FenceChanged | NodeMissing | NoSlot
    | CpuChanged | MemoryChanged | BindsDevices | CatalogMissing | CapabilitiesInvalid | AcceleratorsChanged
    | InventoryChanged | DeviceTaken | NeedsDevices | Rejected

  datatype Failure =
    | Conflict(reason: Reason)
    | ObservationConflict
    | QuotaMissing
    | QuotaFailed(error: Q.Error)
    | Invariant
    | Constraint
    | Stale

  const SECONDS_PER_DAY := 86400

  /** The accounting date of a timestamp in seconds. */
  function Day(now: int): int {
    now / SECONDS_PER_DAY
  }

  predicate Active(rs: map<ExecutionId, Reservation>, e: ExecutionId) {
    e in rs && !rs[e].released
  }

  predicate Bound(links: Links, e: ExecutionId, d: DeviceId) {
    (e, d) in links && links[(e, d)]
  }

  function RequestOf(r: Reservation): Q.Request {
    Q.Request(r.cpu, r.memory, r.gpus, r.vendor, 0.0)
  }

  // -------------------------------------------------------------------------- placement

  /** The device-plugin admission a placement may carry, with the pool capacity recomputed under locks. */
  datatype Admission = Admission(
    worker: WorkerId, session: nat, vendor: Vendor, hasNode: bool, hasCatalog: bool, capabilitiesValid: bool, capacity: int)

  /** `ready` and `fits` are the answers of the dependency query and of the snapshot evaluation. */
  datatype Placement = Placement(
    task: TaskId, worker: WorkerId, execution: ExecutionId, requested: set<DeviceId>, admission: Option<Admission>,
    ready: bool, fits: bool, prices: Prices, now: int)

  predicate Eligible(d: Device, worker: WorkerId) {
    d.worker == worker && d.healthy && d.vendor == Nvidia
  }

  /** The requested rows that are healthy NVIDIA devices of the worker. */
  function Chosen(devices: map<DeviceId, Device>, p: Placement): set<DeviceId> {
    if p.admission.Some? then {}
    else set d | d in p.requested && d in devices && Eligible(devices[d], p.worker)
  }

  predicate SomeBound(links: Links, requested: set<DeviceId>) {
    exists link {:trigger links[link]} :: link in links && links[link] && link.1 in requested
  }

  predicate TaskBusy(rs: map<ExecutionId, Reservation>, t: TaskId) {
    exists e {:trigger rs[e]} :: e in rs && !rs[e].released && rs[e].task == t
  }

  function DeviceCheck(db: Database, t: Task, p: Placement): Option<Failure> {
    if p.admission.Some? then
      if !p.admission.value.hasCatalog then Some(Conflict(CatalogMissing))
      else if !p.admission.value.capabilitiesValid then Some(Conflict(CapabilitiesInvalid))
      else if p.admission.value.capacity < t.gpus then Some(Conflict(AcceleratorsChanged))
      else None
    else if p.requested != {} then
      if |Chosen(db.devices, p)| != t.gpus then Some(Conflict(InventoryChanged))
      else if SomeBound(db.links, p.requested) then Some(Conflict(DeviceTaken))
      else None
    else if t.gpus != 0 then Some(Conflict(NeedsDevices))
    else None
  }

  function WorkerCheck(w: Worker, t: Task, p: Placement): Option<Failure> {
    if w.status != Online || w.overcommitted then Some(Conflict(WorkerUnavailable))
    else if p.admission.Some? && (p.admission.value.worker != p.worker || p.admission.value.session != w.session) then
      Some(Conflict(FenceChanged))
    else if p.admission.Some? && !p.admission.value.hasNode then Some(Conflict(NodeMissing))
    else if w.running >= w.concurrency then Some(Conflict(NoSlot))
    else if w.cpu + t.cpu > w.cpuAllocatable then Some(Conflict(CpuChanged))
    else if w.memory + t.memory > w.memoryAllocatable then Some(Conflict(MemoryChanged))
    else if p.admission.Some? && p.requested != {} then Some(Conflict(BindsDevices))
    else None
  }

  /** The tables' own constraints on the inserted rows. */
  predicate RowsValid(db: Database, t: Task, p: Placement) {
    && p.execution !in db.executions && p.execution !in db.reservations
    && t.cpu > 0 && t.memory > 0 && t.gpus >= 0
    && (t.gpus == 0 ==> p.admission.None?)
    && !TaskBusy(db.reservations, p.task)
  }

  function PlaceCheck(db: Database, p: Placement): Option<Failure> {
    if p.task !in db.tasks || db.tasks[p.task].status != Queued || db.tasks[p.task].cancelRequested then
      Some(Conflict(TaskNotQueued))
    else if !p.ready then Some(Conflict(DependenciesNotReady))
    else
      var t := db.tasks[p.task];
      if t.project !in db.quotas then Some(QuotaMissing)
      else if !Q.Sound(db.quotas[t.project].counters) then Some(QuotaFailed(Q.Violation))
      else if p.worker !in db.workers then Some(Conflict(WorkerUnavailable))
      else
        var refused := WorkerCheck(db.workers[p.worker], t, p);
        if refused.Some? then refused
        else
          var unfit := DeviceCheck(db, t, p);
          if unfit.Some? then unfit
          else if !p.fits then Some(Conflict(Rejected))
          else if !RowsValid(db, t, p) then Some(Constraint)
          else None
  }

  function VendorOf(t: Task, p: Placement): Option<Vendor> {
    if t.gpus == 0 then None else if p.admission.Some? then Some(p.admission.value.vendor) else Some(Nvidia)
  }

  function Least(ds: set<DeviceId>): (d: DeviceId)
    requires ds != {}
    ensures d in ds && forall other :: other in ds ==> d <= other
  {
    var some :| some in ds;
    HasLeast(ds, some);
    var d :| d in ds && forall other :: other in ds ==> d <= other;
    d
  }

  lemma {:induction false} HasLeast(ds: set<DeviceId>, d: DeviceId)
    requires d in ds
    ensures exists d :: d in ds && forall other :: other in ds ==> d <= other
    decreases d
  {
    if other :| other in ds && other < d {
      HasLeast(ds, other);
    }
  }

  /** Device rows in id order. */
  function Uuids(devices: map<DeviceId, Device>, ds: set<DeviceId>): seq<string>
    requires ds <= devices.Keys
    decreases ds
  {
    if ds == {} then []
    else
      var d := Least(ds);
      [devices[d].uuid] + Uuids(devices, ds - {d})
  }

  function ObservedAtPlacement(db: Database, p: Placement): Option<Observation> {
    var chosen := Chosen(db.devices, p);
    if chosen == {} then None else Some(Observation(Nvidia, Uuids(db.devices, chosen)))
  }

  function NewReservation(db: Database, t: Task, p: Placement, session: nat): Reservation {
    Reservation(t.project, p.task, p.worker, session, if p.admission.Some? then DevicePlugin else ExactDevice,
                t.cpu, t.memory, t.gpus, VendorOf(t, p), ObservedAtPlacement(db, p), p.now, false)
  }

  function NewExecution(db: Database, t: Task, p: Placement): Execution {
    Execution(p.task, p.worker, if p.admission.Some? then DevicePlugin else ExactDevice, t.cpu, t.memory, t.gpus,
              p.prices, Assigned, None, ObservedAtPlacement(db, p))
  }

  function Loaded(w: Worker, t: Task): Worker {
    w.(running := w.running + 1, cpu := w.cpu + t.cpu, memory := w.memory + t.memory, gpus := w.gpus + t.gpus)
  }

  function NewLinks(links: Links, e: ExecutionId, chosen: set<DeviceId>): Links {
    links + map d | d in chosen :: (e, d) := true
  }

  function BoundTo(links: Links, devices: map<DeviceId, Device>, e: ExecutionId): set<DeviceId> {
    set d | d in devices && Bound(links, e, d)
  }

  /** `assert_exact_device_binding`. */
  predicate BindingHolds(links: Links, devices: map<DeviceId, Device>, e: ExecutionId, r: Reservation) {
    r.gpus == 0 || r.authority == DevicePlugin ||
    var bound := BoundTo(links, devices, e);
    && |bound| == r.gpus
    && (forall d :: d in bound ==> Some(devices[d].vendor) == r.vendor)
    && r.observed.Some? && multiset(r.observed.value.ids) == multiset(Uuids(devices, bound))
  }

  function ReservationFor(db: Database, p: Placement): Reservation
    requires PlaceCheck(db, p).None?
  {
    NewReservation(db, db.tasks[p.task], p, db.workers[p.worker].session)
  }

  /** The project's quota answers last, after the inserted binding is verified. */
  function FinalCheck(db: Database, p: Placement): Option<Failure>
    requires PlaceCheck(db, p).None?
  {
    var r := ReservationFor(db, p);
    if !BindingHolds(NewLinks(db.links, p.execution, Chosen(db.devices, p)), db.devices, p.execution, r) then Some(Invariant)
    else
      match Q.Reserve(db.quotas[r.project], Day(p.now), RequestOf(r))
      case Err(e) => Some(QuotaFailed(e))
      case Ok(_) => None
  }

  function Placed(db: Database, p: Placement): Database
    requires PlaceCheck(db, p).None? && FinalCheck(db, p).None?
  {
    var t, w, r := db.tasks[p.task], db.workers[p.worker], ReservationFor(db, p);
    var q := db.quotas[r.project];
    db.(
      tasks := db.tasks[p.task := t.(status := Assigned, startedAt := None, cancelRequested := false)],
      workers := db.workers[p.worker := Loaded(w, t)],
      executions := db.executions[p.execution := NewExecution(db, t, p)],
      reservations := db.reservations[p.execution := r],
      links := NewLinks(db.links, p.execution, Chosen(db.devices, p)),
      quotas := db.quotas[r.project := q.(counters := Q.Reserve(q, Day(p.now), RequestOf(r)).value)])
  }

  /** `place`. */
  function Place(db: Database, p: Placement): Result<Database, Failure> {
    if PlaceCheck(db, p).Some? then Err(PlaceCheck(db, p).value)
    else if FinalCheck(db, p).Some? then Err(FinalCheck(db, p).value)
    else Ok(Placed(db, p))
  }

  // ---------------------------------------------------------------------------- release

  predicate WorkerCovers(w: Worker, r: Reservation) {
    w.running >= 1 && w.cpu >= r.cpu && w.memory >= r.memory && w.gpus >= r.gpus
  }

  function Unloaded(w: Worker, r: Reservation): Worker {
    w.(running := w.running - 1, cpu := w.cpu - r.cpu, memory := w.memory - r.memory, gpus := w.gpus - r.gpus)
  }

  function Unlinked(links: Links, e: ExecutionId): Links {
    map link | link in links :: links[link] && link.0 != e
  }

  function StartedAt(db: Database, r: Reservation): Option<int> {
    if r.task in db.tasks then db.tasks[r.task].startedAt else None
  }

  predicate Billed(ledger: seq<Usage>, e: ExecutionId) {
    exists i :: 0 <= i < |ledger| && ledger[i].execution == e
  }

  const SECONDS_PER_HOUR := 3600.0

  /** What an execution costs for a duration in seconds. */
  function Cost(x: Execution, seconds: real): real {
    seconds * (x.cpu as real / 1000.0) * (x.prices.cpuHour / SECONDS_PER_HOUR)
    + seconds * (x.memory as real / 1024.0) * (x.prices.memoryGbHour / SECONDS_PER_HOUR)
    + seconds * (x.gpus as real) * (x.prices.gpuHour / SECONDS_PER_HOUR)
  }

  /** The ledger row a release writes: none for an execution that never started or is already billed. */
  function NewUsage(db: Database, e: ExecutionId, now: int): Option<Usage>
    requires e in db.reservations && e in db.executions
  {
    var r := db.reservations[e];
    var started := StartedAt(db, r);
    if started.None? || Billed(db.ledger, e) then None
    else
      var seconds := Max(0, now - started.value) as real;
      Some(Usage(e, r.task, r.project, started.value, now, Cost(db.executions[e], seconds)))
  }

  function SettlementOf(r: Reservation, usage: Option<Usage>): Q.Settlement {
    Q.Settlement(RequestOf(r), Some(Day(r.createdAt)), if usage.Some? then usage.value.cost else 0.0)
  }

  /** Why an active reservation could not be released. */
  function ReleaseCheck(db: Database, e: ExecutionId, now: int): Option<Failure>
    requires e in db.reservations
  {
    var r := db.reservations[e];
    if r.project !in db.quotas then Some(QuotaMissing)
    else if !Q.Sound(db.quotas[r.project].counters) then Some(QuotaFailed(Q.Violation))
    else if r.worker in db.workers && !WorkerCovers(db.workers[r.worker], r) then Some(Invariant)
    else if e !in db.executions then Some(Invariant)
    else
      var usage := NewUsage(db, e, now);
      if usage.Some? && usage.value.finishedAt < usage.value.startedAt then Some(Constraint)
      else
        match Q.Release(db.quotas[r.project], Day(now), SettlementOf(r, usage))
        case Err(x) => Some(QuotaFailed(x))
        case Ok(_) => None
  }

  function Released(db: Database, e: ExecutionId, now: int, final: TaskStatus): Database
    requires e in db.reservations && ReleaseCheck(db, e, now).None?
  {
    var r := db.reservations[e];
    var usage := NewUsage(db, e, now);
    var q := db.quotas[r.project];
    db.(
      workers := if r.worker in db.workers then db.workers[r.worker := Unloaded(db.workers[r.worker], r)] else db.workers,
      links := Unlinked(db.links, e),
      reservations := db.reservations[e := r.(released := true)],
      executions := db.executions[e := db.executions[e].(status := final, finishedAt := Some(now))],
      ledger := if usage.Some? then db.ledger + [usage.value] else db.ledger,
      quotas := db.quotas[r.project := q.(counters := Q.Release(q, Day(now), SettlementOf(r, usage)).value)])
  }

  /** `release_and_settle`: whether this call released the execution. */
  function Release(db: Database, e: ExecutionId, now: int, final: TaskStatus): Result<(Database, bool), Failure> {
    if !Active(db.reservations, e) then Ok((db, false))
    else if ReleaseCheck(db, e, now).Some? then Err(ReleaseCheck(db, e, now).value)
    else Ok((Released(db, e, now, final), true))
  }

  // ------------------------------------------------------------------------ observation

  /** `record_observed_allocation`, on trimmed ids: whether this call recorded the observation. */
  function Observe(db: Database, e: ExecutionId, o: Observation): Result<(Database, bool), Failure> {
    if (exists i :: 0 <= i < |o.ids| && o.ids[i] == "") || !NoRepeats(o.ids) || !Active(db.reservations, e) then
      Err(ObservationConflict)
    else if e !in db.executions then Err(Invariant)
    else
      var r, x := db.reservations[e], db.executions[e];
      if r.authority != DevicePlugin || x.authority != DevicePlugin || r.vendor != Some(o.vendor) || |o.ids| != r.gpus then
        Err(ObservationConflict)
      else if exists link {:trigger db.links[link]} :: link in db.links && link.0 == e then Err(Invariant)
      else if r.observed.Some? || x.observed.Some? then
        if r.observed == Some(o) && x.observed == Some(o) then Ok((db, false)) else Err(ObservationConflict)
      else
        Ok((db.(reservations := db.reservations[e := r.(observed := Some(o))],
                executions := db.executions[e := x.(observed := Some(o))]), true))
  }

  // ---------------------------------------------------------------------------- workers

  datatype Registration = Registration(session: nat, concurrency: int, cpuCount: nat, memory: nat, gpuCount: nat)

  function Registered(w: Worker, g: Registration): Worker {
    var over := w.cpu > g.cpuCount * 1000 || w.memory > g.memory || w.gpus > g.gpuCount;
    w.(session := g.session, concurrency := g.concurrency, cpuAllocatable := g.cpuCount * 1000,
       memoryAllocatable := g.memory, gpuCount := g.gpuCount, overcommitted := over,
       status := if over then Draining else Online)
  }

  function NewWorker(g: Registration): Worker {
    Worker(Online, g.session, false, g.concurrency, g.cpuCount * 1000, g.memory, g.gpuCount, 0, 0, 0, 0)
  }

  function Register(db: Database, id: WorkerId, g: Registration): Database {
    db.(workers := db.workers[id := if id in db.workers then Registered(db.workers[id], g) else NewWorker(g)])
  }

  predicate SessionMatches(db: Database, id: WorkerId, session: Option<nat>) {
    id in db.workers && (session.None? || session.value == db.workers[id].session)
  }

  function Heartbeat(db: Database, id: WorkerId, session: Option<nat>): Database {
    if !SessionMatches(db, id, session) then db
    else
      var w := db.workers[id];
      db.(workers := db.workers[id := if w.status == Draining then w else w.(status := Online)])
  }

  /** `set_status`, and `drain` without a session. */
  function SetStatus(db: Database, id: WorkerId, status: WorkerStatus, session: Option<nat>): Database {
    if !SessionMatches(db, id, session) then db
    else db.(workers := db.workers[id := db.workers[id].(status := status)])
  }

  function Expired(w: Worker, stale: bool): Worker {
    if stale && w.status == Online then w.(status := Offline) else w
  }

  /** `mark_stale_offline` for the stale workers of the scan. */
  function MarkStale(db: Database, stale: set<WorkerId>): Database {
    db.(workers := map id | id in db.workers :: Expired(db.workers[id], id in stale))
  }

  datatype Report = Report(vendor: Vendor, healthy: bool)

  /** One reported device. */
  datatype Item = Item(uuid: string, report: Report)

  /** The last word on each uuid. */
  function ReportsOf(items: seq<Item>): map<string, Report> {
    if items == [] then map[]
    else
      var last := items[|items| - 1];
      ReportsOf(items[..|items| - 1])[last.uuid := last.report]
  }

  function Updated(d: Device, reported: map<string, Report>): Device {
    if d.uuid in reported then d.(vendor := reported[d.uuid].vendor, healthy := reported[d.uuid].healthy)
    else d.(healthy := false)
  }

  predicate Known(devices: map<DeviceId, Device>, id: WorkerId, uuid: string) {
    exists d {:trigger devices[d]} :: d in devices && devices[d].worker == id && devices[d].uuid == uuid
  }

  /** Ids for newly reported devices: unused, and one for each. */
  predicate FreshIds(devices: map<DeviceId, Device>, id: WorkerId, reported: map<string, Report>, added: map<DeviceId, string>) {
    && added.Keys !! devices.Keys
    && (forall d :: d in added ==> added[d] in reported && !Known(devices, id, added[d]))
    && (forall d, e :: d in added && e in added && added[d] == added[e] ==> d == e)
    && (forall uuid :: uuid in reported && !Known(devices, id, uuid) ==> uuid in added.Values)
  }

  /** Devices after a worker's report: updated, marked missing, or added; none is removed. */
  function Inventoried(devices: map<DeviceId, Device>, id: WorkerId, reported: map<string, Report>, added: map<DeviceId, string>)
    : map<DeviceId, Device>
    requires FreshIds(devices, id, reported, added)
  {
    map d | d in devices.Keys + added.Keys :: InventoryRow(devices, id, reported, added, d)
  }

  function InventoryRow(devices: map<DeviceId, Device>, id: WorkerId, reported: map<string, Report>,
                        added: map<DeviceId, string>, d: DeviceId): Device
    requires (d in added && added[d] in reported) || (d !in added && d in devices)
  {
    if d in added then Device(id, added[d], reported[added[d]].vendor, reported[added[d]].healthy)
    else if devices[d].worker == id then Updated(devices[d], reported)
    else devices[d]
  }

  /** A device that is new to the worker and reported twice would be inserted twice. */
  predicate NewTwice(devices: map<DeviceId, Device>, id: WorkerId, items: seq<Item>) {
    exists i, j :: 0 <= i < j < |items| && items[i].uuid == items[j].uuid && !Known(devices, id, items[i].uuid)
  }

  /** `replace_gpu_inventory`. */
  function ReplaceInventory(db: Database, id: WorkerId, session: nat, items: seq<Item>, added: map<DeviceId, string>)
    : Result<Database, Failure>
    requires FreshIds(db.devices, id, ReportsOf(items), added)
  {
    if !SessionMatches(db, id, Some(session)) then Err(Stale)
    else if NewTwice(db.devices, id, items) then Err(Constraint)
    else
      Ok(db.(devices := Inventoried(db.devices, id, ReportsOf(items), added),
             workers := db.workers[id := db.workers[id].(gpuCount := |items|)]))
  }

  // ------------------------------------------------------------------------------ tasks

  /** Tasks that hold a place in their project's queue. */
  predicate Waiting(s: TaskStatus) {
    s.Pending? || s.Queued? || s.Scheduling? || s.Retrying?
  }

  /** `create_queued` for a task that is not cancelled by its dependencies. */
  function Submit(db: Database, id: TaskId, t: Task, now: int): Result<Database, Failure> {
    if id in db.tasks || !Waiting(t.status) || t.startedAt.Some? then Err(Constraint)
    else if t.project !in db.quotas then Err(QuotaMissing)
    else
      match Q.AdmitQueued(db.quotas[t.project], Day(now))
      case Err(e) => Err(QuotaFailed(e))
      case Ok(c) =>
        Ok(db.(tasks := db.tasks[id := t], quotas := db.quotas[t.project := db.quotas[t.project].(counters := c)]))
  }

  /** A transition that neither enters nor leaves the queue, and the start of an execution. */
  function Progress(db: Database, id: TaskId, status: TaskStatus, startedAt: Option<int>): Database {
    if id !in db.tasks || Waiting(status) != Waiting(db.tasks[id].status) then db
    else db.(tasks := db.tasks[id := db.tasks[id].(status := status, startedAt := startedAt)])
  }

  /** A retry: the task returns to the queue if the project still has room. */
  function Requeue(db: Database, id: TaskId, now: int): Result<Database, Failure> {
    if id !in db.tasks || Waiting(db.tasks[id].status) then Err(Conflict(TaskNotQueued))
    else
      var t := db.tasks[id];
      if t.project !in db.quotas then Err(QuotaMissing)
      else
        match Q.AdmitQueued(db.quotas[t.project], Day(now))
        case Err(e) => Err(QuotaFailed(e))
        case Ok(c) =>
          Ok(db.(tasks := db.tasks[id := t.(status := Retrying)],
                 quotas := db.quotas[t.project := db.quotas[t.project].(counters := c)]))
  }

  /** Cancelling a queued task gives its place back. */
  function CancelQueued(db: Database, id: TaskId, now: int): Result<Database, Failure> {
    if id !in db.tasks || !Waiting(db.tasks[id].status) then Err(Conflict(TaskNotQueued))
    else
      var t := db.tasks[id];
      if t.project !in db.quotas then Err(QuotaMissing)
      else
        match Q.ReleaseQueued(db.quotas[t.project], Day(now))
        case Err(e) => Err(QuotaFailed(e))
        case Ok(c) =>
          Ok(db.(tasks := db.tasks[id := t.(status := Cancelled, cancelRequested := true)],
                 quotas := db.quotas[t.project := db.quotas[t.project].(counters := c)]))
  }

  // --------------------------------------------------------------------- project quotas

  function Initialize(db: Database, p: ProjectId, limits: Q.Limits, now: int): Database {
    if p in db.quotas || !Q.ValidLimits(limits) then db else db.(quotas := db.quotas[p := Q.Fresh(limits, Day(now))])
  }

  /** Service commitments, limit changes and row locks on one project's quota. */
  function ChangeQuota(db: Database, p: ProjectId, op: Q.Operation, now: int): Database {
    if p !in db.quotas || !(op.Lock? || op.Commit? || op.Limit?) then db
    else db.(quotas := db.quotas[p := Q.Apply(db.quotas[p], Day(now), op)])
  }

  // ------------------------------------------------------------------------------- runs

  datatype Step =
    | DoPlace(placement: Placement)
    | DoRelease(execution: ExecutionId, final: TaskStatus)
    | DoObserve(observed: ExecutionId, observation: Observation)
    | DoRegister(worker: WorkerId, registration: Registration)
    | DoHeartbeat(worker: WorkerId, session: Option<nat>)
    | DoSetStatus(worker: WorkerId, status: WorkerStatus, session: Option<nat>)
    | DoMarkStale(stale: set<WorkerId>)
    | DoInventory(worker: WorkerId, current: nat, items: seq<Item>, ids: map<DeviceId, string>)
    | DoSubmit(id: TaskId, task: Task)
    | DoProgress(id: TaskId, to: TaskStatus, startedAt: Option<int>)
    | DoRequeue(id: TaskId)
    | DoCancel(id: TaskId)
    | DoInitialize(project: ProjectId, limits: Q.Limits)
    | DoChangeQuota(project: ProjectId, op: Q.Operation)

  function Kept<T>(db: Database, r: Result<Database, T>): Database {
    if r.Ok? then r.value else db
  }

  /** Each step is one transaction; a raised error leaves the tables as they were. */
  function Apply(db: Database, now: int, step: Step): Database {
    match step
    case DoPlace(p) => Kept(db, Place(db, p.(now := now)))
    case DoRelease(e, final) => (var r := Release(db, e, now, final); if r.Ok? then r.value.0 else db)
    case DoObserve(e, o) => (var r := Observe(db, e, o); if r.Ok? then r.value.0 else db)
    case DoRegister(w, g) => Register(db, w, g)
    case DoHeartbeat(w, s) => Heartbeat(db, w, s)
    case DoSetStatus(w, status, s) => SetStatus(db, w, status, s)
    case DoMarkStale(ws) => MarkStale(db, ws)
    case DoInventory(w, s, items, ids) =>
      if FreshIds(db.devices, w, ReportsOf(items), ids) then Kept(db, ReplaceInventory(db, w, s, items, ids)) else db
    case DoSubmit(id, t) => Kept(db, Submit(db, id, t, now))
    case DoProgress(id, to, at) => Progress(db, id, to, at)
    case DoRequeue(id) => Kept(db, Requeue(db, id, now))
    case DoCancel(id) => Kept(db, CancelQueued(db, id, now))
    case DoInitialize(p, limits) => Initialize(db, p, limits, now)
    case DoChangeQuota(p, op) => ChangeQuota(db, p, op, now)
  }

  function Run(db: Database, steps: seq<(int, Step)>): Database
    decreases |steps|
  {
    if steps == [] then db else Run(Apply(db, steps[0].0, steps[0].1), steps[1..])
  }
}
