/** Row locks of placement, service admission and release: one global order, so no deadlock. */
module LockOrder {

  /** Worker ids stand in their id order. Device, link and execution rows belong to a row that guards them. */
  datatype Lock =
    | TaskRow(task: nat)
    | ReservationRow(reservation: nat)
    | ProjectRow(project: nat)
    | QuotaRow(project: nat)
    | QuotaStateRow(project: nat)
    | WorkerRow(worker: nat)
    | DeviceRow(worker: nat, device: nat)
    | LinkRow(reservation: nat, device: nat)
    | ExecutionRow(reservation: nat)

  type Script = seq<Lock>
  type Transaction = nat

  predicate Ranked(l: Lock) {
    !l.DeviceRow? && !l.LinkRow? && !l.ExecutionRow?
  }

  function Class(l: Lock): nat {
    match l
    case TaskRow(_) => 0
    case ReservationRow(_) => 1
    case ProjectRow(_) => 2
    case QuotaRow(_) => 3
    case QuotaStateRow(_) => 4
    case WorkerRow(_) => 5
    case _ => 6
  }

  /** The global rank: by table, and workers by id. */
  predicate Less(a: Lock, b: Lock) {
    Class(a) < Class(b) || (a.WorkerRow? && b.WorkerRow? && a.worker < b.worker)
  }

  function Guard(l: Lock): Lock {
    match l
    case DeviceRow(w, _) => WorkerRow(w)
    case LinkRow(r, _) => ReservationRow(r)
    case ExecutionRow(r) => ReservationRow(r)
    case _ => l
  }

  /** Ranked locks are taken in rank order, and a guarded row only under its guard. */
  ghost predicate Disciplined(s: Script) {
    && (forall i, j {:trigger s[i], s[j]} :: 0 <= i < j < |s| && Ranked(s[i]) && Ranked(s[j]) ==> Less(s[i], s[j]))
    && (forall j {:trigger s[j]} :: 0 <= j < |s| && !Ranked(s[j]) ==> Guard(s[j]) in s[..j])
  }

  // -------------------------------------------------------------------- the transactions

  function DeviceRows(worker: nat, devices: seq<nat>): Script {
    seq(|devices|, i requires 0 <= i < |devices| => DeviceRow(worker, devices[i]))
  }

  /** `place`: the task, its project's quota, one worker, then that worker's devices in any order. */
  function PlaceScript(task: nat, project: nat, worker: nat, devices: seq<nat>): Script {
    [TaskRow(task), QuotaRow(project), QuotaStateRow(project), WorkerRow(worker)] + DeviceRows(worker, devices)
  }

  function WorkerRows(workers: seq<nat>): Script {
    seq(|workers|, i requires 0 <= i < |workers| => WorkerRow(workers[i]))
  }

  function InventoryRows(devices: seq<(nat, nat)>): Script {
    seq(|devices|, i requires 0 <= i < |devices| => DeviceRow(devices[i].0, devices[i].1))
  }

  /** `admit_logical_model_service`: project, quota, workers by id, then devices of those workers. */
  function AdmitScript(project: nat, workers: seq<nat>, devices: seq<(nat, nat)>): Script {
    [ProjectRow(project), QuotaRow(project), QuotaStateRow(project)] + WorkerRows(workers) + InventoryRows(devices)
  }

  ghost predicate Ascending(workers: seq<nat>) {
    forall i, j :: 0 <= i < j < |workers| ==> workers[i] < workers[j]
  }

  function LinkRows(reservation: nat, devices: seq<nat>): Script {
    seq(|devices|, i requires 0 <= i < |devices| => LinkRow(reservation, devices[i]))
  }

  /** `release_and_settle` for a task its caller holds: reservation, quota, worker, links, execution. */
  function ReleaseScript(task: nat, reservation: nat, project: nat, worker: nat, devices: seq<nat>): Script {
    [TaskRow(task), ReservationRow(reservation), QuotaRow(project), QuotaStateRow(project), WorkerRow(worker)]
    + LinkRows(reservation, devices) + [ExecutionRow(reservation)]
  }

  lemma PlaceIsDisciplined(task: nat, project: nat, worker: nat, devices: seq<nat>)
    ensures Disciplined(PlaceScript(task, project, worker, devices))
  {
    var s := PlaceScript(task, project, worker, devices);
    forall j | 0 <= j < |s| && !Ranked(s[j]) ensures Guard(s[j]) in s[..j] {
      assert s[..j][3] == WorkerRow(worker);
    }
  }

  lemma AdmitIsDisciplined(project: nat, workers: seq<nat>, devices: seq<(nat, nat)>)
    requires Ascending(workers) && forall i :: 0 <= i < |devices| ==> devices[i].0 in workers
    ensures Disciplined(AdmitScript(project, workers, devices))
  {
    var s := AdmitScript(project, workers, devices);
    forall j | 0 <= j < |s| && !Ranked(s[j]) ensures Guard(s[j]) in s[..j] {
      var d := devices[j - 3 - |workers|];
      var i :| 0 <= i < |workers| && workers[i] == d.0;
      assert s[..j][3 + i] == WorkerRow(d.0);
    }
  }

  lemma ReleaseIsDisciplined(task: nat, reservation: nat, project: nat, worker: nat, devices: seq<nat>)
    ensures Disciplined(ReleaseScript(task, reservation, project, worker, devices))
  {
    var s := ReleaseScript(task, reservation, project, worker, devices);
    forall j | 0 <= j < |s| && !Ranked(s[j]) ensures Guard(s[j]) in s[..j] {
      assert s[..j][1] == ReservationRow(reservation);
    }
  }

  datatype Program =
    | Placing(task: nat, project: nat, worker: nat, devices: seq<nat>)
    | Admitting(project: nat, workers: seq<nat>, inventory: seq<(nat, nat)>)
    | Releasing(task: nat, reservation: nat, project: nat, worker: nat, devices: seq<nat>)

  function ScriptOf(p: Program): Script {
    match p
    case Placing(t, project, w, ds) => PlaceScript(t, project, w, ds)
    case Admitting(project, ws, ds) => AdmitScript(project, ws, ds)
    case Releasing(t, r, project, w, ds) => ReleaseScript(t, r, project, w, ds)
  }

  /** Admission locks its workers by id, and only devices of those workers. */
  ghost predicate Proper(p: Program) {
    p.Admitting? ==> Ascending(p.workers) && forall i :: 0 <= i < |p.inventory| ==> p.inventory[i].0 in p.workers
  }

  lemma ProgramIsDisciplined(p: Program)
    requires Proper(p)
    ensures Disciplined(ScriptOf(p))
  {
    match p
    case Placing(t, project, w, ds) => PlaceIsDisciplined(t, project, w, ds);
    case Admitting(project, ws, ds) => AdmitIsDisciplined(project, ws, ds);
    case Releasing(t, r, project, w, ds) => ReleaseIsDisciplined(t, r, project, w, ds);
  }

  function ScriptsOf(programs: Transaction -> Program): Scripts {
    (t: Transaction) => ScriptOf(programs(t))
  }

  lemma ProgramsAreDisciplined(programs: Transaction -> Program)
    requires forall t {:trigger programs(t)} :: Proper(programs(t))
    ensures AllDisciplined(ScriptsOf(programs))
  {
    forall t ensures Disciplined(ScriptsOf(programs)(t)) {
      ProgramIsDisciplined(programs(t));
    }
  }

  // ------------------------------------------------------------------------------- runs

  /** How many of its locks each open transaction holds. */
  type State = map<Transaction, nat>

  /** Every transaction's script, by id. */
  type Scripts = Transaction -> Script

  ghost predicate AllDisciplined(scripts: Scripts) {
    forall t {:trigger scripts(t)} :: Disciplined(scripts(t))
  }

  predicate Holds(scripts: Scripts, s: State, t: Transaction, l: Lock) {
    t in s && s[t] <= |scripts(t)| && l in scripts(t)[..s[t]]
  }

  datatype Step = Begin(t: Transaction) | Acquire(t: Transaction) | End(t: Transaction)

  predicate Wants(scripts: Scripts, s: State, t: Transaction) {
    t in s && s[t] < |scripts(t)|
  }

  function NextLock(scripts: Scripts, s: State, t: Transaction): Lock
    requires Wants(scripts, s, t)
  {
    scripts(t)[s[t]]
  }

  predicate Free(scripts: Scripts, s: State, l: Lock, t: Transaction) {
    forall u :: u in s && u != t ==> !Holds(scripts, s, u, l)
  }

  /** Locks are granted when no other transaction holds them, and kept until the transaction ends. */
  function Apply(scripts: Scripts, s: State, step: Step): State {
    match step
    case Begin(t) => if t in s then s else s[t := 0]
    case Acquire(t) =>
      if Wants(scripts, s, t) && Free(scripts, s, NextLock(scripts, s, t), t) then s[t := s[t] + 1] else s
    case End(t) => s - {t}
  }

  function Run(scripts: Scripts, s: State, steps: seq<Step>): State
    decreases |steps|
  {
    if steps == [] then s else Run(scripts, Apply(scripts, s, steps[0]), steps[1..])
  }

  /** `n` requests for the next lock. */
  function Acquires(t: Transaction, n: nat): seq<Step> {
    if n == 0 then [] else [Acquire(t)] + Acquires(t, n - 1)
  }

  lemma {:induction false} TakesItsLocks(scripts: Scripts, t: Transaction, held: nat, n: nat)
    requires held + n <= |scripts(t)|
    ensures Run(scripts, map[t := held], Acquires(t, n)) == map[t := held + n]
    decreases n
  {
    if n > 0 {
      var s: State := map[t := held];
      assert Apply(scripts, s, Acquire(t)) == map[t := held + 1];
      TakesItsLocks(scripts, t, held + 1, n - 1);
      assert Acquires(t, n)[1..] == Acquires(t, n - 1);
    }
  }

  /** A transaction that runs alone gets all its locks. */
  lemma AloneItFinishes(scripts: Scripts, t: Transaction)
    ensures Run(scripts, map[], [Begin(t)] + Acquires(t, |scripts(t)|)) == map[t := |scripts(t)|]
  {
    var none: State := map[];
    assert Apply(scripts, none, Begin(t)) == map[t := 0];
    assert ([Begin(t)] + Acquires(t, |scripts(t)|))[1..] == Acquires(t, |scripts(t)|);
    TakesItsLocks(scripts, t, 0, |scripts(t)|);
  }

  /** No lock has two holders. */
  ghost predicate Exclusive(scripts: Scripts, s: State) {
    && (forall t {:trigger s[t]} :: t in s ==> s[t] <= |scripts(t)|)
    && (forall t, u, l {:trigger Holds(scripts, s, t, l), Holds(scripts, s, u, l)} ::
          Holds(scripts, s, t, l) && Holds(scripts, s, u, l) ==> t == u)
  }

  lemma HoldsAfterAcquire(scripts: Scripts, s: State, t: Transaction, u: Transaction, l: Lock)
    requires Wants(scripts, s, t)
    ensures Holds(scripts, s[t := s[t] + 1], u, l) <==> Holds(scripts, s, u, l) || (u == t && l == NextLock(scripts, s, t))
  {
  }

  lemma StepKeepsExclusive(scripts: Scripts, s: State, step: Step)
    requires Exclusive(scripts, s)
    ensures Exclusive(scripts, Apply(scripts, s, step))
  {
    var next := Apply(scripts, s, step);
    forall t, u, l | Holds(scripts, next, t, l) && Holds(scripts, next, u, l) ensures t == u {
      if step.Acquire? && next != s {
        HoldsAfterAcquire(scripts, s, step.t, t, l);
        HoldsAfterAcquire(scripts, s, step.t, u, l);
        assert t != u ==> Holds(scripts, s, t, l) || Holds(scripts, s, u, l);
      } else {
        assert Holds(scripts, s, t, l) && Holds(scripts, s, u, l);
      }
    }
  }

  lemma {:induction false} RunKeepsExclusive(scripts: Scripts, s: State, steps: seq<Step>)
    requires Exclusive(scripts, s)
    ensures Exclusive(scripts, Run(scripts, s, steps))
    decreases |steps|
  {
    if steps != [] {
      StepKeepsExclusive(scripts, s, steps[0]);
      RunKeepsExclusive(scripts, Apply(scripts, s, steps[0]), steps[1..]);
    }
  }

  // --------------------------------------------------------------------------- deadlock

  /** `t` is blocked on a lock that `u` holds. */
  ghost predicate WaitsFor(scripts: Scripts, s: State, t: Transaction, u: Transaction) {
    t != u && Wants(scripts, s, t) && Holds(scripts, s, u, NextLock(scripts, s, t))
  }

  lemma HoldsGuard(scripts: Scripts, s: State, t: Transaction, l: Lock)
    requires AllDisciplined(scripts) && Holds(scripts, s, t, l) && !Ranked(l)
    ensures Holds(scripts, s, t, Guard(l))
  {
  }

  /** Nobody waits for a guarded row: its holder would hold the guard too. */
  lemma WaitsAreRanked(scripts: Scripts, s: State, t: Transaction, u: Transaction)
    requires AllDisciplined(scripts) && Exclusive(scripts, s) && WaitsFor(scripts, s, t, u)
    ensures Ranked(NextLock(scripts, s, t))
  {
    var l := NextLock(scripts, s, t);
    if !Ranked(l) {
      assert Disciplined(scripts(t));
      assert Holds(scripts, s, t, Guard(l));
      HoldsGuard(scripts, s, u, l);
    }
  }

  /** Along a chain of waits the awaited rank rises. */
  lemma WaitsRise(scripts: Scripts, s: State, t: Transaction, u: Transaction, v: Transaction)
    requires AllDisciplined(scripts) && Exclusive(scripts, s) && WaitsFor(scripts, s, t, u) && WaitsFor(scripts, s, u, v)
    ensures Less(NextLock(scripts, s, t), NextLock(scripts, s, u))
  {
    WaitsAreRanked(scripts, s, t, u);
    WaitsAreRanked(scripts, s, u, v);
    var script := scripts(u);
    assert Disciplined(script);
    var i :| 0 <= i < s[u] && script[i] == NextLock(scripts, s, t);
  }

  ghost predicate Deadlock(scripts: Scripts, s: State, cycle: seq<Transaction>) {
    cycle != [] && forall i {:trigger cycle[i]} :: 0 <= i < |cycle| ==> WaitsFor(scripts, s, cycle[i], Next(cycle, i))
  }

  function Next(cycle: seq<Transaction>, i: nat): Transaction
    requires i < |cycle|
  {
    if i + 1 == |cycle| then cycle[0] else cycle[i + 1]
  }

  lemma {:induction false} CycleRises(scripts: Scripts, s: State, cycle: seq<Transaction>, i: nat)
    requires AllDisciplined(scripts) && Exclusive(scripts, s) && Deadlock(scripts, s, cycle) && 0 < i < |cycle|
    ensures Wants(scripts, s, cycle[0]) && Wants(scripts, s, cycle[i])
    ensures Less(NextLock(scripts, s, cycle[0]), NextLock(scripts, s, cycle[i]))
    decreases i
  {
    assert WaitsFor(scripts, s, cycle[i - 1], cycle[i]) && WaitsFor(scripts, s, cycle[i], Next(cycle, i));
    WaitsRise(scripts, s, cycle[i - 1], cycle[i], Next(cycle, i));
    if i > 1 {
      CycleRises(scripts, s, cycle, i - 1);
    }
  }

  lemma NoCycle(scripts: Scripts, s: State, cycle: seq<Transaction>)
    requires AllDisciplined(scripts) && Exclusive(scripts, s)
    ensures !Deadlock(scripts, s, cycle)
  {
    if Deadlock(scripts, s, cycle) {
      var last := |cycle| - 1;
      assert WaitsFor(scripts, s, cycle[last], cycle[0]);
      assert WaitsFor(scripts, s, cycle[0], Next(cycle, 0));
      if last > 0 {
        CycleRises(scripts, s, cycle, last);
        WaitsRise(scripts, s, cycle[last], cycle[0], Next(cycle, 0));
      }
    }
  }

  /** No set of placements, service admissions and releases ever waits in a cycle on these locks. */
  lemma RunsNeverDeadlock(programs: Transaction -> Program, steps: seq<Step>, cycle: seq<Transaction>)
    requires forall t {:trigger programs(t)} :: Proper(programs(t))
    ensures !Deadlock(ScriptsOf(programs), Run(ScriptsOf(programs), map[], steps), cycle)
  {
    var scripts := ScriptsOf(programs);
    ProgramsAreDisciplined(programs);
    RunKeepsExclusive(scripts, map[], steps);
    NoCycle(scripts, Run(scripts, map[], steps), cycle);
  }

  // ---------------------------------------------------------------------------- progress

  ghost predicate Blocked(scripts: Scripts, s: State, t: Transaction) {
    exists u {:trigger WaitsFor(scripts, s, t, u)} :: WaitsFor(scripts, s, t, u)
  }

  /** Among blocked transactions, one awaits a lock that no other's is above. */
  lemma {:induction false} HighestWaiter(scripts: Scripts, s: State, ts: set<Transaction>) returns (t: Transaction)
    requires ts != {} && forall x :: x in ts ==> Wants(scripts, s, x)
    ensures t in ts && forall x :: x in ts ==> !Less(NextLock(scripts, s, t), NextLock(scripts, s, x))
    decreases ts
  {
    t :| t in ts;
    if ts != {t} {
      var other := HighestWaiter(scripts, s, ts - {t});
      forall x | x in ts ensures x == t || x in ts - {t} {
      }
      if Less(NextLock(scripts, s, t), NextLock(scripts, s, other)) {
        t := other;
      }
    }
  }

  lemma NotAllBlocked(scripts: Scripts, s: State)
    requires AllDisciplined(scripts) && Exclusive(scripts, s) && s != map[]
    ensures exists t :: t in s && !Blocked(scripts, s, t)
  {
    if forall t :: t in s ==> Blocked(scripts, s, t) {
      forall t | t in s.Keys ensures Wants(scripts, s, t) {
        assert Blocked(scripts, s, t);
      }
      var t := HighestWaiter(scripts, s, s.Keys);
      assert Blocked(scripts, s, t);
      var u :| WaitsFor(scripts, s, t, u);
      assert Blocked(scripts, s, u);
      var v :| WaitsFor(scripts, s, u, v);
      WaitsRise(scripts, s, t, u, v);
    }
  }

  /** While any transaction is open, some open transaction is not blocked. */
  lemma SomeTransactionMoves(programs: Transaction -> Program, steps: seq<Step>)
    requires forall t {:trigger programs(t)} :: Proper(programs(t))
    requires Run(ScriptsOf(programs), map[], steps) != map[]
    ensures var scripts := ScriptsOf(programs);
            exists t :: t in Run(scripts, map[], steps) && !Blocked(scripts, Run(scripts, map[], steps), t)
  {
    ProgramsAreDisciplined(programs);
    RunKeepsExclusive(ScriptsOf(programs), map[], steps);
    NotAllBlocked(ScriptsOf(programs), Run(ScriptsOf(programs), map[], steps));
  }
}
