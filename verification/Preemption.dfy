/** Choosing which running tasks to stop so that a queued task fits on one worker. */
module Preemption {
  import opened Common
  import opened Sorting

  datatype Device = Device(uuid: string, model: string, freeMb: int, healthy: bool, taken: bool)

  /** A worker as the policy sees it; the last three answers are for the incoming task. */
  datatype Worker = Worker(
    id: nat, online: bool, overcommitted: bool, concurrency: int, running: int, cpu: int, cpuAllocatable: int,
    memory: int, memoryAllocatable: int, devices: seq<Device>, runtimeMatches: bool, labelsMatch: bool, taintsTolerated: bool)

  /** No model and no memory minimum are `None` and 0. */
  datatype Incoming = Incoming(cpu: int, memory: int, gpus: int, model: Option<string>, gpuMemoryMb: int)

  datatype Victim = Victim(task: nat, priority: int, cpu: nat, memory: nat, uuids: set<string>)

  datatype Rejection =
    | NotOnline | Overcommitted | AtCapacity | RuntimeMismatch | InsufficientCpu | InsufficientMemory | LabelMismatch
    | TaintNotTolerated | GpuModelMismatch | InsufficientGpuMemory | InsufficientGpu

  // -------------------------------------------------------------------------- the policy

  predicate Available(d: Device) {
    d.healthy && !d.taken
  }

  predicate OfModel(d: Device, t: Incoming) {
    t.model.None? || d.model == t.model.value
  }

  predicate HasMemory(d: Device, t: Incoming) {
    t.gpuMemoryMb == 0 || d.freeMb >= t.gpuMemoryMb
  }

  function ModelFilter(t: Incoming): Device -> bool {
    (d: Device) => OfModel(d, t)
  }

  function MemoryFilter(t: Incoming): Device -> bool {
    (d: Device) => HasMemory(d, t)
  }

  /** `evaluate_snapshot`: the first reason that rejects the task. */
  function Evaluate(w: Worker, t: Incoming): Option<Rejection> {
    if !w.online then Some(NotOnline)
    else if w.overcommitted then Some(Overcommitted)
    else if w.running >= w.concurrency then Some(AtCapacity)
    else if !w.runtimeMatches then Some(RuntimeMismatch)
    else if w.cpu + t.cpu > w.cpuAllocatable then Some(InsufficientCpu)
    else if w.memory + t.memory > w.memoryAllocatable then Some(InsufficientMemory)
    else if !w.labelsMatch then Some(LabelMismatch)
    else if !w.taintsTolerated then Some(TaintNotTolerated)
    else
      var available := Keep(w.devices, Available);
      var ofModel := Keep(available, ModelFilter(t));
      var withMemory := Keep(ofModel, MemoryFilter(t));
      if |ofModel| < t.gpus && t.model.Some? then Some(GpuModelMismatch)
      else if |withMemory| < t.gpus && t.gpuMemoryMb != 0 then Some(InsufficientGpuMemory)
      else if |withMemory| < t.gpus then Some(InsufficientGpu)
      else None
  }

  predicate Usable(d: Device, t: Incoming) {
    Available(d) && OfModel(d, t) && HasMemory(d, t)
  }

  function UsableCount(devices: seq<Device>, t: Incoming): nat {
    if devices == [] then 0 else (if Usable(devices[0], t) then 1 else 0) + UsableCount(devices[1..], t)
  }

  lemma {:induction false} FiltersCount(devices: seq<Device>, t: Incoming)
    ensures |Keep(Keep(Keep(devices, Available), ModelFilter(t)), MemoryFilter(t))| == UsableCount(devices, t)
    ensures |Keep(Keep(devices, Available), ModelFilter(t))| >= UsableCount(devices, t)
  {
    if devices != [] {
      FiltersCount(devices[1..], t);
      var d, rest := devices[0], Keep(devices[1..], Available);
      var ofModel := Keep(rest, ModelFilter(t));
      if Available(d) {
        assert Keep(devices, Available) == [d] + rest;
        KeepFirst(d, rest, ModelFilter(t));
        if OfModel(d, t) {
          KeepFirst(d, ofModel, MemoryFilter(t));
        } else {
          assert [] + ofModel == ofModel;
        }
      } else {
        assert Keep(devices, Available) == rest;
      }
    }
  }

  lemma KeepFirst(d: Device, rest: seq<Device>, p: Device -> bool)
    ensures Keep([d] + rest, p) == (if p(d) then [d] else []) + Keep(rest, p)
  {
  }

  /** The worker takes the task, whatever order the tests are made in. */
  predicate Accepts(w: Worker, t: Incoming) {
    && w.online && !w.overcommitted && w.running < w.concurrency && w.runtimeMatches
    && w.cpu + t.cpu <= w.cpuAllocatable && w.memory + t.memory <= w.memoryAllocatable
    && w.labelsMatch && w.taintsTolerated && UsableCount(w.devices, t) >= t.gpus
  }

  lemma EvaluateMeansAccepts(w: Worker, t: Incoming)
    ensures Evaluate(w, t).None? <==> Accepts(w, t)
  {
    FiltersCount(w.devices, t);
  }

  // ---------------------------------------------------------------------- stopping victims

  function Cpu(vs: seq<Victim>): nat {
    if vs == [] then 0 else Cpu(vs[..|vs| - 1]) + vs[|vs| - 1].cpu
  }

  function Memory(vs: seq<Victim>): nat {
    if vs == [] then 0 else Memory(vs[..|vs| - 1]) + vs[|vs| - 1].memory
  }

  function Priority(vs: seq<Victim>): int {
    if vs == [] then 0 else Priority(vs[..|vs| - 1]) + vs[|vs| - 1].priority
  }

  function Freed(vs: seq<Victim>): set<string> {
    if vs == [] then {} else Freed(vs[..|vs| - 1]) + vs[|vs| - 1].uuids
  }

  function FreeDevices(devices: seq<Device>, uuids: set<string>): seq<Device> {
    if devices == [] then []
    else [if devices[0].uuid in uuids then devices[0].(taken := false) else devices[0]] + FreeDevices(devices[1..], uuids)
  }

  /** The worker once `vs` have stopped. */
  function Simulated(w: Worker, vs: seq<Victim>): Worker {
    w.(running := Max(0, w.running - |vs|), cpu := Max(0, w.cpu - Cpu(vs)), memory := Max(0, w.memory - Memory(vs)),
       devices := FreeDevices(w.devices, Freed(vs)))
  }

  predicate MakesRoom(w: Worker, t: Incoming, vs: seq<Victim>) {
    Accepts(Simulated(w, vs), t)
  }

  /** A device the task could use once the given devices are freed. */
  predicate WouldServe(d: Device, t: Incoming, freed: set<string>) {
    && d.healthy && (d.taken ==> d.uuid in freed)
    && (t.model.Some? ==> d.model == t.model.value) && (t.gpuMemoryMb != 0 ==> t.gpuMemoryMb <= d.freeMb)
  }

  /** Stopping `vs` makes room exactly when the worker is open to the task and, with what they hold given back,
      has a slot, CPU, memory and enough devices for it. */
  lemma RoomMeans(w: Worker, t: Incoming, vs: seq<Victim>)
    ensures MakesRoom(w, t, vs) <==>
            && w.online && !w.overcommitted && w.runtimeMatches && w.labelsMatch && w.taintsTolerated
            && w.concurrency >= 1 && w.running - |vs| + 1 <= w.concurrency
            && t.cpu <= w.cpuAllocatable && w.cpu - Cpu(vs) + t.cpu <= w.cpuAllocatable
            && t.memory <= w.memoryAllocatable && w.memory - Memory(vs) + t.memory <= w.memoryAllocatable
            && |Keep(w.devices, (d: Device) => WouldServe(d, t, Freed(vs)))| >= t.gpus
  {
    FreedDevicesServe(w.devices, t, Freed(vs));
  }

  lemma {:induction false} FreedDevicesServe(devices: seq<Device>, t: Incoming, freed: set<string>)
    ensures UsableCount(FreeDevices(devices, freed), t) == |Keep(devices, (d: Device) => WouldServe(d, t, freed))|
  {
    if devices != [] {
      FreedDevicesServe(devices[1..], t, freed);
    }
  }

  /** One selection frees at least what another does. */
  ghost predicate FreesNoLess(more: seq<Victim>, less: seq<Victim>) {
    |less| <= |more| && Cpu(less) <= Cpu(more) && Memory(less) <= Memory(more) && Freed(less) <= Freed(more)
  }

  lemma {:induction false} MoreDevicesAreUsable(devices: seq<Device>, less: set<string>, more: set<string>, t: Incoming)
    requires less <= more
    ensures UsableCount(FreeDevices(devices, less), t) <= UsableCount(FreeDevices(devices, more), t)
  {
    if devices != [] {
      MoreDevicesAreUsable(devices[1..], less, more, t);
    }
  }

  /** Stopping more never takes room away. */
  lemma StoppingMoreHelps(w: Worker, t: Incoming, less: seq<Victim>, more: seq<Victim>)
    requires FreesNoLess(more, less) && MakesRoom(w, t, less)
    ensures MakesRoom(w, t, more)
  {
    MoreDevicesAreUsable(w.devices, Freed(less), Freed(more), t);
  }

  lemma {:induction false} Without(vs: seq<Victim>, i: nat)
    requires i < |vs|
    ensures var rest := vs[..i] + vs[i + 1..];
            && Cpu(vs) == Cpu(rest) + vs[i].cpu && Memory(vs) == Memory(rest) + vs[i].memory
            && Freed(vs) == Freed(rest) + vs[i].uuids
    decreases |vs|
  {
    var rest, n := vs[..i] + vs[i + 1..], |vs| - 1;
    if i < n {
      Without(vs[..n], i);
      assert rest[..|rest| - 1] == vs[..n][..i] + vs[..n][i + 1..];
    } else {
      assert rest == vs[..n];
    }
  }

  /** Any selection among the victims frees no more than stopping them all. */
  lemma {:induction false} SelectionFreesNoMore(victims: seq<Victim>, chosen: seq<Victim>)
    requires multiset(chosen) <= multiset(victims)
    ensures FreesNoLess(victims, chosen)
    decreases |chosen|
  {
    if chosen != [] {
      var front, last := chosen[..|chosen| - 1], chosen[|chosen| - 1];
      assert chosen == front + [last];
      assert multiset(chosen) == multiset(front) + multiset{last};
      assert last in multiset(victims);
      var i :| 0 <= i < |victims| && victims[i] == last;
      TakenOut(victims, i);
      SmallerSelection(multiset(front), multiset(victims[..i] + victims[i + 1..]), last);
      SelectionFreesNoMore(victims[..i] + victims[i + 1..], front);
      Without(victims, i);
    }
  }

  lemma SmallerSelection(a: multiset<Victim>, b: multiset<Victim>, v: Victim)
    requires a + multiset{v} <= b + multiset{v}
    ensures a <= b
  {
    forall x ensures a[x] <= b[x] {
      assert (a + multiset{v})[x] <= (b + multiset{v})[x];
    }
  }

  // ---------------------------------------------------------------------------- selection

  /** The shortest non-empty prefix of a worker's victims that makes room. */
  ghost predicate IsShortestPrefix(w: Worker, t: Incoming, victims: seq<Victim>, k: nat) {
    1 <= k <= |victims| && MakesRoom(w, t, victims[..k]) && forall j :: 1 <= j < k ==> !MakesRoom(w, t, victims[..j])
  }

  /** Adds victims in order until the task fits. */
  method SelectOn(w: Worker, t: Incoming, victims: seq<Victim>) returns (selected: Option<seq<Victim>>)
    ensures selected.Some? ==> IsShortestPrefix(w, t, victims, |selected.value|) && selected.value == victims[..|selected.value|]
    ensures selected.None? ==> forall j :: 1 <= j <= |victims| ==> !MakesRoom(w, t, victims[..j])
  {
    for i := 0 to |victims|
      invariant forall j :: 1 <= j <= i ==> !MakesRoom(w, t, victims[..j])
    {
      EvaluateMeansAccepts(Simulated(w, victims[..i + 1]), t);
      if Evaluate(Simulated(w, victims[..i + 1]), t).None? {
        return Some(victims[..i + 1]);
      }
    }
    selected := None;
  }

  /** A non-empty set of a worker's victims that makes room. */
  ghost predicate Works(w: Worker, t: Incoming, victims: seq<Victim>, chosen: seq<Victim>) {
    chosen != [] && multiset(chosen) <= multiset(victims) && MakesRoom(w, t, chosen)
  }

  /** The prefix search misses nothing: some prefix makes room exactly when some set of victims does. */
  lemma PrefixFoundExactly(w: Worker, t: Incoming, victims: seq<Victim>)
    ensures (exists k :: 1 <= k <= |victims| && MakesRoom(w, t, victims[..k])) <==> (exists chosen :: Works(w, t, victims, chosen))
  {
    if k :| 1 <= k <= |victims| && MakesRoom(w, t, victims[..k]) {
      assert victims == victims[..k] + victims[k..];
      assert Works(w, t, victims, victims[..k]);
    }
    if chosen :| Works(w, t, victims, chosen) {
      SelectionFreesNoMore(victims, chosen);
      StoppingMoreHelps(w, t, chosen, victims);
      assert victims[..|victims|] == victims;
    }
  }

  // ------------------------------------------------------------------------ the best worker

  datatype Plan = Plan(worker: Worker, victims: seq<Victim>)

  /** Total priority, number of victims, worker id. */
  predicate Better(a: Plan, b: Plan) {
    || Priority(a.victims) < Priority(b.victims)
    || (Priority(a.victims) == Priority(b.victims) &&
        (|a.victims| < |b.victims| || (|a.victims| == |b.victims| && a.worker.id < b.worker.id)))
  }

  ghost predicate IsPlan(rows: seq<Plan>, t: Incoming, p: Plan) {
    exists i {:trigger rows[i]} :: 0 <= i < |rows| && p.worker == rows[i].worker && p.victims <= rows[i].victims
                                   && IsShortestPrefix(p.worker, t, rows[i].victims, |p.victims|)
  }

  /** `request_preemption`'s choice: on each worker the shortest prefix, and then the best score. */
  method ChooseVictims(rows: seq<Plan>, t: Incoming) returns (best: Option<Plan>)
    ensures best.None? <==> NothingWorks(rows, t)
    ensures best.Some? ==> IsBest(rows, t, best.value)
  {
    best := None;
    for n := 0 to |rows|
      invariant best.Some? ==> IsBest(rows[..n], t, best.value)
      invariant best.None? ==> NoPrefixWorks(rows[..n], t)
    {
      var row := rows[n];
      var selected := SelectOn(row.worker, t, row.victims);
      if selected.Some? {
        var p := Plan(row.worker, selected.value);
        OnePlanPerRow(row, t, p);
        if best.None? {
          FirstPlan(rows, n, t, p);
          best := Some(p);
        } else if Better(p, best.value) {
          BestMoves(rows, n, t, best.value, p);
          best := Some(p);
        } else {
          BestStays(rows, n, t, best.value);
        }
      } else {
        NoPlanOnRow(row, t);
        if best.None? {
          assert rows[..n + 1] == rows[..n] + [row];
        } else {
          BestStays(rows, n, t, best.value);
        }
      }
    }
    assert rows[..|rows|] == rows;
    if best.Some? {
      PlanWorks(rows, t, best.value);
    } else {
      NothingWorksWithoutPrefix(rows, t);
    }
  }

  ghost predicate IsBest(rows: seq<Plan>, t: Incoming, p: Plan) {
    IsPlan(rows, t, p) && forall q :: IsPlan(rows, t, q) ==> !Better(q, p)
  }

  ghost predicate NoPrefixWorks(rows: seq<Plan>, t: Incoming) {
    forall i {:trigger rows[i]} :: 0 <= i < |rows| ==> NoPrefix(rows[i], t)
  }

  ghost predicate NoPrefix(row: Plan, t: Incoming) {
    forall k :: 1 <= k <= |row.victims| ==> !MakesRoom(row.worker, t, row.victims[..k])
  }

  /** No set of one worker's victims makes room for the task. */
  ghost predicate NothingWorks(rows: seq<Plan>, t: Incoming) {
    forall i {:trigger rows[i]} :: 0 <= i < |rows| ==> NoSetWorks(rows[i], t)
  }

  ghost predicate NoSetWorks(row: Plan, t: Incoming) {
    forall chosen :: !Works(row.worker, t, row.victims, chosen)
  }

  lemma BestMoves(rows: seq<Plan>, n: nat, t: Incoming, former: Plan, p: Plan)
    requires n < |rows| && IsBest(rows[..n], t, former) && Better(p, former)
    requires IsPlan([rows[n]], t, p) && forall q :: IsPlan([rows[n]], t, q) ==> q == p
    ensures IsBest(rows[..n + 1], t, p)
  {
    NextRow(rows, n, t);
    forall q | IsPlan(rows[..n + 1], t, q) ensures !Better(q, p) {
      assert IsPlan(rows[..n], t, q) ==> !Better(q, former);
    }
  }

  lemma FirstPlan(rows: seq<Plan>, n: nat, t: Incoming, p: Plan)
    requires n < |rows| && NoPrefixWorks(rows[..n], t)
    requires IsPlan([rows[n]], t, p) && forall q :: IsPlan([rows[n]], t, q) ==> q == p
    ensures IsBest(rows[..n + 1], t, p)
  {
    NextRow(rows, n, t);
    NoPlans(rows[..n], t);
    assert IsPlan(rows[..n + 1], t, p);
    forall q | IsPlan(rows[..n + 1], t, q) ensures !Better(q, p) {
      assert IsPlan([rows[n]], t, q);
    }
  }

  lemma BestStays(rows: seq<Plan>, n: nat, t: Incoming, best: Plan)
    requires n < |rows| && IsBest(rows[..n], t, best)
    requires forall q :: IsPlan([rows[n]], t, q) ==> !Better(q, best)
    ensures IsBest(rows[..n + 1], t, best)
  {
    NextRow(rows, n, t);
  }

  lemma NoPlanOnRow(row: Plan, t: Incoming)
    requires NoPrefix(row, t)
    ensures forall q :: !IsPlan([row], t, q)
  {
  }

  lemma NoPlans(rows: seq<Plan>, t: Incoming)
    requires NoPrefixWorks(rows, t)
    ensures forall p :: !IsPlan(rows, t, p)
  {
  }

  lemma PlanWorks(rows: seq<Plan>, t: Incoming, p: Plan)
    requires IsPlan(rows, t, p)
    ensures !NothingWorks(rows, t)
  {
    var i :| 0 <= i < |rows| && p.worker == rows[i].worker && p.victims <= rows[i].victims
             && IsShortestPrefix(p.worker, t, rows[i].victims, |p.victims|);
    PrefixFoundExactly(rows[i].worker, t, rows[i].victims);
    assert !NoSetWorks(rows[i], t);
  }

  lemma NothingWorksWithoutPrefix(rows: seq<Plan>, t: Incoming)
    requires NoPrefixWorks(rows, t)
    ensures NothingWorks(rows, t)
  {
    forall i | 0 <= i < |rows| ensures NoSetWorks(rows[i], t) {
      assert NoPrefix(rows[i], t);
      PrefixFoundExactly(rows[i].worker, t, rows[i].victims);
    }
  }

  /** A plan of the first rows and one more is a plan of the former or of the latter. */
  lemma NextRow(rows: seq<Plan>, n: nat, t: Incoming)
    requires n < |rows|
    ensures forall p :: IsPlan(rows[..n + 1], t, p) <==> IsPlan(rows[..n], t, p) || IsPlan([rows[n]], t, p)
  {
    forall p ensures IsPlan(rows[..n + 1], t, p) <==> IsPlan(rows[..n], t, p) || IsPlan([rows[n]], t, p) {
      assert rows[..n + 1] == rows[..n] + [rows[n]];
      if IsPlan(rows[..n], t, p) {
        var i :| 0 <= i < n && p.worker == rows[..n][i].worker && p.victims <= rows[..n][i].victims
                 && IsShortestPrefix(p.worker, t, rows[..n][i].victims, |p.victims|);
        assert rows[..n + 1][i] == rows[..n][i];
      }
      if IsPlan([rows[n]], t, p) {
        assert rows[..n + 1][n] == [rows[n]][0];
      }
      if IsPlan(rows[..n + 1], t, p) {
        var i :| 0 <= i < n + 1 && p.worker == rows[..n + 1][i].worker && p.victims <= rows[..n + 1][i].victims
                 && IsShortestPrefix(p.worker, t, rows[..n + 1][i].victims, |p.victims|);
        assert i < n ==> rows[..n][i] == rows[..n + 1][i];
        assert i == n ==> [rows[n]][0] == rows[..n + 1][i];
      }
    }
  }

  lemma OnePlanPerRow(row: Plan, t: Incoming, p: Plan)
    requires p.worker == row.worker && p.victims <= row.victims && IsShortestPrefix(row.worker, t, row.victims, |p.victims|)
    ensures IsPlan([row], t, p) && forall q :: IsPlan([row], t, q) ==> q == p
  {
    assert [row][0] == row;
    forall q | IsPlan([row], t, q) ensures q == p {
      var k := |q.victims|;
      assert IsShortestPrefix(row.worker, t, row.victims, k);
      assert k == |p.victims|;
      assert q.victims == row.victims[..k] == p.victims;
    }
  }

  // -------------------------------------------------------------- when it is the smallest set

  datatype Resource = Slots | Processor | Ram | Accelerators

  /** Devices that a set of uuids would make usable for the task. */
  function Gain(devices: seq<Device>, t: Incoming, uuids: set<string>): nat {
    if devices == [] then 0
    else
      (if devices[0].taken && devices[0].uuid in uuids && Usable(devices[0].(taken := false), t) then 1 else 0)
      + Gain(devices[1..], t, uuids)
  }

  /** How much of a resource one victim frees. */
  function Frees(w: Worker, t: Incoming, r: Resource, v: Victim): nat {
    match r
    case Slots => 1
    case Processor => v.cpu
    case Ram => v.memory
    case Accelerators => Gain(w.devices, t, v.uuids)
  }

  function FreedBy(w: Worker, t: Incoming, r: Resource, vs: seq<Victim>): nat {
    if vs == [] then 0 else FreedBy(w, t, r, vs[..|vs| - 1]) + Frees(w, t, r, vs[|vs| - 1])
  }

  /** How much of a resource the task still lacks. */
  function Shortage(w: Worker, t: Incoming, r: Resource): int {
    match r
    case Slots => w.running + 1 - w.concurrency
    case Processor => w.cpu + t.cpu - w.cpuAllocatable
    case Ram => w.memory + t.memory - w.memoryAllocatable
    case Accelerators => t.gpus - UsableCount(w.devices, t)
  }

  function MostFirst(w: Worker, t: Incoming, r: Resource): Victim -> Key {
    (v: Victim) => [-(Frees(w, t, r, v) as real)]
  }

  /** The `m` victims that free most of a resource. */
  function Largest(w: Worker, t: Incoming, r: Resource, victims: seq<Victim>, m: nat): (most: seq<Victim>)
    requires m <= |victims|
    ensures |most| == m && forall v :: v in most ==> v in victims
  {
    SortSorts(victims, MostFirst(w, t, r));
    SortBy(victims, MostFirst(w, t, r))[..m]
  }

  lemma {:induction false} FreedWithout(w: Worker, t: Incoming, r: Resource, vs: seq<Victim>, i: nat)
    requires i < |vs|
    ensures FreedBy(w, t, r, vs) == FreedBy(w, t, r, vs[..i] + vs[i + 1..]) + Frees(w, t, r, vs[i])
    decreases |vs|
  {
    var rest, n := vs[..i] + vs[i + 1..], |vs| - 1;
    if i < n {
      FreedWithout(w, t, r, vs[..n], i);
      assert rest[..|rest| - 1] == vs[..n][..i] + vs[..n][i + 1..];
    } else {
      assert rest == vs[..n];
    }
  }

  lemma FreedWithFirst(w: Worker, t: Incoming, r: Resource, vs: seq<Victim>)
    requires vs != []
    ensures FreedBy(w, t, r, vs) == Frees(w, t, r, vs[0]) + FreedBy(w, t, r, vs[1..])
  {
    FreedWithout(w, t, r, vs, 0);
    assert vs[..0] + vs[1..] == vs[1..];
  }

  /** No selection frees more than the same number of victims taken from the front of the sorted list. */
  lemma {:induction false} FrontFreesMost(w: Worker, t: Incoming, r: Resource, sorted: seq<Victim>, chosen: seq<Victim>)
    requires SortedBy(sorted, MostFirst(w, t, r)) && multiset(chosen) <= multiset(sorted) && |chosen| <= |sorted|
    ensures FreedBy(w, t, r, chosen) <= FreedBy(w, t, r, sorted[..|chosen|])
    decreases |chosen|
  {
    if chosen != [] {
      var i := if sorted[0] in chosen then IndexOf(chosen, sorted[0]) else 0;
      var rest := chosen[..i] + chosen[i + 1..];
      FreedWithout(w, t, r, chosen, i);
      DropFirst(sorted, chosen, i);
      FrontFreesMost(w, t, r, sorted[1..], rest);
      FreedWithFirst(w, t, r, sorted[..|chosen|]);
      assert sorted[..|chosen|][1..] == sorted[1..][..|rest|];
      assert chosen[i] in multiset(sorted) && chosen[i] in sorted;
      assert Leq(MostFirst(w, t, r)(sorted[0]), MostFirst(w, t, r)(chosen[i]));
    }
  }

  function IndexOf(vs: seq<Victim>, v: Victim): (i: nat)
    requires v in vs
    ensures i < |vs| && vs[i] == v
  {
    if vs[0] == v then 0 else 1 + IndexOf(vs[1..], v)
  }

  /** Dropping the first of the sorted list, and it or any one victim from a selection, keeps a selection. */
  lemma DropFirst(sorted: seq<Victim>, chosen: seq<Victim>, i: nat)
    requires sorted != [] && i < |chosen| && multiset(chosen) <= multiset(sorted)
    requires chosen[i] == sorted[0] || sorted[0] !in chosen
    ensures multiset(chosen[..i] + chosen[i + 1..]) <= multiset(sorted[1..])
  {
    TakenOut(chosen, i);
    TakenOut(sorted, 0);
    assert sorted[..0] + sorted[1..] == sorted[1..];
    var rest := multiset(chosen[..i] + chosen[i + 1..]);
    forall x ensures rest[x] <= multiset(sorted[1..])[x] {
      assert multiset(chosen)[x] <= multiset(sorted)[x];
    }
  }

  lemma LargestFreesMost(w: Worker, t: Incoming, r: Resource, victims: seq<Victim>, chosen: seq<Victim>)
    requires multiset(chosen) <= multiset(victims) && |chosen| <= |victims|
    ensures FreedBy(w, t, r, chosen) <= FreedBy(w, t, r, Largest(w, t, r, victims, |chosen|))
  {
    var sorted := SortBy(victims, MostFirst(w, t, r));
    SortSorts(victims, MostFirst(w, t, r));
    SortIsPermutation(victims, MostFirst(w, t, r));
    FrontFreesMost(w, t, r, sorted, chosen);
  }

  // ------------------------------------------------------------- room, resource by resource

  lemma {:induction false} GainedDevices(devices: seq<Device>, t: Incoming, uuids: set<string>)
    ensures UsableCount(FreeDevices(devices, uuids), t) == UsableCount(devices, t) + Gain(devices, t, uuids)
  {
    if devices != [] {
      GainedDevices(devices[1..], t, uuids);
    }
  }

  lemma {:induction false} GainsAdd(devices: seq<Device>, t: Incoming, a: set<string>, b: set<string>)
    ensures Gain(devices, t, a + b) <= Gain(devices, t, a) + Gain(devices, t, b)
    ensures a !! b ==> Gain(devices, t, a + b) == Gain(devices, t, a) + Gain(devices, t, b)
  {
    if devices != [] {
      GainsAdd(devices[1..], t, a, b);
    }
  }

  lemma {:induction false} NoGain(devices: seq<Device>, t: Incoming)
    ensures Gain(devices, t, {}) == 0
  {
    if devices != [] {
      NoGain(devices[1..], t);
    }
  }

  /** Victims never share a device. */
  ghost predicate Disjoint(vs: seq<Victim>) {
    forall i, j :: 0 <= i < j < |vs| ==> vs[i].uuids !! vs[j].uuids
  }

  lemma {:induction false} FreedFromEarlier(vs: seq<Victim>, uuids: set<string>)
    requires forall v :: v in vs ==> v.uuids !! uuids
    ensures Freed(vs) !! uuids
  {
    if vs != [] {
      assert vs[|vs| - 1] in vs && forall v :: v in vs[..|vs| - 1] ==> v in vs;
      FreedFromEarlier(vs[..|vs| - 1], uuids);
    }
  }

  /** Freed devices gain at most what the victims free one by one, and exactly that without sharing. */
  lemma {:induction false} GainIsFreed(w: Worker, t: Incoming, vs: seq<Victim>)
    ensures Gain(w.devices, t, Freed(vs)) <= FreedBy(w, t, Accelerators, vs)
    ensures Disjoint(vs) ==> Gain(w.devices, t, Freed(vs)) == FreedBy(w, t, Accelerators, vs)
  {
    if vs == [] {
      NoGain(w.devices, t);
    } else {
      var front, last := vs[..|vs| - 1], vs[|vs| - 1];
      GainIsFreed(w, t, front);
      GainsAdd(w.devices, t, Freed(front), last.uuids);
      if Disjoint(vs) {
        FreedFromEarlier(front, last.uuids);
      }
    }
  }

  lemma {:induction false} Totals(w: Worker, t: Incoming, vs: seq<Victim>)
    ensures FreedBy(w, t, Slots, vs) == |vs| && FreedBy(w, t, Processor, vs) == Cpu(vs) && FreedBy(w, t, Ram, vs) == Memory(vs)
  {
    if vs != [] {
      Totals(w, t, vs[..|vs| - 1]);
    }
  }

  predicate Covers(w: Worker, t: Incoming, r: Resource, vs: seq<Victim>) {
    FreedBy(w, t, r, vs) >= Shortage(w, t, r)
  }

  /** Room means every shortage is covered. */
  lemma RoomCovers(w: Worker, t: Incoming, vs: seq<Victim>, r: Resource)
    requires MakesRoom(w, t, vs)
    ensures Covers(w, t, r, vs)
  {
    Totals(w, t, vs);
    GainIsFreed(w, t, vs);
    GainedDevices(w.devices, t, Freed(vs));
  }

  /** And with unshared devices it means no more than that, on a worker that some set of victims makes fit. */
  lemma CoversMakeRoom(w: Worker, t: Incoming, some: seq<Victim>, vs: seq<Victim>)
    requires MakesRoom(w, t, some) && Disjoint(vs)
    requires Covers(w, t, Slots, vs) && Covers(w, t, Processor, vs) && Covers(w, t, Ram, vs) && Covers(w, t, Accelerators, vs)
    ensures MakesRoom(w, t, vs)
  {
    Totals(w, t, vs);
    GainIsFreed(w, t, vs);
    GainedDevices(w.devices, t, Freed(vs));
  }

  // ----------------------------------------------------------------------------- smallest

  ghost predicate IsSmallest(w: Worker, t: Incoming, victims: seq<Victim>, k: nat) {
    forall chosen :: Works(w, t, victims, chosen) ==> k <= |chosen|
  }

  /** Nothing but `r` is short before anything stops. */
  ghost predicate OnlyShortOf(w: Worker, t: Incoming, r: Resource) {
    forall other: Resource :: other != r ==> Shortage(w, t, other) <= 0
  }

  /** Different victims hold different devices, as active bindings do. */
  ghost predicate Unshared(victims: seq<Victim>) {
    NoRepeats(victims) && forall a, b :: a in victims && b in victims && a != b ==> a.uuids !! b.uuids
  }

  lemma LargestIsDisjoint(w: Worker, t: Incoming, r: Resource, victims: seq<Victim>, m: nat)
    requires Unshared(victims) && m <= |victims|
    ensures Disjoint(Largest(w, t, r, victims, m)) && multiset(Largest(w, t, r, victims, m)) <= multiset(victims)
  {
    var key := MostFirst(w, t, r);
    var sorted := SortBy(victims, key);
    SortSorts(victims, key);
    SortKeepsIdentity(victims, key);
    SortIsPermutation(victims, key);
    assert sorted == sorted[..m] + sorted[m..];
  }

  lemma LargestWorks(w: Worker, t: Incoming, victims: seq<Victim>, some: seq<Victim>, m: nat, r: Resource)
    requires MakesRoom(w, t, some) && Unshared(victims) && OnlyShortOf(w, t, r) && 1 <= m <= |victims|
    requires Covers(w, t, r, Largest(w, t, r, victims, m))
    ensures Works(w, t, victims, Largest(w, t, r, victims, m))
  {
    var most := Largest(w, t, r, victims, m);
    LargestIsDisjoint(w, t, r, victims, m);
    assert forall other: Resource :: other == r || Shortage(w, t, other) <= 0;
    CoversMakeRoom(w, t, some, most);
  }

  /** Every set of this worker's victims that makes room has `m` or more: stopping them all makes no room,
      or the m - 1 that free most of the short resource leave too little of it. */
  predicate NeedsAtLeast(w: Worker, t: Incoming, victims: seq<Victim>, m: nat, r: Resource)
    requires m >= 1
  {
    || victims == []
    || !MakesRoom(w, t, victims)
    || (m - 1 < |victims| && !Covers(w, t, r, Largest(w, t, r, victims, m - 1)))
  }

  lemma LargestOutdoes(w: Worker, t: Incoming, victims: seq<Victim>, chosen: seq<Victim>, m: nat, r: Resource)
    requires Works(w, t, victims, chosen) && |chosen| <= m <= |victims|
    ensures Covers(w, t, r, Largest(w, t, r, victims, m))
  {
    var longer := Extend(victims, chosen, m);
    StoppingMoreHelps(w, t, chosen, longer);
    RoomCovers(w, t, longer, r);
    LargestFreesMost(w, t, r, victims, longer);
  }

  lemma WorkingSetsFit(w: Worker, t: Incoming, victims: seq<Victim>, chosen: seq<Victim>)
    requires Works(w, t, victims, chosen)
    ensures victims != [] && MakesRoom(w, t, victims) && |chosen| <= |victims|
  {
    SelectionFreesNoMore(victims, chosen);
    StoppingMoreHelps(w, t, chosen, victims);
  }

  /** Whatever else is short, a worker that needs at least `m` for some one resource has no smaller set that works. */
  lemma SmallestWhenNeeded(w: Worker, t: Incoming, victims: seq<Victim>, m: nat, r: Resource)
    requires m >= 1 && NeedsAtLeast(w, t, victims, m, r)
    ensures IsSmallest(w, t, victims, m)
  {
    forall chosen | Works(w, t, victims, chosen) ensures m <= |chosen| {
      WorkingSetsFit(w, t, victims, chosen);
      if |chosen| < m {
        LargestOutdoes(w, t, victims, chosen, m - 1, r);
      }
    }
  }

  /** On one worker with one short resource, no set of fewer than `m` victims works exactly when m is one
      or the worker needs at least `m`. */
  lemma SmallestOnWorkerExactly(w: Worker, t: Incoming, victims: seq<Victim>, m: nat, r: Resource)
    requires m >= 1 && Unshared(victims) && OnlyShortOf(w, t, r)
    ensures IsSmallest(w, t, victims, m) <==> m == 1 || NeedsAtLeast(w, t, victims, m, r)
  {
    if NeedsAtLeast(w, t, victims, m, r) {
      SmallestWhenNeeded(w, t, victims, m, r);
    } else if m > 1 {
      if m - 1 < |victims| {
        LargestWorks(w, t, victims, victims, m - 1, r);
      } else {
        assert Works(w, t, victims, victims);
      }
    }
  }

  /** Nothing smaller than `m` works on any worker. */
  ghost predicate IsSmallestAnywhere(rows: seq<Plan>, t: Incoming, m: nat) {
    forall i {:trigger rows[i]} :: 0 <= i < |rows| ==> IsSmallest(rows[i].worker, t, rows[i].victims, m)
  }

  /** On each worker one resource is short, and victims do not share devices. */
  ghost predicate OneShortEach(rows: seq<Plan>, t: Incoming, short: seq<Resource>) {
    |short| == |rows| && forall i {:trigger rows[i]} :: 0 <= i < |rows| ==>
      Unshared(rows[i].victims) && OnlyShortOf(rows[i].worker, t, short[i])
  }

  /** Whatever is short where, the chosen victims are a smallest set over all workers if every worker needs
      at least as many for some resource. */
  lemma SmallestWhenAllNeedThatMany(rows: seq<Plan>, t: Incoming, best: Plan, short: seq<Resource>)
    requires IsBest(rows, t, best) && best.victims != [] && |short| == |rows|
    requires forall i {:trigger rows[i]} :: 0 <= i < |rows| ==>
               NeedsAtLeast(rows[i].worker, t, rows[i].victims, |best.victims|, short[i])
    ensures IsSmallestAnywhere(rows, t, |best.victims|)
  {
    forall i | 0 <= i < |rows| ensures IsSmallest(rows[i].worker, t, rows[i].victims, |best.victims|) {
      SmallestWhenNeeded(rows[i].worker, t, rows[i].victims, |best.victims|, short[i]);
    }
  }

  /** The chosen victims are a smallest set over all workers exactly when there is one victim, or every
      worker, the chosen one included, needs at least as many. */
  lemma SmallestExactly(rows: seq<Plan>, t: Incoming, best: Plan, short: seq<Resource>)
    requires IsBest(rows, t, best) && OneShortEach(rows, t, short)
    ensures best.victims != []
    ensures IsSmallestAnywhere(rows, t, |best.victims|) <==>
            |best.victims| == 1 || forall i {:trigger rows[i]} :: 0 <= i < |rows| ==>
              NeedsAtLeast(rows[i].worker, t, rows[i].victims, |best.victims|, short[i])
  {
    var m := |best.victims|;
    forall i | 0 <= i < |rows|
      ensures IsSmallest(rows[i].worker, t, rows[i].victims, m) <==>
              m == 1 || NeedsAtLeast(rows[i].worker, t, rows[i].victims, m, short[i]) {
      SmallestOnWorkerExactly(rows[i].worker, t, rows[i].victims, m, short[i]);
    }
  }

  /** A selection can be extended to any larger size the victims allow. */
  lemma {:induction false} Extend(victims: seq<Victim>, chosen: seq<Victim>, n: nat) returns (longer: seq<Victim>)
    requires multiset(chosen) <= multiset(victims) && |chosen| <= n <= |victims|
    ensures |longer| == n && multiset(longer) <= multiset(victims) && FreesNoLess(longer, chosen)
    decreases n - |chosen|
  {
    if |chosen| == n {
      return chosen;
    }
    var v := LeftOver(victims, chosen);
    longer := Extend(victims, chosen + [v], n);
    assert (chosen + [v])[..|chosen|] == chosen;
  }

  lemma LeftOver(victims: seq<Victim>, chosen: seq<Victim>) returns (v: Victim)
    requires multiset(chosen) <= multiset(victims) && |chosen| < |victims|
    ensures multiset(chosen + [v]) <= multiset(victims)
  {
    var rest := multiset(victims) - multiset(chosen);
    assert |multiset(victims)| == |victims| && |multiset(chosen)| == |chosen|;
    assert |rest| == |victims| - |chosen|;
    v :| v in rest;
  }

  lemma One(v: Victim)
    ensures Cpu([v]) == v.cpu && Memory([v]) == v.memory && Freed([v]) == v.uuids
  {
  }

  /** It can be larger: a victim of lower priority that frees too little CPU comes first, and is stopped
      along with the second victim, which alone would have been enough. */
  lemma MoreThanNeeded(w: Worker, t: Incoming, small: Victim, large: Victim)
    requires Accepts(w.(cpu := 0), t) && t.gpus == 0
    requires small.cpu >= 1 && small.memory >= 1 && large.cpu >= 1 && large.memory >= 1
    requires w.running >= 2 && w.cpu >= small.cpu + large.cpu && w.memory >= small.memory + large.memory
    requires w.cpu - small.cpu + t.cpu > w.cpuAllocatable && w.cpu - large.cpu + t.cpu <= w.cpuAllocatable
    ensures IsShortestPrefix(w, t, [small, large], 2) && Works(w, t, [small, large], [large])
  {
    var both := [small, large];
    One(small);
    One(large);
    assert both[..1] == [small] && both[..2] == both;
    assert multiset(both) == multiset([small]) + multiset([large]);
  }

  /** A worker with 4000 millicores, 3000 of them held by a 500- and a 2500-millicore task, asked for 2500. */
  lemma NeedlessVictim()
    ensures var w := Worker(1, true, false, 4, 2, 3000, 4000, 1024, 8192, [], true, true, true);
            var t := Incoming(2500, 1024, 0, None, 0);
            var small, large := Victim(1, 10, 500, 512, {}), Victim(2, 20, 2500, 512, {});
            IsShortestPrefix(w, t, [small, large], 2) && Works(w, t, [small, large], [large])
  {
    MoreThanNeeded(Worker(1, true, false, 4, 2, 3000, 4000, 1024, 8192, [], true, true, true), Incoming(2500, 1024, 0, None, 0),
                   Victim(1, 10, 500, 512, {}), Victim(2, 20, 2500, 512, {}));
  }

  /** It can also be larger because another worker is passed over: priorities are summed before victims are
      counted, so several victims of low priority beat one of higher priority. */
  lemma CheaperPlanStopsMore(a: Plan, b: Plan, t: Incoming)
    requires IsShortestPrefix(a.worker, t, a.victims, |a.victims|) && IsShortestPrefix(b.worker, t, b.victims, |b.victims|)
    requires Priority(a.victims) < Priority(b.victims) && |b.victims| < |a.victims|
    ensures IsBest([a, b], t, a) && Works(b.worker, t, b.victims, b.victims) && !IsSmallestAnywhere([a, b], t, |a.victims|)
  {
    var rows := [a, b];
    OnePlanPerRow(a, t, a);
    OnePlanPerRow(b, t, b);
    NextRow(rows, 1, t);
    assert rows[..1] == [a] && rows[..2] == rows && [rows[1]] == [b];
    forall q | IsPlan(rows, t, q) ensures q == a || q == b {
      assert IsPlan(rows[..1], t, q) || IsPlan([rows[1]], t, q);
    }
    assert IsPlan(rows[..2], t, a);
    assert b.victims[..|b.victims|] == b.victims;
    assert !IsSmallest(rows[1].worker, t, rows[1].victims, |a.victims|);
  }

  /** A worker short of CPU on which neither of two victims is enough, and both are. */
  lemma BothNeeded(w: Worker, t: Incoming, u: Victim, v: Victim)
    requires Accepts(w.(cpu := 0), t) && t.gpus == 0
    requires w.running >= 2 && w.cpu >= u.cpu + v.cpu && w.memory >= u.memory + v.memory
    requires w.cpu - u.cpu + t.cpu > w.cpuAllocatable && w.cpu - v.cpu + t.cpu > w.cpuAllocatable
    requires w.cpu - u.cpu - v.cpu + t.cpu <= w.cpuAllocatable
    ensures IsShortestPrefix(w, t, [u, v], 2) && IsSmallest(w, t, [u, v], 2)
  {
    var both := [u, v];
    One(u);
    One(v);
    assert both[..1] == [u] && both[..2] == both;
    assert !MakesRoom(w, t, [u]) && !MakesRoom(w, t, [v]);
    forall chosen | Works(w, t, both, chosen) ensures 2 <= |chosen| {
      var first := chosen[0];
      assert first in multiset(chosen) && first in both;
      assert |chosen| == 1 ==> chosen == [first];
    }
  }

  lemma OneEnough(w: Worker, t: Incoming, x: Victim)
    requires Accepts(w.(cpu := 0), t) && t.gpus == 0
    requires w.running >= 1 && w.cpu >= x.cpu && w.memory >= x.memory && w.cpu - x.cpu + t.cpu <= w.cpuAllocatable
    ensures IsShortestPrefix(w, t, [x], 1)
  {
    One(x);
    assert [x][..1] == [x];
  }

  const CROWDED := Worker(1, true, false, 4, 2, 3000, 4000, 1024, 8192, [], true, true, true)
  const SINGLE := Worker(2, true, false, 4, 1, 3000, 4000, 512, 8192, [], true, true, true)

  lemma PrioritiesOf(u: Victim, v: Victim)
    ensures Priority([u]) == u.priority && Priority([u, v]) == u.priority + v.priority
  {
    assert [u, v][..1] == [u];
  }

  /** Two 1500-millicore tasks of priority 1 are stopped on one worker although one 3000-millicore task of
      priority 5 would do on another; on each worker alone the prefix is a smallest set. */
  lemma PassedOverWorker()
    ensures var t := Incoming(3000, 1024, 0, None, 0);
            var a := Plan(CROWDED, [Victim(1, 1, 1500, 512, {}), Victim(2, 1, 1500, 512, {})]);
            var b := Plan(SINGLE, [Victim(3, 5, 3000, 512, {})]);
            IsBest([a, b], t, a) && IsSmallest(a.worker, t, a.victims, 2) && Works(b.worker, t, b.victims, b.victims)
  {
    var t := Incoming(3000, 1024, 0, None, 0);
    var u, v, x := Victim(1, 1, 1500, 512, {}), Victim(2, 1, 1500, 512, {}), Victim(3, 5, 3000, 512, {});
    BothNeeded(CROWDED, t, u, v);
    OneEnough(SINGLE, t, x);
    PrioritiesOf(u, v);
    PrioritiesOf(x, x);
    CheaperPlanStopsMore(Plan(CROWDED, [u, v]), Plan(SINGLE, [x]), t);
  }
}
