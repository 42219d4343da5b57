/** Single-node gang placement for model serving: all requested GPUs from one worker, or none.
    Worker and device identifiers are numbers ordered like the strings they stand for. */
module GangPlacement {
  import opened Common
  import opened Sorting

  datatype Device = Device(uuid: nat, index: int, model: string, freeMb: int, fake: bool)

  datatype Worker = Worker(id: nat, devices: seq<Device>)

  datatype Request = Request(gpuCount: int, gpuModel: Option<string>, gpuMemoryMb: int, allowFake: bool)

  datatype Reason = InsufficientContiguousGpus | GpuModelMismatch | InsufficientGpuMemory

  datatype Answer =
    | Placed(worker: nat, deviceIds: seq<nat>)
    | Refused(reason: Reason, largest: nat)
    | InvalidRequest

  type Pools = map<nat, seq<Device>>

  // ------------------------------------------------------------------ filter stages

  predicate Usable(request: Request, d: Device) {
    request.allowFake || !d.fake
  }

  predicate ModelMatches(request: Request, d: Device) {
    request.gpuModel.None? || d.model == request.gpuModel.value
  }

  predicate HasMemory(request: Request, d: Device) {
    d.freeMb >= request.gpuMemoryMb
  }

  /** One pool per worker id; a repeated id keeps its last snapshot. */
  function PoolsOf(workers: seq<Worker>): (pools: Pools)
    ensures forall id :: id in pools <==> exists i :: 0 <= i < |workers| && workers[i].id == id
  {
    if workers == [] then map[]
    else
      var last := workers[|workers| - 1];
      PoolsOf(workers[..|workers| - 1])[last.id := last.devices]
  }

  function Narrow(pools: Pools, keep: Device -> bool): Pools {
    map id | id in pools :: Keep(pools[id], keep)
  }

  function UsablePools(request: Request, workers: seq<Worker>): Pools {
    Narrow(PoolsOf(workers), d => Usable(request, d))
  }

  function ModelPools(request: Request, workers: seq<Worker>): Pools {
    Narrow(UsablePools(request, workers), d => ModelMatches(request, d))
  }

  function EligiblePools(request: Request, workers: seq<Worker>): Pools {
    Narrow(ModelPools(request, workers), d => HasMemory(request, d))
  }

  /** The characters that stripping a string removes. */
  predicate IsSpace(c: char) {
    var n := c as int;
    || 9 <= n <= 13 || 28 <= n <= 32 || n == 0x85 || n == 0xA0 || n == 0x1680 || 0x2000 <= n <= 0x200A
    || n == 0x2028 || n == 0x2029 || n == 0x202F || n == 0x205F || n == 0x3000
  }

  predicate IsBlank(s: string) {
    forall c :: c in s ==> IsSpace(c)
  }

  predicate ValidRequest(request: Request) {
    && request.gpuCount >= 0 && request.gpuMemoryMb >= 0
    && (request.gpuModel.Some? ==> !IsBlank(request.gpuModel.value))
  }

  // ------------------------------------------------------------------- what is optimal

  function TotalFree(gang: seq<Device>): int {
    if gang == [] then 0 else gang[0].freeMb + TotalFree(gang[1..])
  }

  /** `gang` can be taken out of `pool`. */
  ghost predicate IsGang(gang: seq<Device>, pool: seq<Device>, count: int) {
    |gang| == count && multiset(gang) <= multiset(pool)
  }

  ghost predicate IsLargest(pools: Pools, largest: nat) {
    && (forall id :: id in pools ==> |pools[id]| <= largest)
    && (largest == 0 || exists id :: id in pools && |pools[id]| == largest)
  }

  ghost predicate CanHost(pools: Pools, id: nat, count: int) {
    id in pools && |pools[id]| >= count
  }

  /** `gang` on `id` leaves the fewest spare devices, and among such placements takes the least
      free memory of all gangs that could be formed, ties going to the smaller worker id. */
  ghost predicate IsBestGang(pools: Pools, count: int, id: nat, gang: seq<Device>) {
    && CanHost(pools, id, count) && IsGang(gang, pools[id], count)
    && (forall other :: CanHost(pools, other, count) ==> |pools[id]| <= |pools[other]|)
    && (forall other: nat, rival ::
          (CanHost(pools, other, count) && |pools[other]| == |pools[id]| && IsGang(rival, pools[other], count)) ==>
            TotalFree(gang) <= TotalFree(rival) && (other < id ==> TotalFree(gang) < TotalFree(rival)))
  }

  function Ids(gang: seq<Device>): (ids: seq<nat>)
    ensures |ids| == |gang| && forall i :: 0 <= i < |ids| ==> ids[i] == gang[i].uuid
  {
    seq(|gang|, i requires 0 <= i < |gang| => gang[i].uuid)
  }

  // -------------------------------------------------- the first n of the sort are cheapest

  function DeviceKey(d: Device): Key {
    [d.freeMb as real, d.index as real, d.uuid as real]
  }

  lemma KeyOrdersMemory(a: Device, b: Device)
    requires Leq(DeviceKey(a), DeviceKey(b))
    ensures a.freeMb <= b.freeMb
  {
  }

  lemma {:induction false} TotalFreeWithout(gang: seq<Device>, i: nat)
    requires i < |gang|
    ensures TotalFree(gang) == gang[i].freeMb + TotalFree(gang[..i] + gang[i + 1..])
  {
    if i == 0 {
      assert gang[..0] + gang[1..] == gang[1..];
    } else {
      TotalFreeWithout(gang[1..], i - 1);
      var without := gang[..i] + gang[i + 1..];
      assert without[1..] == gang[1..][..i - 1] + gang[1..][i..];
    }
  }

  lemma WithoutOne(gang: seq<Device>, i: nat)
    requires i < |gang|
    ensures multiset(gang[..i] + gang[i + 1..]) == multiset(gang) - multiset{gang[i]}
  {
    assert gang == gang[..i] + [gang[i]] + gang[i + 1..];
  }

  /** Giving up one device of a gang, the first of the pool if it has it, leaves a gang of the
      rest of the pool. */
  lemma GiveUpOne(pool: seq<Device>, rival: seq<Device>, i: nat)
    requires pool != [] && i < |rival| && multiset(rival) <= multiset(pool)
    requires pool[0] in rival ==> rival[i] == pool[0]
    ensures rival[i] in pool
    ensures multiset(rival[..i] + rival[i + 1..]) <= multiset(pool[1..])
  {
    var first, smaller := pool[0], multiset(rival[..i] + rival[i + 1..]);
    WithoutOne(rival, i);
    assert rival[i] in multiset(rival) && rival[i] in multiset(pool);
    assert pool == [first] + pool[1..];
    assert multiset(pool[1..]) == multiset(pool) - multiset{first};
    assert first !in rival ==> multiset(rival)[first] == 0;
  }

  /** Exchange argument: no gang out of a sorted pool is cheaper than its first `count` devices. */
  lemma {:induction false} PrefixIsCheapest(pool: seq<Device>, rival: seq<Device>)
    requires SortedBy(pool, DeviceKey)
    requires multiset(rival) <= multiset(pool)
    ensures |rival| <= |pool|
    ensures TotalFree(pool[..|rival|]) <= TotalFree(rival)
  {
    GangFits(pool, rival);
    if rival != [] {
      var i := if pool[0] in rival then PositionOf(rival, pool[0]) else 0;
      var smaller := rival[..i] + rival[i + 1..];
      GiveUpOne(pool, rival, i);
      KeyOrdersMemory(pool[0], rival[i]);
      TotalFreeWithout(rival, i);
      PrefixIsCheapest(pool[1..], smaller);
      assert pool[..|rival|][1..] == pool[1..][..|smaller|];
    }
  }

  ghost function PositionOf(s: seq<Device>, d: Device): (i: nat)
    requires d in s
    ensures i < |s| && s[i] == d
  {
    var i :| 0 <= i < |s| && s[i] == d;
    i
  }

  lemma GangFits(pool: seq<Device>, rival: seq<Device>)
    requires multiset(rival) <= multiset(pool)
    ensures |rival| <= |pool|
  {
    assert |multiset(rival)| <= |multiset(pool)| by {
      assert multiset(pool) == multiset(rival) + (multiset(pool) - multiset(rival));
    }
  }

  /** What one worker contributes: its cheapest gang. */
  function CheapestGang(pool: seq<Device>, count: nat): seq<Device> {
    var ordered := SortBy(pool, DeviceKey);
    if count <= |ordered| then ordered[..count] else []
  }

  lemma CheapestGangIsCheapest(pool: seq<Device>, count: nat)
    requires count <= |pool|
    ensures IsGang(CheapestGang(pool, count), pool, count)
    ensures forall rival :: IsGang(rival, pool, count) ==> TotalFree(CheapestGang(pool, count)) <= TotalFree(rival)
  {
    var ordered := SortBy(pool, DeviceKey);
    SortIsPermutation(pool, DeviceKey);
    SortSorts(pool, DeviceKey);
    assert ordered == ordered[..count] + ordered[count..];
    forall rival | IsGang(rival, pool, count)
      ensures TotalFree(CheapestGang(pool, count)) <= TotalFree(rival)
    {
      PrefixIsCheapest(ordered, rival);
    }
  }

  // ------------------------------------------------------------------------- choice

  datatype Candidate = Candidate(spare: nat, total: int, worker: nat, gang: seq<Device>)

  function ScoreOf(c: Candidate): Key {
    [c.spare as real, c.total as real, c.worker as real]
  }

  function CandidateFor(pools: Pools, id: nat, count: nat): Candidate
    requires id in pools && count <= |pools[id]|
  {
    var gang := CheapestGang(pools[id], count);
    Candidate(|pools[id]| - count, TotalFree(gang), id, gang)
  }

  /** The loop over the eligible pools, in any order. */
  method CollectCandidates(pools: Pools, count: nat) returns (candidates: seq<Candidate>)
    ensures forall c :: c in candidates ==> CanHost(pools, c.worker, count) && c == CandidateFor(pools, c.worker, count)
    ensures forall id :: CanHost(pools, id, count) ==> CandidateFor(pools, id, count) in candidates
  {
    candidates := [];
    var todo := pools.Keys;
    while todo != {}
      invariant todo <= pools.Keys
      invariant forall c :: c in candidates ==> CanHost(pools, c.worker, count) && c == CandidateFor(pools, c.worker, count)
      invariant forall id :: CanHost(pools, id, count) && id !in todo ==> CandidateFor(pools, id, count) in candidates
      decreases todo
    {
      var id :| id in todo;
      if |pools[id]| >= count {
        candidates := candidates + [CandidateFor(pools, id, count)];
      }
      todo := todo - {id};
    }
  }

  lemma ScoreDecides(a: Candidate, b: Candidate)
    requires Leq(ScoreOf(a), ScoreOf(b))
    ensures a.spare <= b.spare
    ensures a.spare == b.spare ==> a.total <= b.total
    ensures a.spare == b.spare && a.total == b.total ==> a.worker <= b.worker
  {
    var x, y := ScoreOf(a), ScoreOf(b);
    assert x[1..] == [a.total as real, a.worker as real] && y[1..] == [b.total as real, b.worker as real];
    assert x[1..][1..] == [a.worker as real] && y[1..][1..] == [b.worker as real];
    if x[0] == y[0] {
      assert Leq(x[1..], y[1..]);
      if x[1..][0] == y[1..][0] {
        assert Leq(x[1..][1..], y[1..][1..]);
      }
    }
  }

  /** The candidate with the least score is a best gang. */
  lemma LeastScoreIsBest(pools: Pools, count: nat, candidates: seq<Candidate>, best: Candidate)
    requires forall id :: CanHost(pools, id, count) ==> CandidateFor(pools, id, count) in candidates
    requires CanHost(pools, best.worker, count) && best == CandidateFor(pools, best.worker, count)
    requires AtMostAll(best, candidates, ScoreOf)
    ensures IsBestGang(pools, count, best.worker, best.gang)
  {
    CheapestGangIsCheapest(pools[best.worker], count);
    forall other: nat | CanHost(pools, other, count)
      ensures |pools[best.worker]| <= |pools[other]|
      ensures forall rival :: |pools[other]| == |pools[best.worker]| && IsGang(rival, pools[other], count) ==>
                TotalFree(best.gang) <= TotalFree(rival)
                && (other < best.worker ==> TotalFree(best.gang) < TotalFree(rival))
    {
      ScoreDecides(best, CandidateFor(pools, other, count));
      CheapestGangIsCheapest(pools[other], count);
    }
  }

  method Largest(pools: Pools) returns (largest: nat)
    ensures IsLargest(pools, largest)
  {
    largest := 0;
    var todo := pools.Keys;
    while todo != {}
      invariant todo <= pools.Keys
      invariant forall id :: id in pools && id !in todo ==> |pools[id]| <= largest
      invariant largest == 0 || exists id :: id in pools && |pools[id]| == largest
      decreases todo
    {
      var id :| id in todo;
      if |pools[id]| > largest {
        largest := |pools[id]|;
      }
      todo := todo - {id};
    }
  }

  method SmallestId(workers: seq<Worker>) returns (least: nat)
    requires workers != []
    ensures exists w :: w in workers && w.id == least
    ensures forall w :: w in workers ==> least <= w.id
  {
    least := workers[0].id;
    for i := 1 to |workers|
      invariant exists w :: w in workers && w.id == least
      invariant forall j :: 0 <= j < i ==> least <= workers[j].id
    {
      if workers[i].id < least {
        least := workers[i].id;
      }
    }
  }

  /** The answer the design asks for: the first stage no worker passes, or a best gang. */
  ghost predicate Answers(request: Request, workers: seq<Worker>, answer: Answer) {
    var count := request.gpuCount;
    if !ValidRequest(request) then answer.InvalidRequest?
    else if count == 0 then
      if workers == [] then answer == Refused(InsufficientContiguousGpus, 0)
      else answer.Placed? && answer.deviceIds == [] &&
           (exists w :: w in workers && w.id == answer.worker) && (forall w :: w in workers ==> answer.worker <= w.id)
    else if !(exists id :: CanHost(UsablePools(request, workers), id, count)) then
      answer.Refused? && answer.reason == InsufficientContiguousGpus && IsLargest(UsablePools(request, workers), answer.largest)
    else if !(exists id :: CanHost(ModelPools(request, workers), id, count)) then
      answer.Refused? && answer.reason == GpuModelMismatch && IsLargest(ModelPools(request, workers), answer.largest)
    else if !(exists id :: CanHost(EligiblePools(request, workers), id, count)) then
      answer.Refused? && answer.reason == InsufficientGpuMemory && IsLargest(EligiblePools(request, workers), answer.largest)
    else
      answer.Placed? && exists gang :: IsBestGang(EligiblePools(request, workers), count, answer.worker, gang)
                                       && answer.deviceIds == Ids(gang)
  }

  lemma LargestDecides(pools: Pools, largest: nat, count: int)
    requires IsLargest(pools, largest) && count > 0
    ensures largest < count <==> !(exists id :: CanHost(pools, id, count))
  {
    if largest >= count {
      var id :| id in pools && |pools[id]| == largest;
      assert CanHost(pools, id, count);
    }
  }

  /** `choose_single_node_gang_placement`. */
  method ChooseGang(request: Request, workers: seq<Worker>) returns (answer: Answer)
    ensures Answers(request, workers, answer)
  {
    if !ValidRequest(request) {
      return InvalidRequest;
    }
    var count := request.gpuCount;
    if count == 0 {
      if workers == [] {
        return Refused(InsufficientContiguousGpus, 0);
      }
      var id := SmallestId(workers);
      return Placed(id, []);
    }
    var usable := UsablePools(request, workers);
    var largest := Largest(usable);
    LargestDecides(usable, largest, count);
    if largest < count {
      return Refused(InsufficientContiguousGpus, largest);
    }
    var ofModel := ModelPools(request, workers);
    largest := Largest(ofModel);
    LargestDecides(ofModel, largest, count);
    if largest < count {
      return Refused(GpuModelMismatch, largest);
    }
    var eligible := EligiblePools(request, workers);
    largest := Largest(eligible);
    LargestDecides(eligible, largest, count);
    if largest < count {
      return Refused(InsufficientGpuMemory, largest);
    }
    answer := BestPlacement(eligible, count);
  }

  method BestPlacement(pools: Pools, count: nat) returns (answer: Answer)
    requires exists id :: CanHost(pools, id, count)
    ensures answer.Placed?
    ensures exists gang :: IsBestGang(pools, count, answer.worker, gang) && answer.deviceIds == Ids(gang)
  {
    var candidates := CollectCandidates(pools, count);
    var ordered := SortBy(candidates, ScoreOf);
    SortSorts(candidates, ScoreOf);
    ghost var host :| CanHost(pools, host, count);
    assert CandidateFor(pools, host, count) in candidates;
    var best := ordered[0];
    assert best in ordered;
    LeastScoreIsBest(pools, count, candidates, best);
    answer := Placed(best.worker, Ids(best.gang));
  }

  /** What a device must be: real unless fakes are allowed, of the requested model, with enough free memory. */
  predicate Meets(request: Request, d: Device) {
    && (d.fake ==> request.allowFake) && (request.gpuModel.Some? ==> d.model == request.gpuModel.value)
    && request.gpuMemoryMb <= d.freeMb
  }

  /** The devices of a worker that pass all filters are exactly those that meet the request, in their order. */
  lemma EligibleDevices(request: Request, workers: seq<Worker>, id: nat)
    requires id in PoolsOf(workers)
    ensures id in EligiblePools(request, workers)
    ensures EligiblePools(request, workers)[id] == Keep(PoolsOf(workers)[id], (d: Device) => Meets(request, d))
  {
    KeepThrice(request, PoolsOf(workers)[id]);
  }

  lemma {:induction false} KeepThrice(request: Request, devices: seq<Device>)
    ensures Keep(Keep(Keep(devices, d => Usable(request, d)), d => ModelMatches(request, d)), d => HasMemory(request, d))
            == Keep(devices, (d: Device) => Meets(request, d))
  {
    if devices != [] {
      KeepThrice(request, devices[1..]);
      var d, rest := devices[0], Keep(devices[1..], d => Usable(request, d));
      if Usable(request, d) {
        assert ([d] + rest)[1..] == rest;
        if ModelMatches(request, d) {
          var more := Keep(rest, d => ModelMatches(request, d));
          assert ([d] + more)[1..] == more;
        }
      }
    }
  }

  /** A request is invalid exactly when it asks for a negative amount or names a blank model. */
  lemma InvalidExactly(request: Request, workers: seq<Worker>, answer: Answer)
    requires Answers(request, workers, answer)
    ensures answer.InvalidRequest? <==>
            || request.gpuCount < 0 || request.gpuMemoryMb < 0
            || (request.gpuModel.Some? && forall i :: 0 <= i < |request.gpuModel.value| ==> IsSpace(request.gpuModel.value[i]))
  {
  }

  /** Every placed device really is eligible: usable, of the requested model and with enough
      free memory, and all of them belong to the chosen worker. */
  lemma PlacedDevicesAreEligible(request: Request, workers: seq<Worker>, id: nat, gang: seq<Device>, d: Device)
    requires id in EligiblePools(request, workers)
    requires IsGang(gang, EligiblePools(request, workers)[id], request.gpuCount) && d in gang
    ensures id in PoolsOf(workers) && d in PoolsOf(workers)[id] && Meets(request, d)
  {
    assert d in multiset(gang);
    assert d in EligiblePools(request, workers)[id];
  }
}
