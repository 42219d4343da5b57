/** Runs of routing calls and reported outcomes: the circuit breaker, and fairness of balanced routing. */
module GatewayRuns {
  import opened Accelerators
  import opened Common
  import opened Gateway
  import opened RoundRobin
  import opened Sorting

  // ------------------------------------------------------------------ one vendor's circuit

  datatype Config = Config(threshold: int, cooldown: int)

  /** What happens to one circuit: a reported outcome, or a routing call that reaches it. */
  datatype Signal = Succeeded | Failed(error: Option<string>, at: real) | Reached(at: real)

  type History = seq<Signal>

  const CLOSED := Circuit(false, 0, None, None)

  /** A routing call closes a circuit whose cool-down is over. */
  function Touch(c: Circuit, now: real): Circuit {
    if c.isOpen && !(c.openedUntil.Some? && c.openedUntil.value > now) then CLOSED else c
  }

  function AfterSignal(cfg: Config, c: Circuit, signal: Signal): Circuit {
    match signal
    case Succeeded => Outcome(c, true, None, cfg.threshold, cfg.cooldown, 0.0)
    case Failed(error, at) => Outcome(c, false, error, cfg.threshold, cfg.cooldown, at)
    case Reached(at) => Touch(c, at)
  }

  function AfterHistory(cfg: Config, h: History): Circuit {
    if h == [] then CLOSED else AfterSignal(cfg, AfterHistory(cfg, h[..|h| - 1]), h[|h| - 1])
  }

  /** When the last failure was reported. */
  function LastFailure(h: History): real {
    if h == [] then 0.0
    else if h[|h| - 1].Failed? then h[|h| - 1].at
    else LastFailure(h[..|h| - 1])
  }

  /** Failures since the last success or the last routing call that came after the cool-down. */
  function Streak(cfg: Config, h: History): nat {
    if h == [] then 0
    else
      var before := h[..|h| - 1];
      match h[|h| - 1]
      case Succeeded => 0
      case Failed(_, _) => Streak(cfg, before) + 1
      case Reached(at) =>
        if Streak(cfg, before) >= cfg.threshold && LastFailure(before) + cfg.cooldown as real <= at then 0
        else Streak(cfg, before)
  }

  /** After any history the circuit counts the streak, is open exactly from the threshold on, and stays
      shut until the cool-down after the last failure. */
  lemma {:induction false} BreakerFollowsFailureStreak(cfg: Config, h: History)
    requires cfg.threshold >= 1
    ensures var c := AfterHistory(cfg, h);
      && c.failures == Streak(cfg, h)
      && (c.isOpen <==> Streak(cfg, h) >= cfg.threshold)
      && c.openedUntil == if c.isOpen then Some(LastFailure(h) + cfg.cooldown as real) else None
  {
    if h != [] {
      BreakerFollowsFailureStreak(cfg, h[..|h| - 1]);
    }
  }

  // ------------------------------------------------------------------------------- runs

  datatype State = State(circuits: Circuits, cursors: Cursors)

  datatype Call =
    | Ask(project: Project, name: string, excluded: set<Vendor>, at: real)
    | Report(model: nat, vendor: Vendor, success: bool, error: Option<string>, at: real)

  function RouteFor(s: State, call: Call): Route
    requires call.Ask?
  {
    RouteOf(call.project, s.circuits, s.cursors, call.name, call.excluded, call.at)
  }

  /** `choose_route` and `record_outcome` on the gateway's two tables. */
  function Step(cfg: Config, s: State, call: Call): State {
    match call
    case Ask(p, name, excluded, at) =>
      State(AfterRoute(p, s.circuits, s.cursors, name, excluded, at), NextCursors(s.cursors, Resolve(p, name), RouteFor(s, call)))
    case Report(m, v, success, error, at) =>
      s.(circuits := s.circuits[(m, v) := Outcome(CircuitOf(s.circuits, m, v), success, error, cfg.threshold, cfg.cooldown, at)])
  }

  function Run(cfg: Config, s: State, calls: seq<Call>): State {
    if calls == [] then s else Step(cfg, Run(cfg, s, calls[..|calls| - 1]), calls[|calls| - 1])
  }

  // ------------------------------------------------------------ circuits follow histories

  predicate Concerns(s: Service, excluded: set<Vendor>, m: nat, v: Vendor) {
    s.logicalModel == Some(m) && s.vendor == Some(v) && v !in excluded
  }

  /** Some candidate tried from `i` on is of this model and vendor. */
  predicate Reaches(order: seq<Service>, i: nat, upto: nat, excluded: set<Vendor>, m: nat, v: Vendor)
    requires upto <= |order|
  {
    exists k {:trigger order[k]} :: i <= k < upto && Concerns(order[k], excluded, m, v)
  }

  /** How many candidates a scan tries. */
  function Tried(order: seq<Service>, chosen: Option<nat>): nat {
    if chosen.Some? then Min(chosen.value + 1, |order|) else |order|
  }

  lemma TouchOnce(circuits: Circuits, s: Service, excluded: set<Vendor>, now: real, m: nat, v: Vendor)
    requires !Excluded(s, excluded) && !CircuitStops(circuits, s, now)
    ensures CircuitOf(PassCircuit(circuits, s), m, v) ==
            if Concerns(s, excluded, m, v) then Touch(CircuitOf(circuits, m, v), now) else CircuitOf(circuits, m, v)
    ensures Touch(Touch(CircuitOf(circuits, m, v), now), now) == Touch(CircuitOf(circuits, m, v), now)
  {
  }

  lemma ReachesNext(order: seq<Service>, i: nat, upto: nat, excluded: set<Vendor>, m: nat, v: Vendor)
    requires i < upto <= |order|
    ensures Reaches(order, i, upto, excluded, m, v) <==>
            Concerns(order[i], excluded, m, v) || Reaches(order, i + 1, upto, excluded, m, v)
  {
  }

  /** A scan touches exactly the circuits of the candidates it tries. */
  lemma {:induction false} ScanTouches(circuits: Circuits, order: seq<Service>, i: nat, excluded: set<Vendor>, now: real, m: nat, v: Vendor)
    requires i <= |order|
    ensures var scan := ScanFrom(circuits, order, i, excluded, now);
            CircuitOf(scan.circuits, m, v) ==
            if Reaches(order, i, Tried(order, scan.chosen), excluded, m, v) then Touch(CircuitOf(circuits, m, v), now)
            else CircuitOf(circuits, m, v)
    decreases |order| - i
  {
    if i < |order| {
      ScanFindsFirst(circuits, circuits, order, i, excluded, now);
      var upto := Tried(order, ScanFrom(circuits, order, i, excluded, now).chosen);
      ReachesNext(order, i, upto, excluded, m, v);
      if Excluded(order[i], excluded) || CircuitStops(circuits, order[i], now) {
        ScanTouches(circuits, order, i + 1, excluded, now, m, v);
      } else {
        TouchOnce(circuits, order[i], excluded, now, m, v);
        if ChooseEndpoint(order[i]).None? {
          ScanTouches(PassCircuit(circuits, order[i]), order, i + 1, excluded, now, m, v);
        }
      }
    }
  }

  /** Whether a routing call reaches this circuit. */
  predicate AskReaches(s: State, call: Call, m: nat, v: Vendor)
    requires call.Ask?
  {
    var target := Resolve(call.project, call.name);
    (target.Direct? || target.Logical?) &&
    var order := Order(call.project, target, CursorOf(s.cursors, target));
    Reaches(order, 0, Tried(order, ScanFrom(s.circuits, order, 0, call.excluded, call.at).chosen), call.excluded, m, v)
  }

  /** The signals one call sends to one circuit. */
  function SignalsOf(s: State, call: Call, m: nat, v: Vendor): History {
    match call
    case Ask(_, _, _, at) => if AskReaches(s, call, m, v) then [Reached(at)] else []
    case Report(model, vendor, success, error, at) =>
      if (model, vendor) != (m, v) then [] else if success then [Succeeded] else [Failed(error, at)]
  }

  function HistoryOf(cfg: Config, s: State, calls: seq<Call>, m: nat, v: Vendor): History {
    if calls == [] then []
    else
      var front := calls[..|calls| - 1];
      HistoryOf(cfg, s, front, m, v) + SignalsOf(Run(cfg, s, front), calls[|calls| - 1], m, v)
  }

  lemma CallSignals(cfg: Config, s: State, call: Call, m: nat, v: Vendor)
    ensures CircuitOf(Step(cfg, s, call).circuits, m, v) ==
            var signals := SignalsOf(s, call, m, v);
            if signals == [] then CircuitOf(s.circuits, m, v) else AfterSignal(cfg, CircuitOf(s.circuits, m, v), signals[0])
  {
    if call.Ask? {
      var target := Resolve(call.project, call.name);
      if target.Direct? || target.Logical? {
        var order := Order(call.project, target, CursorOf(s.cursors, target));
        ScanTouches(s.circuits, order, 0, call.excluded, call.at, m, v);
      }
    }
  }

  /** Over every run of routing calls and reports, each circuit is what its own history makes of it. */
  lemma {:induction false} CircuitsFollowHistories(cfg: Config, calls: seq<Call>, m: nat, v: Vendor)
    ensures CircuitOf(Run(cfg, State(map[], map[]), calls).circuits, m, v)
            == AfterHistory(cfg, HistoryOf(cfg, State(map[], map[]), calls, m, v))
  {
    if calls != [] {
      var start := State(map[], map[]);
      var front, last := calls[..|calls| - 1], calls[|calls| - 1];
      CircuitsFollowHistories(cfg, front, m, v);
      CallSignals(cfg, Run(cfg, start, front), last, m, v);
      HistoryGrows(cfg, HistoryOf(cfg, start, front, m, v), SignalsOf(Run(cfg, start, front), last, m, v));
    }
  }

  lemma HistoryGrows(cfg: Config, h: History, signals: History)
    requires |signals| <= 1
    ensures AfterHistory(cfg, h + signals) ==
            if signals == [] then AfterHistory(cfg, h) else AfterSignal(cfg, AfterHistory(cfg, h), signals[0])
  {
    if signals == [] {
      assert h + signals == h;
    } else {
      assert (h + signals)[..|h|] == h;
    }
  }

  /** So in every reachable state a vendor is blocked exactly while its failure streak has reached the
      threshold and the cool-down after its last failure is not over. */
  lemma BlockedExactlyWhileCoolingDown(cfg: Config, calls: seq<Call>, m: nat, v: Vendor, now: real)
    requires cfg.threshold >= 1
    ensures var start := State(map[], map[]);
            var h := HistoryOf(cfg, start, calls, m, v);
            Blocked(Run(cfg, start, calls).circuits, m, v, now) <==>
            Streak(cfg, h) >= cfg.threshold && now < LastFailure(h) + cfg.cooldown as real
  {
    CircuitsFollowHistories(cfg, calls, m, v);
    BreakerFollowsFailureStreak(cfg, HistoryOf(cfg, State(map[], map[]), calls, m, v));
  }

  // ------------------------------------------------------------------ balanced routing

  function CursorAt(s: State, m: nat): nat {
    if m in s.cursors then s.cursors[m] else 0
  }

  predicate AsksFor(call: Call, m: nat) {
    call.Ask? && Resolve(call.project, call.name).Logical? && Resolve(call.project, call.name).model.id == m
  }

  /** The services a call for model `m` may go to, on the rows of that call. */
  function ListFor(call: Call, m: nat): seq<Service>
    requires AsksFor(call, m)
  {
    EligibleServices(call.project, Resolve(call.project, call.name).model)
  }

  function IdsOf(services: seq<Service>): (ids: seq<nat>)
    ensures |ids| == |services| && forall i :: 0 <= i < |ids| ==> ids[i] == services[i].id
  {
    seq(|services|, i requires 0 <= i < |services| => services[i].id)
  }

  /** The call asks for model `m` and is answered. */
  predicate Serving(s: State, call: Call, m: nat) {
    AsksFor(call, m) && RouteFor(s, call).Routed?
  }

  /** The call, if it is for model `m`, balances it over the services `ids`. */
  predicate Balances(call: Call, m: nat, ids: seq<nat>) {
    AsksFor(call, m) ==> Resolve(call.project, call.name).model.policy.Balanced? && IdsOf(ListFor(call, m)) == ids
  }

  /** While the run lasts, the model is balanced over the same services; their replicas, cursors, health
      and everything else about them may change from call to call. */
  ghost predicate Steady(calls: seq<Call>, m: nat, ids: seq<nat>) {
    forall k {:trigger calls[k]} :: 0 <= k < |calls| ==> Balances(calls[k], m, ids)
  }

  /** The list position a rotation's offset stands for. */
  function Position(cursor: nat, n: nat, offset: nat): (j: nat)
    requires offset < n
    ensures j < n && Distance(cursor, n, j) == offset
  {
    if Start(cursor, n) + offset < n then Start(cursor, n) + offset else Start(cursor, n) + offset - n
  }

  ghost function Takers(s: State, call: Call, m: nat): set<nat>
    requires AsksFor(call, m)
  {
    TakersAmong(s.circuits, ListFor(call, m), call.excluded, call.at)
  }

  /** Which positions could take each answered call, judged on that call's own rows. */
  ghost function TakersOf(cfg: Config, s: State, calls: seq<Call>, m: nat): seq<set<nat>>
    decreases |calls|
  {
    if calls == [] then []
    else
      var rest := TakersOf(cfg, Step(cfg, s, calls[0]), calls[1..], m);
      if Serving(s, calls[0], m) then [Takers(s, calls[0], m)] + rest else rest
  }

  /** The position that took each answered call. */
  ghost function PicksOf(cfg: Config, s: State, calls: seq<Call>, m: nat): seq<nat>
    decreases |calls|
  {
    if calls == [] then []
    else
      var rest := PicksOf(cfg, Step(cfg, s, calls[0]), calls[1..], m);
      if Serving(s, calls[0], m) && RouteFor(s, calls[0]).offset < |ListFor(calls[0], m)|
      then [Position(CursorAt(s, m), |ListFor(calls[0], m)|, RouteFor(s, calls[0]).offset)] + rest else rest
  }

  /** The service that answered each answered call. */
  ghost function ServedBy(cfg: Config, s: State, calls: seq<Call>, m: nat): seq<nat>
    decreases |calls|
  {
    if calls == [] then []
    else
      var rest := ServedBy(cfg, Step(cfg, s, calls[0]), calls[1..], m);
      if Serving(s, calls[0], m) then [RouteFor(s, calls[0]).service.id] + rest else rest
  }

  /** One answered call takes the nearest taker and moves the cursor just past it. */
  lemma AnswerPicks(cfg: Config, s: State, call: Call, m: nat)
    requires Serving(s, call, m) && Resolve(call.project, call.name).model.policy.Balanced?
    ensures var offset, n := RouteFor(s, call).offset, |ListFor(call, m)|;
            && offset < n
            && var j := Position(CursorAt(s, m), n, offset);
               && ListFor(call, m)[j] == RouteFor(s, call).service
               && Picks(CursorAt(s, m), n, Takers(s, call, m), j)
               && CursorAt(Step(cfg, s, call), m) == Advance(CursorAt(s, m), offset + 1)
  {
    var j := BalancedRouteIsRoundRobin(call.project, s.circuits, s.cursors, call.name, call.excluded, call.at, RouteFor(s, call));
    SameDistance(CursorAt(s, m), |ListFor(call, m)|, j, Position(CursorAt(s, m), |ListFor(call, m)|, RouteFor(s, call).offset));
  }

  /** Calls that are not answered, not for the model or not balanced leave the model's cursor alone. */
  lemma OthersKeepCursor(cfg: Config, s: State, call: Call, m: nat)
    requires Serving(s, call, m) ==> !Resolve(call.project, call.name).model.policy.Balanced?
    ensures CursorAt(Step(cfg, s, call), m) == CursorAt(s, m)
  {
  }

  // -------------------------------------------------------------- the cursor in its column

  /** No list of services is longer than the cursor can count. */
  ghost predicate CountableLists(calls: seq<Call>, m: nat) {
    forall k {:trigger calls[k]} :: 0 <= k < |calls| && AsksFor(calls[k], m) ==> |ListFor(calls[k], m)| <= MAX_CURSOR
  }

  lemma CursorStepsWithinColumn(cfg: Config, s: State, call: Call, m: nat)
    requires AsksFor(call, m) ==> |ListFor(call, m)| <= MAX_CURSOR
    requires CursorAt(s, m) <= MAX_CURSOR
    ensures CursorAt(Step(cfg, s, call), m) <= MAX_CURSOR
  {
    if Serving(s, call, m) && Resolve(call.project, call.name).model.policy.Balanced? {
      AnswerPicks(cfg, s, call, m);
      AdvanceIsModular(CursorAt(s, m), RouteFor(s, call).offset + 1);
    } else {
      OthersKeepCursor(cfg, s, call, m);
    }
  }

  /** In any run, whatever happens to services and policies meanwhile, the stored cursor stays within its column. */
  lemma {:induction false} CursorStaysWithinColumn(cfg: Config, s: State, calls: seq<Call>, m: nat)
    requires CountableLists(calls, m) && CursorAt(s, m) <= MAX_CURSOR
    ensures CursorAt(Run(cfg, s, calls), m) <= MAX_CURSOR
  {
    if calls != [] {
      var front, last := calls[..|calls| - 1], calls[|calls| - 1];
      assert CountableLists(front, m);
      CursorStaysWithinColumn(cfg, s, front, m);
      assert calls[|calls| - 1] == last;
      CursorStepsWithinColumn(cfg, Run(cfg, s, front), last, m);
    }
  }

  // ----------------------------------------------------------------------------- fairness

  lemma ServesOneMore(cursor: nat, n: nat, takers: set<nat>, j: nat, rest: seq<set<nat>>, picked: seq<nat>)
    requires Picks(cursor, n, takers, j) && Serves(Advance(cursor, Distance(cursor, n, j) + 1), n, rest, picked)
    ensures Serves(cursor, n, [takers] + rest, [j] + picked)
  {
    assert ([takers] + rest)[1..] == rest && ([j] + picked)[1..] == picked;
  }

  lemma AnswerServes(cfg: Config, s: State, call: Call, m: nat, ids: seq<nat>, rest: seq<set<nat>>, picked: seq<nat>)
    requires Serving(s, call, m) && Balances(call, m, ids)
    requires Serves(CursorAt(Step(cfg, s, call), m), |ids|, rest, picked)
    ensures |ListFor(call, m)| == |ids| && RouteFor(s, call).offset < |ids|
    ensures Serves(CursorAt(s, m), |ids|, [Takers(s, call, m)] + rest,
                   [Position(CursorAt(s, m), |ids|, RouteFor(s, call).offset)] + picked)
  {
    var cursor, n, takers := CursorAt(s, m), |ids|, Takers(s, call, m);
    assert |ListFor(call, m)| == n by {
      assert |IdsOf(ListFor(call, m))| == |ListFor(call, m)|;
    }
    AnswerPicks(cfg, s, call, m);
    var j := Position(cursor, n, RouteFor(s, call).offset);
    assert Picks(cursor, n, takers, j) && Serves(Advance(cursor, Distance(cursor, n, j) + 1), n, rest, picked);
    ServesOneMore(cursor, n, takers, j, rest, picked);
  }

  lemma SteadyTail(calls: seq<Call>, m: nat, ids: seq<nat>)
    requires Steady(calls, m, ids) && calls != []
    ensures Balances(calls[0], m, ids) && Steady(calls[1..], m, ids)
  {
  }

  /** In any run, interleaved with reports, failed calls and calls for other models, the answered calls of
      a steady balanced model are a round-robin walk of its cursor over its services. */
  lemma {:induction false} AnsweredCallsAreServed(cfg: Config, s: State, calls: seq<Call>, m: nat, ids: seq<nat>)
    requires Steady(calls, m, ids)
    ensures Serves(CursorAt(s, m), |ids|, TakersOf(cfg, s, calls, m), PicksOf(cfg, s, calls, m))
    decreases |calls|
  {
    if calls != [] {
      var next := Step(cfg, s, calls[0]);
      SteadyTail(calls, m, ids);
      AnsweredCallsAreServed(cfg, next, calls[1..], m, ids);
      if Serving(s, calls[0], m) {
        AnswerServes(cfg, s, calls[0], m, ids, TakersOf(cfg, next, calls[1..], m), PicksOf(cfg, next, calls[1..], m));
      } else {
        OthersKeepCursor(cfg, s, calls[0], m);
      }
    }
  }

  ghost predicate Names(ids: seq<nat>, picked: seq<nat>, served: seq<nat>) {
    |served| == |picked| && forall k :: 0 <= k < |picked| ==> picked[k] < |ids| && served[k] == ids[picked[k]]
  }

  lemma NamesOneMore(ids: seq<nat>, j: nat, picked: seq<nat>, served: seq<nat>)
    requires j < |ids| && Names(ids, picked, served)
    ensures Names(ids, [j] + picked, [ids[j]] + served)
  {
  }

  /** The picked positions are those of the services that answered. */
  lemma {:induction false} PicksNameServices(cfg: Config, s: State, calls: seq<Call>, m: nat, ids: seq<nat>)
    requires Steady(calls, m, ids)
    ensures Names(ids, PicksOf(cfg, s, calls, m), ServedBy(cfg, s, calls, m))
    decreases |calls|
  {
    if calls != [] {
      var next := Step(cfg, s, calls[0]);
      SteadyTail(calls, m, ids);
      PicksNameServices(cfg, next, calls[1..], m, ids);
      if Serving(s, calls[0], m) {
        AnswerPicks(cfg, s, calls[0], m);
        NamesOneMore(ids, Position(CursorAt(s, m), |ids|, RouteFor(s, calls[0]).offset),
                     PicksOf(cfg, next, calls[1..], m), ServedBy(cfg, next, calls[1..], m));
      }
    }
  }

  lemma ServedAmongFirst(cfg: Config, s: State, calls: seq<Call>, m: nat, ids: seq<nat>, j: nat, first: nat)
    requires Steady(calls, m, ids) && j < |ids| && first <= |PicksOf(cfg, s, calls, m)| && j in PicksOf(cfg, s, calls, m)[..first]
    ensures first <= |ServedBy(cfg, s, calls, m)| && ids[j] in ServedBy(cfg, s, calls, m)[..first]
  {
    PicksNameServices(cfg, s, calls, m, ids);
    var k :| 0 <= k < first && PicksOf(cfg, s, calls, m)[k] == j;
    assert ServedBy(cfg, s, calls, m)[..first][k] == ids[j];
  }

  /** A service that could take every answered call answers one of the first n of them, unless the
      cursor wraps among them and n does not divide 2^63. */
  lemma BalancedRoutingIsFair(cfg: Config, s: State, calls: seq<Call>, m: nat, ids: seq<nat>, j: nat)
    requires Steady(calls, m, ids) && j < |ids| <= MAX_CURSOR && CursorAt(s, m) <= MAX_CURSOR
    requires AlwaysRoutable(TakersOf(cfg, s, calls, m), j) && |TakersOf(cfg, s, calls, m)| >= |ids|
    requires Smooth(CursorAt(s, m), |ids|, |ids|)
    ensures |ServedBy(cfg, s, calls, m)| >= |ids| && ids[j] in ServedBy(cfg, s, calls, m)[..|ids|]
  {
    AnsweredCallsAreServed(cfg, s, calls, m, ids);
    ChosenWithinNCalls(CursorAt(s, m), |ids|, TakersOf(cfg, s, calls, m), PicksOf(cfg, s, calls, m), j);
    ServedAmongFirst(cfg, s, calls, m, ids, j, |ids|);
  }

  /** From any cursor, across any wrap, it answers one of the first 2n of them. */
  lemma BalancedRoutingIsFairAcrossWraps(cfg: Config, s: State, calls: seq<Call>, m: nat, ids: seq<nat>, j: nat)
    requires Steady(calls, m, ids) && j < |ids| <= MAX_CURSOR / 2 && CursorAt(s, m) <= MAX_CURSOR
    requires AlwaysRoutable(TakersOf(cfg, s, calls, m), j) && |TakersOf(cfg, s, calls, m)| >= 2 * |ids|
    ensures |ServedBy(cfg, s, calls, m)| >= 2 * |ids| && ids[j] in ServedBy(cfg, s, calls, m)[..2 * |ids|]
  {
    AnsweredCallsAreServed(cfg, s, calls, m, ids);
    ChosenWithinTwiceN(CursorAt(s, m), |ids|, TakersOf(cfg, s, calls, m), PicksOf(cfg, s, calls, m), j);
    ServedAmongFirst(cfg, s, calls, m, ids, j, 2 * |ids|);
  }

  // ------------------------------------------------- what routing itself does to the rows

  /** The same service, possibly with other replicas and another replica cursor. */
  predicate SameService(s: Service, t: Service) {
    t == s.(replicaCursor := t.replicaCursor, replicas := t.replicas)
  }

  predicate SameServices(xs: seq<Service>, ys: seq<Service>) {
    |xs| == |ys| && forall i :: 0 <= i < |xs| ==> SameService(xs[i], ys[i])
  }

  lemma {:induction false} KeepPairs(xs: seq<Service>, ys: seq<Service>, f: Service -> bool, g: Service -> bool)
    requires SameServices(xs, ys) && forall i :: 0 <= i < |xs| ==> f(xs[i]) == g(ys[i])
    ensures SameServices(Keep(xs, f), Keep(ys, g))
  {
    if xs != [] {
      KeepPairs(xs[1..], ys[1..], f, g);
    }
  }

  ghost predicate IgnoresReplicas(key: Service -> Key) {
    forall s, t {:trigger SameService(s, t)} :: SameService(s, t) ==> key(s) == key(t)
  }

  lemma {:induction false} InsertPairs(xs: seq<Service>, ys: seq<Service>, s: Service, t: Service, key: Service -> Key)
    requires SameServices(xs, ys) && SameService(s, t) && IgnoresReplicas(key)
    ensures SameServices(Insert(xs, s, key), Insert(ys, t, key))
  {
    if xs != [] {
      assert SameService(xs[0], ys[0]);
      InsertPairs(xs[1..], ys[1..], s, t, key);
    }
  }

  lemma {:induction false} SortPairs(xs: seq<Service>, ys: seq<Service>, key: Service -> Key)
    requires SameServices(xs, ys) && IgnoresReplicas(key)
    ensures SameServices(SortBy(xs, key), SortBy(ys, key))
  {
    if xs != [] {
      var n := |xs| - 1;
      SortPairs(xs[..n], ys[..n], key);
      InsertPairs(SortBy(xs[..n], key), SortBy(ys[..n], key), xs[n], ys[n], key);
    }
  }

  /** Rows that differ only in replicas and replica cursors, as after routing calls and health reports,
      give a model the same list of services, so runs of such rows are steady. */
  lemma ReplicasLeaveTheList(p: Project, q: Project, m: LogicalModel)
    requires SameServices(p.services, q.services) && p.variants == q.variants
    ensures IdsOf(EligibleServices(p, m)) == IdsOf(EligibleServices(q, m))
  {
    var wanted, key := (s: Service) => Belongs(s, m.id) && s.desiredReplicas > 0, ServiceKey(m.policy);
    KeepPairs(p.services, q.services, wanted, wanted);
    SortPairs(Keep(p.services, wanted), Keep(q.services, wanted), key);
    KeepPairs(SortBy(Keep(p.services, wanted), key), SortBy(Keep(q.services, wanted), key),
              s => Eligible(p, m, s), s => Eligible(q, m, s));
  }
}
