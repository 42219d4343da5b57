/** What a released execution is billed: laws that fix the cost, and the row and counter a release writes. */
module Billing {
  import opened Common
  import opened ControlPlaneRuns
  import opened Ledger
  import opened LedgerAccounts
  import opened TaskStates
  import Balance = LedgerBalance
  import Bindings = LedgerBindings
  import Book = QuotaBook
  import Q = Quotas

  const HOUR := 3600.0

  // ------------------------------------------------------------------------ laws of the cost

  /** An execution that holds nothing costs nothing. */
  lemma NothingHeldCostsNothing(x: Execution, seconds: real)
    requires x.cpu == 0 && x.memory == 0 && x.gpus == 0
    ensures Cost(x, seconds) == 0.0
  {
  }

  /** One more core, gigabyte or accelerator costs its price for every hour. */
  lemma HourlyPrices(x: Execution)
    ensures Cost(x.(cpu := x.cpu + 1000), HOUR) == Cost(x, HOUR) + x.prices.cpuHour
    ensures Cost(x.(memory := x.memory + 1024), HOUR) == Cost(x, HOUR) + x.prices.memoryGbHour
    ensures Cost(x.(gpus := x.gpus + 1), HOUR) == Cost(x, HOUR) + x.prices.gpuHour
  {
    PerHour(x.cpu as real / 1000.0, x.prices.cpuHour);
    PerHour((x.cpu + 1000) as real / 1000.0, x.prices.cpuHour);
    PerHour(x.memory as real / 1024.0, x.prices.memoryGbHour);
    PerHour((x.memory + 1024) as real / 1024.0, x.prices.memoryGbHour);
    PerHour(x.gpus as real, x.prices.gpuHour);
    PerHour((x.gpus + 1) as real, x.prices.gpuHour);
  }

  lemma PerHour(units: real, price: real)
    ensures HOUR * units * (price / SECONDS_PER_HOUR) == units * price
    ensures (units + 1.0) * price == units * price + price
  {
  }

  /** Cost adds up over time. */
  lemma CostAddsUpOverTime(x: Execution, first: real, second: real)
    ensures Cost(x, first + second) == Cost(x, first) + Cost(x, second)
  {
    Spread(first, second, x.cpu as real / 1000.0, x.prices.cpuHour / SECONDS_PER_HOUR);
    Spread(first, second, x.memory as real / 1024.0, x.prices.memoryGbHour / SECONDS_PER_HOUR);
    Spread(first, second, x.gpus as real, x.prices.gpuHour / SECONDS_PER_HOUR);
  }

  lemma Spread(a: real, b: real, units: real, rate: real)
    ensures (a + b) * units * rate == a * units * rate + b * units * rate
  {
  }

  /** Cost adds up over what is held, to the last millicore and megabyte. */
  lemma CostAddsUpOverHoldings(x: Execution, cpu: int, memory: int, gpus: int, seconds: real)
    ensures Cost(x.(cpu := x.cpu + cpu, memory := x.memory + memory, gpus := x.gpus + gpus), seconds)
            == Cost(x, seconds) + Cost(x.(cpu := cpu, memory := memory, gpus := gpus), seconds)
  {
    Joined(seconds, x.cpu, cpu, 1000.0, x.prices.cpuHour / SECONDS_PER_HOUR);
    Joined(seconds, x.memory, memory, 1024.0, x.prices.memoryGbHour / SECONDS_PER_HOUR);
    Joined(seconds, x.gpus, gpus, 1.0, x.prices.gpuHour / SECONDS_PER_HOUR);
  }

  lemma Joined(seconds: real, a: int, b: int, unit: real, rate: real)
    requires unit > 0.0
    ensures seconds * ((a + b) as real / unit) * rate == seconds * (a as real / unit) * rate + seconds * (b as real / unit) * rate
  {
    assert (a + b) as real / unit == a as real / unit + b as real / unit;
  }

  // ------------------------------------------------------------------- what a release settles

  /** What a release bills: the execution's cost from its start to now, or nothing if it never started. */
  function Bill(db: Database, e: ExecutionId, now: int): real
    requires e in db.reservations && e in db.executions
  {
    var started := StartedAt(db, db.reservations[e]);
    if started.None? then 0.0 else Cost(db.executions[e], (now - started.value) as real)
  }

  lemma UsageIsTheBill(db: Database, e: ExecutionId, now: int)
    requires LedgerOnce(db.ledger, db.reservations) && Active(db.reservations, e) && ReleaseCheck(db, e, now).None?
    ensures e in db.executions && SettlementOf(db.reservations[e], NewUsage(db, e, now)).cost == Bill(db, e, now)
  {
    ActiveIsUnbilled(db, e);
  }

  lemma SettledCounters(q: Q.Quota, day: int, s: Q.Settlement)
    requires s.reservedOn.Some? && Q.Release(q, day, s).Ok?
    ensures var next := Q.Release(q, day, s).value;
            next.day == day && next.settledCost == (if q.counters.day == day then q.counters.settledCost else 0.0) + s.cost
  {
    Book.SettleDaily(q, day, Book.Open(s.request, s.reservedOn.value), s.cost);
  }

  /** The project's settled cost for the day of the release rises by exactly the bill, and no other
      project's row changes. */
  lemma ReleaseSettlesTheBill(db: Database, e: ExecutionId, now: int, final: TaskStatus)
    requires LedgerOnce(db.ledger, db.reservations) && Active(db.reservations, e) && ReleaseCheck(db, e, now).None?
    ensures e in db.executions && db.reservations[e].project in db.quotas
    ensures var p := db.reservations[e].project;
            var before, after := db.quotas[p].counters, Released(db, e, now, final).quotas;
            && after == db.quotas[p := after[p]] && after[p].counters.day == Day(now)
            && after[p].counters.settledCost == (if before.day == Day(now) then before.settledCost else 0.0) + Bill(db, e, now)
  {
    var r := db.reservations[e];
    UsageIsTheBill(db, e, now);
    SettledCounters(db.quotas[r.project], Day(now), SettlementOf(r, NewUsage(db, e, now)));
  }

  // ------------------------------------------------------ the terms of a placement never change

  /** What was agreed at placement. */
  predicate SameTerms(x: Execution, y: Execution) {
    x.task == y.task && x.worker == y.worker && x.cpu == y.cpu && x.memory == y.memory && x.gpus == y.gpus && x.prices == y.prices
  }

  predicate SameHolder(r: Reservation, s: Reservation) {
    && r.project == s.project && r.task == s.task && r.worker == s.worker && r.session == s.session && r.authority == s.authority
    && r.cpu == s.cpu && r.memory == s.memory && r.gpus == s.gpus && r.vendor == s.vendor && r.createdAt == s.createdAt
  }

  ghost predicate KeepsTerms(before: Database, after: Database, e: ExecutionId) {
    && (e in before.executions ==> e in after.executions && SameTerms(before.executions[e], after.executions[e]))
    && (e in before.reservations ==> e in after.reservations && SameHolder(before.reservations[e], after.reservations[e]))
  }

  lemma PlaceKeepsTerms(db: Database, p: Placement, e: ExecutionId)
    requires Place(db, p).Ok?
    ensures KeepsTerms(db, Placed(db, p), e)
  {
    assert p.execution !in db.executions && p.execution !in db.reservations;
  }

  lemma OthersKeepExecutions(db: Database, now: int, step: Step)
    requires !step.DoPlace? && !step.DoRelease? && !step.DoObserve?
    ensures Apply(db, now, step).executions == db.executions && Apply(db, now, step).reservations == db.reservations
  {
    OtherStepsLeaveLedger(db, now, step);
    if !Balance.IsWorkerStep(step) {
      Bindings.TaskStepsLeaveBindings(db, now, step);
    }
  }

  lemma ReleaseKeepsTerms(db: Database, now: int, x: ExecutionId, final: TaskStatus, e: ExecutionId)
    requires Active(db.reservations, x) && ReleaseCheck(db, x, now).None?
    ensures KeepsTerms(db, Released(db, x, now, final), e)
  {
  }

  lemma MarkKeepsTerms(db: Database, x: ExecutionId, o: Option<Observation>, e: ExecutionId)
    requires x in db.reservations && x in db.executions
    ensures KeepsTerms(db, db.(reservations := db.reservations[x := db.reservations[x].(observed := o)],
                               executions := db.executions[x := db.executions[x].(observed := o)]), e)
  {
  }

  lemma ObserveKeepsTerms(db: Database, x: ExecutionId, o: Observation, e: ExecutionId)
    requires Observe(db, x, o).Ok?
    ensures KeepsTerms(db, Observe(db, x, o).value.0, e)
  {
    if Observe(db, x, o).value.1 {
      MarkKeepsTerms(db, x, Some(o), e);
    }
  }

  lemma StepKeepsTerms(db: Database, now: int, step: Step, e: ExecutionId)
    ensures KeepsTerms(db, Apply(db, now, step), e)
  {
    match step
    case DoPlace(p) =>
      if Place(db, p.(now := now)).Ok? {
        PlaceKeepsTerms(db, p.(now := now), e);
      }
    case DoRelease(x, final) =>
      if Active(db.reservations, x) && ReleaseCheck(db, x, now).None? {
        ReleaseKeepsTerms(db, now, x, final, e);
      }
    case DoObserve(x, o) =>
      if Observe(db, x, o).Ok? {
        ObserveKeepsTerms(db, x, o, e);
      }
    case _ => OthersKeepExecutions(db, now, step);
  }

  lemma {:induction false} RunKeepsTerms(db: Database, steps: seq<(int, Step)>, e: ExecutionId)
    ensures KeepsTerms(db, Run(db, steps), e)
    decreases |steps|
  {
    if steps != [] {
      StepKeepsTerms(db, steps[0].0, steps[0].1, e);
      RunKeepsTerms(Apply(db, steps[0].0, steps[0].1), steps[1..], e);
    }
  }

  /** What the placed task would cost at the placement's prices. */
  function Quoted(t: Task, p: Placement, seconds: real): real {
    Cost(Execution(p.task, p.worker, ExactDevice, t.cpu, t.memory, t.gpus, p.prices, Assigned, None, None), seconds)
  }

  lemma PlacedTerms(db: Database, p: Placement)
    requires Place(db, p).Ok?
    ensures p.task in db.tasks && p.execution in Placed(db, p).executions && p.execution in Placed(db, p).reservations
    ensures var t, x, r := db.tasks[p.task], Placed(db, p).executions[p.execution], Placed(db, p).reservations[p.execution];
            && r.project == t.project && r.task == p.task
            && x.cpu == t.cpu && x.memory == t.memory && x.gpus == t.gpus && x.prices == p.prices
  {
  }

  lemma SameTermsSameCost(x: Execution, y: Execution, seconds: real)
    requires x.cpu == y.cpu && x.memory == y.memory && x.gpus == y.gpus && x.prices == y.prices
    ensures Cost(x, seconds) == Cost(y, seconds)
  {
  }

  /** Whatever runs between them, a release bills the resources the task asked for at its placement, at the
      prices of that placement, for the time since its recorded start. */
  lemma BilledAsPlaced(db: Database, p: Placement, steps: seq<(int, Step)>, now: int)
    requires Place(db, p).Ok?
    ensures p.task in db.tasks
    ensures var t, last := db.tasks[p.task], Run(Placed(db, p), steps);
            && p.execution in last.executions && p.execution in last.reservations
            && last.reservations[p.execution].project == t.project && last.reservations[p.execution].task == p.task
            && var started := StartedAt(last, last.reservations[p.execution]);
               Bill(last, p.execution, now) == if started.None? then 0.0 else Quoted(t, p, (now - started.value) as real)
  {
    var t, e := db.tasks[p.task], p.execution;
    PlacedTerms(db, p);
    var placed := Placed(db, p);
    RunKeepsTerms(placed, steps, e);
    var last := Run(placed, steps);
    var started := StartedAt(last, last.reservations[e]);
    if started.Some? {
      SameTermsSameCost(last.executions[e],
                        Execution(p.task, p.worker, ExactDevice, t.cpu, t.memory, t.gpus, p.prices, Assigned, None, None),
                        (now - started.value) as real);
    }
  }
}
