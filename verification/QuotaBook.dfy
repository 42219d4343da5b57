/** Open reservations against one project's quota, and what the counters owe to them. */
module QuotaBook {
  import opened Accelerators
  import opened Amounts
  import opened Common
  import Q = Quotas

  type Id = nat

  /** An open reservation: its resources, its estimate and the day it was made. */
  datatype Open = Open(request: Q.Request, day: int)

  /** A cost settled on a day. */
  datatype Settled = Settled(day: int, cost: real)

  datatype Book = Book(quota: Q.Quota, open: map<Id, Open>, settled: map<Id, Settled>)

  function AmountOf(r: Q.Request): Amount {
    Amount(1, r.cpu, r.memory, Q.Of(Nvidia, r.gpus, r.vendor), Q.Of(Ascend, r.gpus, r.vendor), r.cost)
  }

  ghost function Held(open: map<Id, Open>): map<Id, Amount> {
    map id | id in open :: AmountOf(open[id].request)
  }

  /** Reservations made on one day. */
  ghost function MadeOn(open: map<Id, Open>, day: int): map<Id, Amount> {
    map id | id in open && open[id].day == day :: AmountOf(open[id].request)
  }

  ghost function SettledOn(settled: map<Id, Settled>, day: int): map<Id, Amount> {
    map id | id in settled && settled[id].day == day :: Amount(0, 0, 0, 0, 0, settled[id].cost)
  }

  // ------------------------------------------------------------------------- invariants

  ghost predicate ValidOpen(open: map<Id, Open>) {
    forall id :: id in open ==> Q.ValidRequest(open[id].request)
  }

  /** What a quota row owes to a sum of open reservations. */
  ghost predicate Owes(c: Q.Counters, s: Amount) {
    c.running == s.tasks && c.cpu == s.cpu && c.memory == s.memory && c.nvidia == s.nvidia && c.ascend == s.ascend
  }

  /** The resource counters are the sums over open reservations. */
  ghost predicate Balanced(b: Book) {
    var c, s := b.quota.counters, Sum(Held(b.open));
    Q.Inv(b.quota) && ValidOpen(b.open) && Owes(c, s)
  }

  /** The daily counters are the estimates still open from the accounting day and the costs settled on it. */
  ghost predicate DailyExact(b: Book) {
    var c := b.quota.counters;
    c.reservedCost == Sum(MadeOn(b.open, c.day)).cost && c.settledCost == Sum(SettledOn(b.settled, c.day)).cost
  }

  /** Nothing in the book is dated after the accounting day. */
  ghost predicate NothingLater(b: Book) {
    && (forall id :: id in b.open ==> b.open[id].day <= b.quota.counters.day)
    && (forall id :: id in b.settled ==> b.settled[id].day <= b.quota.counters.day)
  }

  // ------------------------------------------------------------------------- operations

  datatype Event =
    | Make(id: Id, request: Q.Request)
    | Close(id: Id, cost: real)
    | Other(op: Q.Operation)

  function Settling(o: Open, cost: real): Q.Settlement {
    Q.Settlement(o.request, Some(o.day), cost)
  }

  /** Fresh reservations take unused ids; a close passes its reservation's own creation day; the
      remaining operations start and settle nothing. */
  predicate Proper(b: Book, e: Event) {
    match e
    case Make(id, _) => id !in b.open && id !in b.settled
    case Close(id, cost) => id in b.open && id !in b.settled && cost >= 0.0
    case Other(op) => !op.Start? && !op.Settle?
  }

  function Apply(b: Book, day: int, e: Event): Book
    requires Proper(b, e)
  {
    match e
    case Make(id, r) =>
      (match Q.Reserve(b.quota, day, r)
       case Ok(c) => Book(b.quota.(counters := c), b.open[id := Open(r, day)], b.settled)
       case Err(_) => b)
    case Close(id, cost) =>
      (match Q.Release(b.quota, day, Settling(b.open[id], cost))
       case Ok(c) => Book(b.quota.(counters := c), b.open - {id}, b.settled[id := Settled(day, cost)])
       case Err(_) => b)
    case Other(op) => b.(quota := Q.Apply(b.quota, day, op))
  }

  // -------------------------------------------------------------------- sums, step by step

  lemma MakeSums(open: map<Id, Open>, id: Id, r: Q.Request, day: int)
    requires id !in open
    ensures Sum(Held(open[id := Open(r, day)])) == Plus(AmountOf(r), Sum(Held(open)))
    ensures Sum(MadeOn(open[id := Open(r, day)], day)) == Plus(AmountOf(r), Sum(MadeOn(open, day)))
  {
    assert Held(open[id := Open(r, day)]) == Held(open)[id := AmountOf(r)];
    assert MadeOn(open[id := Open(r, day)], day) == MadeOn(open, day)[id := AmountOf(r)];
    SumWith(Held(open), id, AmountOf(r));
    SumWith(MadeOn(open, day), id, AmountOf(r));
  }

  lemma CloseSums(open: map<Id, Open>, id: Id)
    requires id in open
    ensures Sum(Held(open)) == Plus(AmountOf(open[id].request), Sum(Held(open - {id})))
  {
    assert Held(open - {id}) == Held(open) - {id};
    SumWithout(Held(open), id);
  }

  lemma CloseDailySums(open: map<Id, Open>, id: Id, day: int)
    requires id in open
    ensures Sum(MadeOn(open, day)) ==
            if open[id].day == day then Plus(AmountOf(open[id].request), Sum(MadeOn(open - {id}, day)))
            else Sum(MadeOn(open - {id}, day))
  {
    assert MadeOn(open - {id}, day) == MadeOn(open, day) - {id};
    if open[id].day == day {
      SumWithout(MadeOn(open, day), id);
    } else {
      assert MadeOn(open, day) - {id} == MadeOn(open, day);
    }
  }

  lemma SettleSums(settled: map<Id, Settled>, id: Id, day: int, cost: real)
    requires id !in settled
    ensures Sum(SettledOn(settled[id := Settled(day, cost)], day)).cost == cost + Sum(SettledOn(settled, day)).cost
  {
    var a := Amount(0, 0, 0, 0, 0, cost);
    assert SettledOn(settled[id := Settled(day, cost)], day) == SettledOn(settled, day)[id := a];
    SumWith(SettledOn(settled, day), id, a);
  }

  // ------------------------------------------------------------------- resources balance

  lemma OpenIsCovered(b: Book, id: Id)
    requires Balanced(b) && id in b.open
    ensures Q.Covers(b.quota.counters, b.open[id].request)
  {
    assert NonNegative(Held(b.open));
    MemberIsCovered(Held(b.open), id);
    Q.TypesCoverRequest(b.open[id].request.gpus, b.open[id].request.vendor);
  }

  lemma StartOwes(q: Q.Quota, day: int, r: Q.Request, s: Amount)
    requires Owes(q.counters, s) && Q.Reserve(q, day, r).Ok?
    ensures Owes(Q.Reserve(q, day, r).value, Plus(AmountOf(r), s))
  {
  }

  lemma SettleOwes(q: Q.Quota, day: int, t: Q.Settlement, s: Amount)
    requires Owes(q.counters, Plus(AmountOf(t.request), s)) && Q.Release(q, day, t).Ok?
    ensures Owes(Q.Release(q, day, t).value, s)
  {
  }

  /** The remaining operations touch neither the resources in use nor, beyond the roll, the daily counters. */
  lemma OtherOnlyRolls(q: Q.Quota, day: int, op: Q.Operation)
    requires !op.Start? && !op.Settle? && Q.Outcome(q, day, op).Ok?
    ensures var c, next := Q.Roll(q.counters, day), Q.Apply(q, day, op).counters;
            next.day == c.day && next.reservedCost == c.reservedCost && next.settledCost == c.settledCost
    ensures forall s :: Owes(q.counters, s) ==> Owes(Q.Apply(q, day, op).counters, s)
  {
  }

  lemma StepKeepsOwed(b: Book, day: int, e: Event)
    requires Owes(b.quota.counters, Sum(Held(b.open))) && Proper(b, e)
    ensures Owes(Apply(b, day, e).quota.counters, Sum(Held(Apply(b, day, e).open)))
  {
    match e
    case Make(id, r) =>
      if Q.Reserve(b.quota, day, r).Ok? {
        MakeSums(b.open, id, r, day);
        StartOwes(b.quota, day, r, Sum(Held(b.open)));
      }
    case Close(id, cost) =>
      if Q.Release(b.quota, day, Settling(b.open[id], cost)).Ok? {
        CloseSums(b.open, id);
        SettleOwes(b.quota, day, Settling(b.open[id], cost), Sum(Held(b.open - {id})));
      }
    case Other(op) =>
      if Q.Outcome(b.quota, day, op).Ok? {
        OtherOnlyRolls(b.quota, day, op);
      }
  }

  function QuotaOperation(b: Book, e: Event): Q.Operation
    requires Proper(b, e)
  {
    match e
    case Make(_, r) => Q.Start(r)
    case Close(id, cost) => Q.Settle(Settling(b.open[id], cost))
    case Other(op) => op
  }

  lemma EventIsQuotaOperation(b: Book, day: int, e: Event)
    requires Proper(b, e)
    ensures Apply(b, day, e).quota == Q.Apply(b.quota, day, QuotaOperation(b, e))
  {
  }

  lemma StepKeepsBalance(b: Book, day: int, e: Event)
    requires Balanced(b) && Proper(b, e)
    ensures Balanced(Apply(b, day, e))
  {
    EventIsQuotaOperation(b, day, e);
    Q.StepKeepsInv(b.quota, day, QuotaOperation(b, e));
    StepKeepsOwed(b, day, e);
    StepKeepsValidOpen(b, day, e);
  }

  lemma StepKeepsValidOpen(b: Book, day: int, e: Event)
    requires ValidOpen(b.open) && Proper(b, e)
    ensures ValidOpen(Apply(b, day, e).open)
  {
  }

  // ------------------------------------------------------------------- the daily counters

  /** The book once its row is rolled to a day no earlier than its own. */
  lemma RollForward(b: Book, day: int)
    requires DailyExact(b) && NothingLater(b) && day >= b.quota.counters.day
    ensures var c := Q.Roll(b.quota.counters, day);
            && c.day == day && c.reservedCost == Sum(MadeOn(b.open, day)).cost
            && c.settledCost == Sum(SettledOn(b.settled, day)).cost
  {
  }

  lemma TodayIsCovered(b: Book, id: Id, day: int)
    requires ValidOpen(b.open) && id in b.open && b.open[id].day == day
    ensures b.open[id].request.cost <= Sum(MadeOn(b.open, day)).cost
  {
    assert NonNegative(MadeOn(b.open, day));
    MemberIsCovered(MadeOn(b.open, day), id);
  }

  /** A close on any later day, with its own creation day, never fails. */
  lemma CloseNeverFails(b: Book, id: Id, cost: real, day: int)
    requires Balanced(b) && DailyExact(b) && NothingLater(b) && Proper(b, Close(id, cost)) && day >= b.quota.counters.day
    ensures Q.Release(b.quota, day, Settling(b.open[id], cost)).Ok?
    ensures id !in Apply(b, day, Close(id, cost)).open && id in Apply(b, day, Close(id, cost)).settled
  {
    OpenIsCovered(b, id);
    RollForward(b, day);
    if b.open[id].day == day {
      TodayIsCovered(b, id, day);
    }
  }

  ghost predicate Exact(b: Book) {
    Balanced(b) && DailyExact(b) && NothingLater(b)
  }

  lemma StartDaily(q: Q.Quota, day: int, r: Q.Request)
    requires Q.Reserve(q, day, r).Ok?
    ensures var c, next := Q.Roll(q.counters, day), Q.Reserve(q, day, r).value;
            next.day == day && next.reservedCost == c.reservedCost + r.cost && next.settledCost == c.settledCost
  {
  }

  lemma SettleDaily(q: Q.Quota, day: int, o: Open, cost: real)
    requires Q.Release(q, day, Settling(o, cost)).Ok?
    ensures var c, next := Q.Roll(q.counters, day), Q.Release(q, day, Settling(o, cost)).value;
            && next.day == day && next.settledCost == c.settledCost + cost
            && next.reservedCost == c.reservedCost - if o.day == day then o.request.cost else 0.0
  {
  }

  lemma MakeKeepsDaily(b: Book, day: int, id: Id, r: Q.Request)
    requires Exact(b) && Proper(b, Make(id, r)) && day >= b.quota.counters.day
    ensures DailyExact(Apply(b, day, Make(id, r))) && NothingLater(Apply(b, day, Make(id, r)))
  {
    RollForward(b, day);
    MakeSums(b.open, id, r, day);
    if Q.Reserve(b.quota, day, r).Ok? {
      StartDaily(b.quota, day, r);
    }
  }

  lemma CloseKeepsDaily(b: Book, day: int, id: Id, cost: real)
    requires Exact(b) && Proper(b, Close(id, cost)) && day >= b.quota.counters.day
    ensures DailyExact(Apply(b, day, Close(id, cost))) && NothingLater(Apply(b, day, Close(id, cost)))
  {
    CloseNeverFails(b, id, cost, day);
    SettleDaily(b.quota, day, b.open[id], cost);
    RollForward(b, day);
    CloseDailySums(b.open, id, day);
    SettleSums(b.settled, id, day, cost);
  }

  lemma OtherKeepsDaily(b: Book, day: int, op: Q.Operation)
    requires Exact(b) && Proper(b, Other(op)) && Q.Outcome(b.quota, day, op).Ok? && day >= b.quota.counters.day
    ensures DailyExact(Apply(b, day, Other(op))) && NothingLater(Apply(b, day, Other(op)))
  {
    RollForward(b, day);
    OtherOnlyRolls(b.quota, day, op);
  }

  /** Days never go backwards and every event is proper when it happens. */
  ghost predicate Forward(b: Book, run: seq<(int, Event)>)
    decreases |run|
  {
    run != [] ==>
      run[0].0 >= b.quota.counters.day && Proper(b, run[0].1) && Forward(Apply(b, run[0].0, run[0].1), run[1..])
  }

  ghost function Run(b: Book, run: seq<(int, Event)>): Book
    requires Forward(b, run)
    decreases |run|
  {
    if run == [] then b else Run(Apply(b, run[0].0, run[0].1), run[1..])
  }

  lemma StepKeepsExact(b: Book, day: int, e: Event)
    requires Exact(b) && Proper(b, e) && day >= b.quota.counters.day
    ensures Exact(Apply(b, day, e))
  {
    StepKeepsBalance(b, day, e);
    match e
    case Make(id, r) => MakeKeepsDaily(b, day, id, r);
    case Close(id, cost) => CloseKeepsDaily(b, day, id, cost);
    case Other(op) =>
      if Q.Outcome(b.quota, day, op).Ok? {
        OtherKeepsDaily(b, day, op);
      }
  }

  /** Over every run with non-decreasing days, the counters are the sums over open reservations, the
      reserved cost is the estimates still open from the accounting day, and the settled cost is what
      was settled on it. */
  lemma {:induction false} RunsStayExact(b: Book, run: seq<(int, Event)>)
    requires Exact(b) && Forward(b, run)
    ensures Exact(Run(b, run))
    decreases |run|
  {
    if run != [] {
      StepKeepsExact(b, run[0].0, run[0].1);
      RunsStayExact(Apply(b, run[0].0, run[0].1), run[1..]);
    }
  }

  lemma EmptyBookIsExact(limits: Q.Limits, day: int)
    requires Q.ValidLimits(limits)
    ensures Exact(Book(Q.Fresh(limits, day), map[], map[]))
  {
  }

  // ---------------------------------------------------------------------- days backwards

  /** After days that only went forward, on any day: a close that passes its own creation day is refused
      exactly when the day goes back to that creation day while a non-zero estimate is open. */
  lemma CloseSucceedsExactly(b: Book, id: Id, cost: real, day: int)
    requires Exact(b) && Proper(b, Close(id, cost))
    ensures Q.Release(b.quota, day, Settling(b.open[id], cost)).Ok? <==>
            day >= b.quota.counters.day || b.open[id].day != day || b.open[id].request.cost == 0.0
  {
    OpenIsCovered(b, id);
    if day >= b.quota.counters.day {
      CloseNeverFails(b, id, cost, day);
    }
  }

  /** Without an estimate, which is how every caller in the repository reserves, a close succeeds on any
      day of any run, whatever the clocks did before. */
  lemma CloseWithoutEstimateSucceeds(b: Book, id: Id, cost: real, day: int)
    requires Balanced(b) && Proper(b, Close(id, cost)) && b.open[id].request.cost == 0.0
    ensures Q.Release(b.quota, day, Settling(b.open[id], cost)).Ok?
  {
    OpenIsCovered(b, id);
  }

  /** It happens from every state that can reserve: the release would succeed, and no longer does once
      one transaction with a later clock has locked the row in between. */
  lemma DayBackwardsHappens(q: Q.Quota, day: int, later: int, r: Q.Request, cost: real)
    requires Q.Inv(q) && Q.Reserve(q, day, r).Ok? && r.cost > 0.0 && cost >= 0.0 && later != day
    ensures var reserved := q.(counters := Q.Reserve(q, day, r).value);
            && Q.Release(reserved, day, Settling(Open(r, day), cost)).Ok?
            && Q.Release(Q.Apply(reserved, later, Q.Lock), day, Settling(Open(r, day), cost)) == Err(Q.Violation)
  {
    var reserved := q.(counters := Q.Reserve(q, day, r).value);
    Q.StartKeepsInv(q, day, r);
    Q.RollKeepsInv(q, day);
    Q.TypesCoverRequest(r.gpus, r.vendor);
    assert Q.Covers(reserved.counters, r);
    StartDaily(q, day, r);
  }
}
