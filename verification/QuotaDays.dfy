/** Daily cost under clocks that may run backwards: what the reserved cost of a quota row is after any run. */
module QuotaDays {
  import opened Amounts
  import opened Common
  import opened QuotaBook
  import Q = Quotas

  /** A book, the open reservations made since its row last changed its day, and the estimates given back
      since then by reservations of that day that were made before. */
  datatype Track = Track(book: Book, recent: set<Id>, strayed: real)

  /** What `recent` and `strayed` are once the row is on `day`. */
  function RecentOn(tr: Track, day: int): set<Id> {
    if tr.book.quota.counters.day == day then tr.recent else {}
  }

  function StrayedOn(tr: Track, day: int): real {
    if tr.book.quota.counters.day == day then tr.strayed else 0.0
  }

  ghost function Estimates(open: map<Id, Open>, ids: set<Id>): map<Id, Amount> {
    map id | id in open && id in ids :: AmountOf(open[id].request)
  }

  ghost function EstimatesOf(open: map<Id, Open>, ids: set<Id>): real {
    Sum(Estimates(open, ids)).cost
  }

  /** The reserved cost is the open estimates made since the row last changed its day, less what strayed. */
  ghost predicate Follows(tr: Track) {
    var b := tr.book;
    && tr.strayed >= 0.0
    && (forall id :: id in tr.recent ==> id in b.open && b.open[id].day == b.quota.counters.day)
    && b.quota.counters.reservedCost == EstimatesOf(b.open, tr.recent) - tr.strayed
  }

  predicate Succeeds(b: Book, day: int, e: Event)
    requires Proper(b, e)
  {
    Q.Outcome(b.quota, day, QuotaOperation(b, e)).Ok?
  }

  function Step(tr: Track, day: int, e: Event): Track
    requires Proper(tr.book, e)
  {
    var b, recent, strayed := tr.book, RecentOn(tr, day), StrayedOn(tr, day);
    if !Succeeds(b, day, e) then tr
    else
      match e
      case Make(id, _) => Track(Apply(b, day, e), recent + {id}, strayed)
      case Close(id, _) =>
        Track(Apply(b, day, e), recent - {id},
              if id !in recent && b.open[id].day == day then strayed + b.open[id].request.cost else strayed)
      case Other(_) => Track(Apply(b, day, e), recent, strayed)
  }

  // --------------------------------------------------------------------------- one step

  lemma Rolled(tr: Track, day: int)
    requires Follows(tr)
    ensures Q.Roll(tr.book.quota.counters, day).reservedCost
            == EstimatesOf(tr.book.open, RecentOn(tr, day)) - StrayedOn(tr, day)
  {
    if tr.book.quota.counters.day != day {
      assert Estimates(tr.book.open, {}) == map[];
    }
  }

  lemma OneMoreEstimate(open: map<Id, Open>, ids: set<Id>, id: Id, o: Open)
    requires id !in open && ids <= open.Keys
    ensures EstimatesOf(open[id := o], ids + {id}) == EstimatesOf(open, ids) + o.request.cost
  {
    assert Estimates(open[id := o], ids + {id}) == Estimates(open, ids)[id := AmountOf(o.request)];
    SumWith(Estimates(open, ids), id, AmountOf(o.request));
  }

  lemma OneEstimateLess(open: map<Id, Open>, ids: set<Id>, id: Id)
    requires id in open
    ensures EstimatesOf(open, ids) ==
            EstimatesOf(open - {id}, ids - {id}) + if id in ids then open[id].request.cost else 0.0
  {
    var rest := Estimates(open - {id}, ids - {id});
    if id in ids {
      assert rest == Estimates(open, ids) - {id};
      SumWithout(Estimates(open, ids), id);
    } else {
      assert rest == Estimates(open, ids);
    }
  }

  lemma MakeFollows(tr: Track, day: int, id: Id, r: Q.Request)
    requires Follows(tr) && Proper(tr.book, Make(id, r)) && Succeeds(tr.book, day, Make(id, r))
    ensures Follows(Step(tr, day, Make(id, r)))
  {
    Rolled(tr, day);
    StartDaily(tr.book.quota, day, r);
    OneMoreEstimate(tr.book.open, RecentOn(tr, day), id, Open(r, day));
  }

  lemma CloseFollows(tr: Track, day: int, id: Id, cost: real)
    requires Follows(tr) && ValidOpen(tr.book.open) && Proper(tr.book, Close(id, cost)) && Succeeds(tr.book, day, Close(id, cost))
    ensures Follows(Step(tr, day, Close(id, cost)))
  {
    Rolled(tr, day);
    SettleDaily(tr.book.quota, day, tr.book.open[id], cost);
    OneEstimateLess(tr.book.open, RecentOn(tr, day), id);
  }

  lemma OtherFollows(tr: Track, day: int, op: Q.Operation)
    requires Follows(tr) && Proper(tr.book, Other(op)) && Succeeds(tr.book, day, Other(op))
    ensures Follows(Step(tr, day, Other(op)))
  {
    Rolled(tr, day);
    OtherOnlyRolls(tr.book.quota, day, op);
  }

  lemma StepFollows(tr: Track, day: int, e: Event)
    requires Follows(tr) && Balanced(tr.book) && Proper(tr.book, e)
    ensures Follows(Step(tr, day, e)) && Balanced(Step(tr, day, e).book) && Step(tr, day, e).book == Apply(tr.book, day, e)
  {
    StepKeepsBalance(tr.book, day, e);
    if Succeeds(tr.book, day, e) {
      match e
      case Make(id, r) => MakeFollows(tr, day, id, r);
      case Close(id, cost) => CloseFollows(tr, day, id, cost);
      case Other(op) => OtherFollows(tr, day, op);
    }
  }

  // --------------------------------------------------------------------------- every run

  /** Every event is proper when it happens; the days are arbitrary. */
  ghost predicate Possible(tr: Track, run: seq<(int, Event)>)
    decreases |run|
  {
    run != [] ==> Proper(tr.book, run[0].1) && Possible(Step(tr, run[0].0, run[0].1), run[1..])
  }

  ghost function After(tr: Track, run: seq<(int, Event)>): Track
    requires Possible(tr, run)
    decreases |run|
  {
    if run == [] then tr else After(Step(tr, run[0].0, run[0].1), run[1..])
  }

  lemma {:induction false} RunFollows(tr: Track, run: seq<(int, Event)>)
    requires Follows(tr) && Balanced(tr.book) && Possible(tr, run)
    ensures Follows(After(tr, run)) && Balanced(After(tr, run).book)
    decreases |run|
  {
    if run != [] {
      StepFollows(tr, run[0].0, run[0].1);
      RunFollows(Step(tr, run[0].0, run[0].1), run[1..]);
    }
  }

  function Beginning(limits: Q.Limits, day: int): Track {
    Track(Book(Q.Fresh(limits, day), map[], map[]), {}, 0.0)
  }

  /** Over every run, on whatever days, the resource counters are the sums over open reservations and the
      reserved cost is the open estimates made since the row last changed its day, less what strayed. */
  lemma EveryRunFollows(limits: Q.Limits, day: int, run: seq<(int, Event)>)
    requires Q.ValidLimits(limits) && Possible(Beginning(limits, day), run)
    ensures Follows(After(Beginning(limits, day), run)) && Balanced(After(Beginning(limits, day), run).book)
  {
    EmptyBookIsExact(limits, day);
    assert Estimates(map[], {}) == map[];
    RunFollows(Beginning(limits, day), run);
  }

  /** After every such run, a close on any day is refused exactly when the reservation was made on that day
      and its estimate exceeds what is then reserved. */
  lemma CloseRefusedExactly(tr: Track, id: Id, cost: real, day: int)
    requires Follows(tr) && Balanced(tr.book) && Proper(tr.book, Close(id, cost))
    ensures Q.Release(tr.book.quota, day, Settling(tr.book.open[id], cost)).Err? <==>
            && tr.book.open[id].day == day
            && tr.book.open[id].request.cost > EstimatesOf(tr.book.open, RecentOn(tr, day)) - StrayedOn(tr, day)
  {
    OpenIsCovered(tr.book, id);
    Rolled(tr, day);
  }

  // ------------------------------------------------------------------ what straying can do

  lemma UnlimitedReserves(q: Q.Quota, day: int, r: Q.Request)
    requires Q.Inv(q) && q.limits == Q.UNLIMITED && q.counters.queued >= 1 && Q.ValidRequest(r)
    ensures Q.Reserve(q, day, r).Ok? && Q.Reserve(q, day, r).value.queued == q.counters.queued - 1
  {
    Q.ReserveAdmitsExactly(q, day, r);
  }

  /** A reservation is made. */
  lemma Made(tr: Track, day: int, id: Id, r: Q.Request)
    requires Follows(tr) && Balanced(tr.book) && Proper(tr.book, Make(id, r)) && Q.ValidRequest(r)
    requires tr.book.quota.limits == Q.UNLIMITED && tr.book.quota.counters.queued >= 1
    ensures var next, b := Step(tr, day, Make(id, r)), tr.book;
            && Follows(next) && Balanced(next.book)
            && next.book.open == b.open[id := Open(r, day)] && next.book.settled == b.settled
            && next.recent == RecentOn(tr, day) + {id} && next.strayed == StrayedOn(tr, day)
            && next.book.quota.limits == Q.UNLIMITED && next.book.quota.counters.day == day
            && next.book.quota.counters.queued == b.quota.counters.queued - 1
  {
    UnlimitedReserves(tr.book.quota, day, r);
    StartDaily(tr.book.quota, day, r);
    StepFollows(tr, day, Make(id, r));
  }

  /** The row is locked on another day: nothing recent or strayed is left. */
  lemma MovedAway(tr: Track, day: int)
    requires Follows(tr) && Balanced(tr.book) && tr.book.quota.counters.day != day
    ensures var next, b := Step(tr, day, Other(Q.Lock)), tr.book;
            && Follows(next) && Balanced(next.book) && next.book.open == b.open && next.book.settled == b.settled
            && next.recent == {} && next.strayed == 0.0
            && next.book.quota == b.quota.(counters := Q.Roll(b.quota.counters, day))
  {
    StepFollows(tr, day, Other(Q.Lock));
  }

  lemma OneEstimate(open: map<Id, Open>, id: Id)
    requires id in open
    ensures EstimatesOf(open, {id}) == open[id].request.cost
  {
    var none: map<Id, Amount> := map[];
    assert Estimates(open, {id}) == none[id := AmountOf(open[id].request)];
    SumWith(none, id, AmountOf(open[id].request));
  }

  /** The row is back on the day, with an older and a newer reservation of it. */
  ghost predicate Back(tr: Track, day: int, r: Q.Request, s: Q.Request) {
    && Follows(tr) && Balanced(tr.book) && tr.book.quota.counters.day == day && tr.recent == {1} && tr.strayed == 0.0
    && tr.book.open == map[0 := Open(r, day), 1 := Open(s, day)] && tr.book.settled == map[]
  }

  /** Nothing is reserved yet, and two tasks are queued. */
  ghost predicate Idle(tr: Track) {
    && Follows(tr) && Balanced(tr.book) && tr.book.quota.limits == Q.UNLIMITED && tr.book.quota.counters.queued >= 2
    && tr.book.open == map[] && tr.book.settled == map[]
  }

  /** A reservation, a transaction of another day, and a second reservation. */
  ghost function ThereAndBack(tr: Track, day: int, away: int, r: Q.Request, s: Q.Request): Track
    requires Idle(tr)
  {
    Step(Step(Step(tr, day, Make(0, r)), away, Other(Q.Lock)), day, Make(1, s))
  }

  lemma GoesAndComesBack(tr: Track, day: int, away: int, r: Q.Request, s: Q.Request)
    requires Idle(tr) && away != day && Q.ValidRequest(r) && Q.ValidRequest(s)
    ensures Back(ThereAndBack(tr, day, away, r, s), day, r, s)
  {
    Made(tr, day, 0, r);
    MovedAway(Step(tr, day, Make(0, r)), away);
    Made(Step(Step(tr, day, Make(0, r)), away, Other(Q.Lock)), day, 1, s);
  }

  /** A reservation made today may be refused on the same day: an older reservation of the day, closed
      since the row came back, took its estimate from the newer one's. */
  lemma StrayCloseRefusesRecent(back: Track, day: int, r: Q.Request, s: Q.Request, cost: real)
    requires Back(back, day, r, s) && 0.0 < r.cost <= s.cost && cost >= 0.0
    ensures Succeeds(back.book, day, Close(0, cost))
    ensures var last := Step(back, day, Close(0, cost));
            && last.book.quota.counters.day == day && last.recent == {1} && last.book.open == map[1 := Open(s, day)]
            && Q.Release(last.book.quota, day, Settling(Open(s, day), cost)).Err?
  {
    OneEstimate(back.book.open, 1);
    CloseRefusedExactly(back, 0, cost, day);
    StepFollows(back, day, Close(0, cost));
    SettleDaily(back.book.quota, day, back.book.open[0], cost);
    var last := Step(back, day, Close(0, cost));
    assert last.book.open == map[1 := Open(s, day)];
    OneEstimate(last.book.open, 1);
    CloseRefusedExactly(last, 1, cost, day);
  }

  /** A project's first row with two submitted tasks. */
  ghost function TwoQueued(day: int): (tr: Track)
    ensures Idle(tr)
  {
    var first := Beginning(Q.UNLIMITED, day);
    EveryRunFollows(Q.UNLIMITED, day, []);
    StepFollows(first, day, Other(Q.Admit));
    StepFollows(Step(first, day, Other(Q.Admit)), day, Other(Q.Admit));
    Step(Step(first, day, Other(Q.Admit)), day, Other(Q.Admit))
  }

  /** Such a run from a project's first row. */
  lemma RecentCloseRefused(day: int, away: int, r: Q.Request, s: Q.Request, cost: real)
    requires away != day && Q.ValidRequest(r) && Q.ValidRequest(s) && 0.0 < r.cost <= s.cost && cost >= 0.0
    ensures var back := ThereAndBack(TwoQueued(day), day, away, r, s);
            && Back(back, day, r, s) && Succeeds(back.book, day, Close(0, cost))
            && Q.Release(Step(back, day, Close(0, cost)).book.quota, day, Settling(Open(s, day), cost)).Err?
  {
    GoesAndComesBack(TwoQueued(day), day, away, r, s);
    StrayCloseRefusesRecent(ThereAndBack(TwoQueued(day), day, away, r, s), day, r, s, cost);
  }
}
