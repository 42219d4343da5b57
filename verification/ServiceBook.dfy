/** Services and the share of their project's quota that their desired replicas hold. */
module ServiceBook {
  import opened Accelerators
  import opened Amounts
  import opened Common
  import Q = Quotas

  type Id = nat

  datatype Service = Service(cpu: nat, memory: nat, gpus: nat, vendor: Option<Vendor>, desired: nat)

  datatype Book = Book(quota: Q.Quota, services: map<Id, Service>)

  /** What a service's desired replicas hold. */
  function AmountOf(s: Service): Amount {
    Amount(s.desired, s.cpu * s.desired, s.memory * s.desired, Typed(s, Nvidia) * s.desired, Typed(s, Ascend) * s.desired, 0.0)
  }

  function Typed(s: Service, vendor: Vendor): nat {
    if Q.Normalized(s.gpus, s.vendor) == Some(vendor) then s.gpus else 0
  }

  /** A service with replicas counts once. */
  function PresenceOf(s: Service): Amount {
    NONE.(tasks := Q.Present(s.desired))
  }

  ghost function Held(services: map<Id, Service>): map<Id, Amount> {
    map id | id in services :: AmountOf(services[id])
  }

  ghost function Present(services: map<Id, Service>): map<Id, Amount> {
    map id | id in services :: PresenceOf(services[id])
  }

  ghost predicate Owes(c: Q.Counters, held: Amount, present: Amount) {
    && c.replicas == held.tasks && c.serviceCpu == held.cpu && c.serviceMemory == held.memory
    && c.serviceNvidia == held.nvidia && c.serviceAscend == held.ascend && c.serviceGpus == Devices(held)
    && c.services == present.tasks
  }

  /** The service counters are the sums over services, within limits. */
  ghost predicate Balanced(b: Book) {
    Q.Inv(b.quota) && Owes(b.quota.counters, Sum(Held(b.services)), Sum(Present(b.services)))
  }

  // ------------------------------------------------------------------------- operations

  function Move(s: Service, current: nat): Q.Commitment {
    Q.Commitment(s.cpu, s.memory, s.gpus, s.vendor, current, s.desired)
  }

  /** Creating a service commits its desired replicas from none; scaling one replaces what it held. */
  function Put(b: Book, day: int, id: Id, s: Service, current: nat): Result<Book, Q.Error> {
    match Q.ReplaceCommitment(b.quota, day, Move(s, current))
    case Ok(c) => Ok(Book(b.quota.(counters := c), b.services[id := s]))
    case Err(e) => Err(e)
  }

  function Create(b: Book, day: int, id: Id, s: Service): Result<Book, Q.Error>
    requires id !in b.services
  {
    Put(b, day, id, s, 0)
  }

  function Scale(b: Book, day: int, id: Id, desired: nat): Result<Book, Q.Error>
    requires id in b.services
  {
    var s := b.services[id];
    if s.desired == desired then Ok(b) else Put(b, day, id, s.(desired := desired), s.desired)
  }

  // ------------------------------------------------------------------------ conservation

  /** What a service holds before a move: nothing, or the same unit at its current replicas. */
  function Before(services: map<Id, Service>, id: Id): Amount {
    if id in services then AmountOf(services[id]) else NONE
  }

  function PresentBefore(services: map<Id, Service>, id: Id): Amount {
    if id in services then PresenceOf(services[id]) else NONE
  }

  lemma SumsAfterPut(services: map<Id, Service>, id: Id, s: Service)
    ensures Plus(Before(services, id), Sum(Held(services[id := s]))) == Plus(AmountOf(s), Sum(Held(services)))
    ensures Plus(PresentBefore(services, id), Sum(Present(services[id := s]))) == Plus(PresenceOf(s), Sum(Present(services)))
  {
    assert Held(services[id := s]) == Held(services)[id := AmountOf(s)];
    assert Present(services[id := s]) == Present(services)[id := PresenceOf(s)];
    SumReplaced(Held(services), id, AmountOf(s));
    SumReplaced(Present(services), id, PresenceOf(s));
  }

  /** The quota moves by exactly the difference of what the service holds. */
  lemma CommittedMoves(c: Q.Counters, s: Service, current: nat, held: Amount, present: Amount, held': Amount, present': Amount)
    requires Owes(c, held, present)
    requires Plus(AmountOf(s.(desired := current)), held') == Plus(AmountOf(s), held)
    requires present'.tasks + Q.Present(current) == Q.Present(s.desired) + present.tasks
    ensures Owes(Q.Committed(c, Move(s, current)), held', present')
  {
  }

  lemma AmountIsNonNegative(s: Service)
    ensures Leq(NONE, AmountOf(s)) && Leq(NONE, PresenceOf(s))
  {
  }

  lemma SumsAreCovered(services: map<Id, Service>, c: Q.Counters)
    requires Owes(c, Sum(Held(services)), Sum(Present(services)))
    ensures Q.CommitmentCovered(c)
  {
    forall id | id in services ensures Leq(NONE, AmountOf(services[id])) && Leq(NONE, PresenceOf(services[id])) {
      AmountIsNonNegative(services[id]);
    }
    SumIsNonNegative(Held(services));
    SumIsNonNegative(Present(services));
  }

  lemma RollOwes(c: Q.Counters, day: int, held: Amount, present: Amount)
    requires Owes(c, held, present)
    ensures Owes(Q.Roll(c, day), held, present)
  {
  }

  lemma PutMoves(b: Book, day: int, id: Id, s: Service, current: nat)
    requires Balanced(b)
    requires if id in b.services then b.services[id] == s.(desired := current) else current == 0
    ensures var services := b.services[id := s];
            Owes(Q.Committed(Q.Roll(b.quota.counters, day), Move(s, current)), Sum(Held(services)), Sum(Present(services)))
  {
    SumsAfterPut(b.services, id, s);
    RollOwes(b.quota.counters, day, Sum(Held(b.services)), Sum(Present(b.services)));
    NothingAtZero(s);
    var services := b.services[id := s];
    CommittedMoves(Q.Roll(b.quota.counters, day), s, current, Sum(Held(b.services)), Sum(Present(b.services)),
                   Sum(Held(services)), Sum(Present(services)));
  }

  lemma NothingAtZero(s: Service)
    ensures AmountOf(s.(desired := 0)) == NONE && PresenceOf(s.(desired := 0)) == NONE
  {
  }

  /** A covered commitment is refused only by a limit, and otherwise moves the counters. */
  lemma CoveredCommitment(q: Q.Quota, day: int, m: Q.Commitment)
    requires Q.Inv(q) && Q.ValidCommitment(m) && Q.CommitmentCovered(Q.Committed(Q.Roll(q.counters, day), m))
    ensures match Q.ReplaceCommitment(q, day, m)
            case Ok(c) => c == Q.Committed(Q.Roll(q.counters, day), m)
            case Err(e) => e.Exceeded?
  {
  }

  lemma CommitKeepsQuota(q: Q.Quota, day: int, m: Q.Commitment)
    requires Q.Inv(q) && Q.ReplaceCommitment(q, day, m).Ok?
    ensures Q.Inv(q.(counters := Q.ReplaceCommitment(q, day, m).value))
  {
    Q.CommitKeepsInv(q, day, m);
    assert Q.Apply(q, day, Q.Commit(m)) == q.(counters := Q.ReplaceCommitment(q, day, m).value);
  }

  /** Creating or scaling a service never finds the counters below what it holds, and keeps them the
      sums over all services; it is refused only by an exceeded limit. */
  lemma PutKeepsBalance(b: Book, day: int, id: Id, s: Service, current: nat)
    requires Balanced(b)
    requires if id in b.services then b.services[id] == s.(desired := current) else current == 0
    ensures Put(b, day, id, s, current).Err? ==> Put(b, day, id, s, current).error.Exceeded?
    ensures Put(b, day, id, s, current).Ok? ==> Balanced(Put(b, day, id, s, current).value)
  {
    PutMoves(b, day, id, s, current);
    SumsAreCovered(b.services[id := s], Q.Committed(Q.Roll(b.quota.counters, day), Move(s, current)));
    CoveredCommitment(b.quota, day, Move(s, current));
    if Put(b, day, id, s, current).Ok? {
      CommitKeepsQuota(b.quota, day, Move(s, current));
    }
  }

  // -------------------------------------------------------------------------------- runs

  datatype Event = Created(id: Id, service: Service) | Scaled(id: Id, desired: nat) | Changed(op: Q.Operation)

  /** Events on unknown or already used ids, and operations on service commitments by other means, are
      not offered by the repositories. */
  function Apply(b: Book, day: int, e: Event): Book {
    match e
    case Created(id, s) =>
      if id in b.services then b else (var r := Create(b, day, id, s); if r.Ok? then r.value else b)
    case Scaled(id, desired) =>
      if id !in b.services then b else (var r := Scale(b, day, id, desired); if r.Ok? then r.value else b)
    case Changed(op) =>
      if op.Commit? then b else b.(quota := Q.Apply(b.quota, day, op))
  }

  function Run(b: Book, events: seq<(int, Event)>): Book
    decreases |events|
  {
    if events == [] then b else Run(Apply(b, events[0].0, events[0].1), events[1..])
  }

  /** Operations on tasks and limits leave the service counters alone. */
  lemma OthersLeaveServices(q: Q.Quota, day: int, op: Q.Operation, held: Amount, present: Amount)
    requires Owes(q.counters, held, present) && !op.Commit?
    ensures Owes(Q.Apply(q, day, op).counters, held, present)
  {
  }

  lemma StepKeepsBalance(b: Book, day: int, e: Event)
    requires Balanced(b)
    ensures Balanced(Apply(b, day, e))
  {
    match e
    case Created(id, s) =>
      if id !in b.services {
        PutKeepsBalance(b, day, id, s, 0);
      }
    case Scaled(id, desired) =>
      if id in b.services && b.services[id].desired != desired {
        PutKeepsBalance(b, day, id, b.services[id].(desired := desired), b.services[id].desired);
      }
    case Changed(op) =>
      if !op.Commit? {
        Q.StepKeepsInv(b.quota, day, op);
        OthersLeaveServices(b.quota, day, op, Sum(Held(b.services)), Sum(Present(b.services)));
      }
  }

  /** In every run of service and task operations, the service counters of the shared quota are the sums
      over the services' desired replicas. */
  lemma {:induction false} RunsStayBalanced(b: Book, events: seq<(int, Event)>)
    requires Balanced(b)
    ensures Balanced(Run(b, events))
    decreases |events|
  {
    if events != [] {
      StepKeepsBalance(b, events[0].0, events[0].1);
      RunsStayBalanced(Apply(b, events[0].0, events[0].1), events[1..]);
    }
  }

  /** The same from a project's first quota row and no service. */
  lemma EveryRunStaysBalanced(limits: Q.Limits, day: int, events: seq<(int, Event)>)
    requires Q.ValidLimits(limits)
    ensures Balanced(Run(Book(Q.Fresh(limits, day), map[]), events))
  {
    var first := Book(Q.Fresh(limits, day), map[]);
    assert Held(first.services) == map[] && Present(first.services) == map[];
    RunsStayBalanced(first, events);
  }

  ghost function WithReplicas(services: map<Id, Service>): set<Id> {
    set id | id in services && services[id].desired >= 1
  }

  lemma PresenceWithout(services: map<Id, Service>, id: Id)
    requires id in services
    ensures Sum(Present(services)).tasks == Sum(Present(services - {id})).tasks + Q.Present(services[id].desired)
  {
    assert Present(services - {id}) == Present(services) - {id};
    SumWithout(Present(services), id);
  }

  lemma ReplicasWithout(services: map<Id, Service>, id: Id)
    requires id in services
    ensures |WithReplicas(services)| == |WithReplicas(services - {id})| + if services[id].desired >= 1 then 1 else 0
  {
    var rest := WithReplicas(services - {id});
    assert id !in rest;
    assert WithReplicas(services) == if services[id].desired >= 1 then rest + {id} else rest;
  }

  lemma {:induction false} PresenceCounts(services: map<Id, Service>)
    ensures Sum(Present(services)).tasks == |WithReplicas(services)|
    decreases |services|
  {
    if services == map[] {
      assert Present(services) == map[] && WithReplicas(services) == {};
    } else {
      var id := Pick(services);
      PresenceCounts(services - {id});
      PresenceWithout(services, id);
      ReplicasWithout(services, id);
    }
  }

  /** The services counter of a balanced book is the number of services that want replicas. */
  lemma CountsServices(b: Book)
    requires Balanced(b)
    ensures b.quota.counters.services == |WithReplicas(b.services)|
  {
    PresenceCounts(b.services);
  }
}
