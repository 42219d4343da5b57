/** The outbox lease protocol: dispatchers claim events for a while, then mark them
    processed or failed. Clock readings are inputs of the steps. */
module Outbox {
  import opened Common

  type Id = nat
  type Owner = nat
  type Time = real

  datatype Event = Event(
    createdAt: Time, availableAt: Time, lockedBy: Option<Owner>, lockedUntil: Option<Time>,
    attempts: nat, processedAt: Option<Time>, lastError: Option<string>)

  type Events = map<Id, Event>

  // ------------------------------------------------------------------- queries

  predicate Claimable(e: Event, now: Time) {
    && e.processedAt.None?
    && e.availableAt <= now
    && (e.lockedUntil.None? || e.lockedUntil.value < now)
  }

  /** Rows another transaction holds are skipped, not waited for. */
  function ClaimableIds(events: Events, now: Time, skipped: set<Id>): set<Id> {
    set i | i in events && Claimable(events[i], now) && i !in skipped
  }

  /** The oldest claimable events, oldest first, no more than `limit`. */
  ghost predicate IsOldestBatch(events: Events, now: Time, skipped: set<Id>, limit: nat, batch: seq<Id>) {
    var open := ClaimableIds(events, now, skipped);
    && NoRepeats(batch)
    && (forall i :: 0 <= i < |batch| ==> batch[i] in open)
    && |batch| == Min(limit, |open|)
    && (forall i, j :: 0 <= i < j < |batch| ==> events[batch[i]].createdAt <= events[batch[j]].createdAt)
    && (forall id, other :: id in batch && other in open && other !in batch ==>
          events[id].createdAt <= events[other].createdAt)
  }

  const MAX_ERROR := 4000
  const MAX_DOUBLINGS := 10

  function Pow2(n: nat): nat {
    if n == 0 then 1 else 2 * Pow2(n - 1)
  }

  /** Seconds an event stays unavailable after its `attempts`-th failure. */
  function Backoff(attempts: nat, maxBackoff: real): real
    requires attempts >= 1
  {
    var doubled := Pow2(Min(attempts - 1, MAX_DOUBLINGS)) as real;
    if doubled <= maxBackoff then doubled else maxBackoff
  }

  // --------------------------------------------------------------------- steps

  datatype Step =
    | Add(id: Id, createdAt: Time, availableAt: Time)
    | Claim(batch: seq<Id>, owner: Owner, now: Time, lockSeconds: real)
    | MarkProcessed(id: Id, owner: Owner, now: Time)
    | MarkFailed(id: Id, owner: Owner, error: string, maxBackoff: real, now: Time)

  function Locked(e: Event, owner: Owner, until: Time): Event {
    e.(lockedBy := Some(owner), lockedUntil := Some(until))
  }

  function ProcessedEvent(e: Event, now: Time): Event {
    e.(processedAt := Some(now), lockedBy := None, lockedUntil := None, lastError := None)
  }

  function FailedEvent(e: Event, error: string, maxBackoff: real, now: Time): Event {
    e.(attempts := e.attempts + 1,
       availableAt := now + Backoff(e.attempts + 1, maxBackoff),
       lastError := Some(if |error| <= MAX_ERROR then error else error[..MAX_ERROR]),
       lockedBy := None, lockedUntil := None)
  }

  /** The guard of both mark operations. */
  predicate HoldsLock(events: Events, id: Id, owner: Owner) {
    id in events && events[id].processedAt.None? && events[id].lockedBy == Some(owner)
  }

  function LockAll(events: Events, batch: seq<Id>, owner: Owner, until: Time): Events {
    map i | i in events :: if i in batch then Locked(events[i], owner, until) else events[i]
  }

  function Apply(events: Events, step: Step): Events {
    match step
    case Add(id, createdAt, availableAt) =>
      if id in events then events
      else events[id := Event(createdAt, availableAt, None, None, 0, None, None)]
    case Claim(batch, owner, now, lockSeconds) =>
      if forall i :: i in batch ==> i in events && Claimable(events[i], now)
      then LockAll(events, batch, owner, now + lockSeconds) else events
    case MarkProcessed(id, owner, now) =>
      if HoldsLock(events, id, owner) then events[id := ProcessedEvent(events[id], now)] else events
    case MarkFailed(id, owner, error, maxBackoff, now) =>
      if HoldsLock(events, id, owner) then events[id := FailedEvent(events[id], error, maxBackoff, now)] else events
  }

  function Run(events: Events, steps: seq<Step>): Events {
    if steps == [] then events else Apply(Run(events, steps[..|steps| - 1]), steps[|steps| - 1])
  }

  // ------------------------------------------------- processed exactly once, by the holder

  predicate Succeeds(events: Events, step: Step, id: Id) {
    step.MarkProcessed? && step.id == id && HoldsLock(events, id, step.owner)
  }

  /** How often a run really marked `id` processed. */
  function TimesProcessed(events: Events, steps: seq<Step>, id: Id): nat {
    if steps == [] then 0
    else
      TimesProcessed(events, steps[..|steps| - 1], id) +
      (if Succeeds(Run(events, steps[..|steps| - 1]), steps[|steps| - 1], id) then 1 else 0)
  }

  /** In every run a new event is marked processed at most once, and its row says so exactly
      when that happened. */
  lemma {:induction false} ProcessedAtMostOnce(events: Events, steps: seq<Step>, id: Id)
    requires id in events ==> events[id].processedAt.None?
    ensures TimesProcessed(events, steps, id) <= 1
    ensures id in Run(events, steps) ==>
              (Run(events, steps)[id].processedAt.Some? <==> TimesProcessed(events, steps, id) == 1)
    ensures id !in Run(events, steps) ==> TimesProcessed(events, steps, id) == 0
  {
    if steps != [] {
      ProcessedAtMostOnce(events, steps[..|steps| - 1], id);
    }
  }

  /** A processed row is final: no later step of any kind changes it. */
  lemma {:induction false} ProcessedRowsAreFinal(events: Events, steps: seq<Step>, id: Id)
    requires id in events && events[id].processedAt.Some?
    ensures id in Run(events, steps) && Run(events, steps)[id] == events[id]
  {
    if steps != [] {
      ProcessedRowsAreFinal(events, steps[..|steps| - 1], id);
    }
  }

  // ------------------------------------------------------------------- the lease

  /** A step that does not end `owner`'s lease on `id`: no claim after the deadline, and no
      mark by the owner itself. Everything else is allowed, in any order. */
  predicate RespectsDeadline(step: Step, id: Id, owner: Owner, deadline: Time) {
    match step
    case Add(_, _, _) => true
    case Claim(batch, _, now, _) => id in batch ==> now <= deadline
    case MarkProcessed(i, o, _) => i != id || o != owner
    case MarkFailed(i, o, _, _, _) => i != id || o != owner
  }

  /** An unexpired lock has one owner and blocks every other claim and every other mark: after
      any interleaving before the deadline the event is still exactly as its owner left it. */
  lemma {:induction false} LeaseIsExclusive(events: Events, steps: seq<Step>, id: Id, owner: Owner, deadline: Time)
    requires id in events && events[id].lockedBy == Some(owner) && events[id].lockedUntil == Some(deadline)
    requires events[id].processedAt.None?
    requires forall s :: s in steps ==> RespectsDeadline(s, id, owner, deadline)
    ensures id in Run(events, steps) && Run(events, steps)[id] == events[id]
    ensures HoldsLock(Run(events, steps), id, owner)
  {
    if steps != [] {
      LeaseIsExclusive(events, steps[..|steps| - 1], id, owner, deadline);
      assert RespectsDeadline(steps[|steps| - 1], id, owner, deadline);
    }
  }

  // --------------------------------------------------- what diagnostics may rely on

  /** Claim times, remembered beside the rows. */
  type ClaimTimes = map<Id, Time>

  function NextClaims(claims: ClaimTimes, events: Events, step: Step): ClaimTimes {
    if step.Claim? && (forall i :: i in step.batch ==> i in events && Claimable(events[i], step.now))
    then map i | i in claims.Keys + (set j | j in step.batch) :: if i in step.batch then step.now else claims[i]
    else claims
  }

  function ClaimsOf(events: Events, steps: seq<Step>): ClaimTimes {
    if steps == [] then map[]
    else NextClaims(ClaimsOf(events, steps[..|steps| - 1]), Run(events, steps[..|steps| - 1]), steps[|steps| - 1])
  }

  /** A dispatcher marks an event no earlier, by the database clock, than it claimed it. */
  predicate MarksFollowClaims(steps: seq<Step>) {
    forall k :: 0 <= k < |steps| && steps[k].MarkProcessed? ==>
      var claims := ClaimsOf(map[], steps[..k]);
      steps[k].id in claims ==> claims[steps[k].id] <= steps[k].now
  }

  /** A clock that never runs backwards is more than enough. */
  predicate ClockNeverRunsBackwards(steps: seq<Step>) {
    forall i, j :: 0 <= i < j < |steps| && steps[i].Claim? && steps[j].MarkProcessed? ==> steps[i].now <= steps[j].now
  }

  /** The application clock that stamps `created_at` is not ahead of the database clock of any claim. */
  predicate ClaimsFollowCreation(steps: seq<Step>) {
    forall i, j :: 0 <= i < |steps| && 0 <= j < |steps| && steps[i].Add? && steps[j].Claim? && steps[i].id in steps[j].batch ==>
      steps[i].createdAt <= steps[j].now
  }

  /** What diagnostics require of a processed event. */
  predicate Consistent(e: Event) {
    e.processedAt.Some? ==>
      && e.lockedBy.None? && e.lockedUntil.None? && e.lastError.None?
      && e.createdAt <= e.processedAt.value && e.availableAt <= e.processedAt.value
  }

  ghost predicate AllConsistent(events: Events) {
    forall i :: i in events ==> Consistent(events[i])
  }

  /** Diagnostics report a processed event that is still locked, still carries an error, or was processed
      before it was created or available, and nothing else. */
  lemma ReportedExactly(e: Event)
    ensures !Consistent(e) <==>
            e.processedAt.Some? && (|| e.lockedBy.Some? || e.lockedUntil.Some? || e.lastError.Some?
                                    || e.processedAt.value < e.createdAt || e.processedAt.value < e.availableAt)
  {
  }

  /** The mark looks at neither time. It is consistent exactly when its clock reading has reached both
      the creation and the availability of the event. */
  lemma MarkIsConsistentExactlyWhenDue(events: Events, id: Id, owner: Owner, now: Time)
    requires HoldsLock(events, id, owner)
    ensures Consistent(Apply(events, MarkProcessed(id, owner, now))[id]) <==>
            events[id].createdAt <= now && events[id].availableAt <= now
  {
  }

  /** A mark that takes effect before the event is created or available. */
  predicate MarksEarly(events: Events, step: Step) {
    && step.MarkProcessed? && HoldsLock(events, step.id, step.owner)
    && (step.now < events[step.id].createdAt || step.now < events[step.id].availableAt)
  }

  ghost predicate EarlyAt(steps: seq<Step>, k: nat) {
    k < |steps| && MarksEarly(Run(map[], steps[..k]), steps[k])
  }

  ghost predicate SomeMarkIsEarly(steps: seq<Step>) {
    exists k {:trigger EarlyAt(steps, k)} :: EarlyAt(steps, k)
  }

  /** Over every run, diagnostics find nothing exactly when no mark was made early. */
  lemma {:induction false} RunIsConsistentExactly(steps: seq<Step>)
    ensures AllConsistent(Run(map[], steps)) <==> !SomeMarkIsEarly(steps)
  {
    if steps != [] {
      var front, n := steps[..|steps| - 1], |steps| - 1;
      RunIsConsistentExactly(front);
      StepIsConsistentExactly(Run(map[], front), steps[n]);
      LastMark(steps);
    }
  }

  lemma LastMark(steps: seq<Step>)
    requires steps != []
    ensures var n := |steps| - 1;
            SomeMarkIsEarly(steps) <==> SomeMarkIsEarly(steps[..n]) || MarksEarly(Run(map[], steps[..n]), steps[n])
  {
    var front, n := steps[..|steps| - 1], |steps| - 1;
    forall k: nat | k < n ensures EarlyAt(front, k) <==> EarlyAt(steps, k) {
      assert front[k] == steps[k] && front[..k] == steps[..k];
    }
    assert EarlyAt(steps, n) <==> MarksEarly(Run(map[], front), steps[n]);
  }

  /** One step leaves all events consistent exactly when they were and it is no early mark. */
  lemma StepIsConsistentExactly(events: Events, step: Step)
    ensures AllConsistent(Apply(events, step)) <==> AllConsistent(events) && !MarksEarly(events, step)
  {
    var next := Apply(events, step);
    if MarksEarly(events, step) {
      MarkIsConsistentExactlyWhenDue(events, step.id, step.owner, step.now);
      assert !Consistent(next[step.id]);
    } else if AllConsistent(events) {
      forall i | i in next ensures Consistent(next[i]) {
        assert i in events ==> Consistent(events[i]);
      }
    } else {
      var i :| i in events && !Consistent(events[i]);
      assert next[i] == events[i];
    }
  }

  /** Locked events were claimed once they were available, and at or after their creation. */
  predicate LockedWhenDue(events: Events, claims: ClaimTimes) {
    forall i :: i in events && events[i].lockedBy.Some? ==>
      i in claims && events[i].availableAt <= claims[i] && events[i].createdAt <= claims[i]
  }

  lemma {:induction false} CreationTimesComeFromAdds(steps: seq<Step>, id: Id)
    requires id in Run(map[], steps)
    ensures exists k :: 0 <= k < |steps| && steps[k].Add? && steps[k].id == id && steps[k].createdAt == Run(map[], steps)[id].createdAt
  {
    var front, last := steps[..|steps| - 1], steps[|steps| - 1];
    if id in Run(map[], front) {
      CreationTimesComeFromAdds(front, id);
      var k :| 0 <= k < |front| && front[k].Add? && front[k].id == id && front[k].createdAt == Run(map[], front)[id].createdAt;
      assert steps[k] == front[k];
    } else {
      assert steps[|steps| - 1].Add?;
    }
  }

  /** With marks that follow their claims and claims that follow creation, a processed event has no
      lock and no error and was processed neither before it was created nor before it was available. */
  lemma {:induction false} ProcessedEventsAreConsistent(steps: seq<Step>)
    requires MarksFollowClaims(steps) && ClaimsFollowCreation(steps)
    ensures AllConsistent(Run(map[], steps))
    ensures LockedWhenDue(Run(map[], steps), ClaimsOf(map[], steps))
  {
    if steps != [] {
      var front, last := steps[..|steps| - 1], steps[|steps| - 1];
      assert forall k :: 0 <= k < |front| ==> front[k] == steps[k] && front[..k] == steps[..k];
      ProcessedEventsAreConsistent(front);
      assert steps[|steps| - 1].MarkProcessed? ==>
        (steps[|steps| - 1].id in ClaimsOf(map[], front) ==> ClaimsOf(map[], front)[last.id] <= last.now);
      forall i | last.Claim? && i in last.batch && i in Run(map[], front)
        ensures Run(map[], front)[i].createdAt <= last.now {
        CreationTimesComeFromAdds(front, i);
        assert steps[|steps| - 1] == last;
      }
      StepKeepsConsistent(Run(map[], front), ClaimsOf(map[], front), last);
    }
  }

  lemma StepKeepsConsistent(events: Events, claims: ClaimTimes, step: Step)
    requires AllConsistent(events) && LockedWhenDue(events, claims)
    requires step.MarkProcessed? && step.id in claims ==> claims[step.id] <= step.now
    requires step.Claim? ==> forall i :: i in step.batch && i in events ==> events[i].createdAt <= step.now
    ensures AllConsistent(Apply(events, step))
    ensures LockedWhenDue(Apply(events, step), NextClaims(claims, events, step))
  {
  }

  /** Recorded claim times come from claims of the run. */
  lemma {:induction false} ClaimTimesComeFromClaims(events: Events, steps: seq<Step>, id: Id)
    requires id in ClaimsOf(events, steps)
    ensures exists k :: 0 <= k < |steps| && steps[k].Claim? && steps[k].now == ClaimsOf(events, steps)[id]
  {
    var front, last := steps[..|steps| - 1], steps[|steps| - 1];
    if NextClaims(ClaimsOf(events, front), Run(events, front), last) != ClaimsOf(events, front) && id in last.batch {
      assert steps[|steps| - 1].Claim?;
    } else {
      ClaimTimesComeFromClaims(events, front, id);
      var k :| 0 <= k < |front| && front[k].Claim? && front[k].now == ClaimsOf(events, front)[id];
      assert steps[k].Claim? && steps[k].now == ClaimsOf(events, steps)[id];
    }
  }

  lemma MonotoneClockSuffices(steps: seq<Step>)
    requires ClockNeverRunsBackwards(steps)
    ensures MarksFollowClaims(steps)
  {
    forall k | 0 <= k < |steps| && steps[k].MarkProcessed? && steps[k].id in ClaimsOf(map[], steps[..k])
      ensures ClaimsOf(map[], steps[..k])[steps[k].id] <= steps[k].now
    {
      ClaimTimesComeFromClaims(map[], steps[..k], steps[k].id);
    }
  }

  /** One event added, claimed at `claimed` and marked at `marked`, by one owner. */
  function Story(createdAt: Time, availableAt: Time, claimed: Time, marked: Time): seq<Step> {
    [Add(1, createdAt, availableAt), Claim([1], 7, claimed, 30.0), MarkProcessed(1, 7, marked)]
  }

  lemma StoryEnds(createdAt: Time, availableAt: Time, claimed: Time, marked: Time)
    requires availableAt <= claimed
    ensures 1 in Run(map[], Story(createdAt, availableAt, claimed, marked))
    ensures Run(map[], Story(createdAt, availableAt, claimed, marked))[1]
            == Event(createdAt, availableAt, None, None, 0, Some(marked), None)
  {
    var s0, s1, s2 := Add(1, createdAt, availableAt), Claim([1], 7, claimed, 30.0), MarkProcessed(1, 7, marked);
    var none: Events := map[];
    var added := none[1 := Event(createdAt, availableAt, None, None, 0, None, None)];
    assert [s0][..0] == [] && Run(none, [s0]) == Apply(none, s0) == added;
    assert [s0, s1][..1] == [s0] && Run(none, [s0, s1]) == Apply(added, s1);
    assert Apply(added, s1)[1] == Locked(added[1], 7, claimed + 30.0);
    assert [s0, s1, s2][..2] == [s0, s1] && Run(none, [s0, s1, s2]) == Apply(Apply(added, s1), s2);
  }

  /** A database clock that runs backwards after the claim. */
  lemma BackwardClockBreaksConsistency()
    ensures !AllConsistent(Run(map[], Story(0.0, 10.0, 10.0, 9.0)))
  {
    StoryEnds(0.0, 10.0, 10.0, 9.0);
  }

  /** An application clock ahead of the database clock, which itself never runs backwards. */
  lemma SkewedCreationBreaksConsistency()
    ensures ClockNeverRunsBackwards(Story(20.0, 0.0, 10.0, 12.0))
    ensures !AllConsistent(Run(map[], Story(20.0, 0.0, 10.0, 12.0)))
  {
    StoryEnds(20.0, 0.0, 10.0, 12.0);
  }

  // -------------------------------------------------------------------- back-off

  lemma {:induction false} Pow2Grows(m: nat, n: nat)
    requires m <= n
    ensures 1 <= Pow2(m) <= Pow2(n)
  {
    if n > 0 {
      if m == n { Pow2Grows(m - 1, n - 1); } else { Pow2Grows(m, n - 1); }
    }
  }

  /** Retrying never gets faster, never waits longer than the cap or 1024 seconds. */
  lemma BackoffGrowsToItsCap(attempts: nat, later: nat, maxBackoff: real)
    requires 1 <= attempts <= later
    ensures Backoff(attempts, maxBackoff) <= Backoff(later, maxBackoff) <= maxBackoff
    ensures Backoff(later, maxBackoff) <= 1024.0
    ensures maxBackoff >= 1.0 ==> Backoff(attempts, maxBackoff) >= 1.0
  {
    Pow2Grows(Min(attempts - 1, MAX_DOUBLINGS), Min(later - 1, MAX_DOUBLINGS));
    Pow2Grows(Min(later - 1, MAX_DOUBLINGS), MAX_DOUBLINGS);
    Pow2Grows(0, Min(attempts - 1, MAX_DOUBLINGS));
    assert Pow2(8) == 256;
    assert Pow2(MAX_DOUBLINGS) == 1024;
  }

  // ------------------------------------------------------------------ repository

  lemma LockOneMore(events: Events, batch: seq<Id>, i: nat, owner: Owner, until: Time)
    requires i < |batch| && batch[i] in events
    ensures var locked := LockAll(events, batch[..i], owner, until);
            LockAll(events, batch[..i + 1], owner, until) == locked[batch[i] := Locked(locked[batch[i]], owner, until)]
  {
    assert batch[..i + 1] == batch[..i] + [batch[i]];
  }

  /** The loop over a claimed batch. */
  method LockEach(events: Events, batch: seq<Id>, owner: Owner, until: Time) returns (locked: Events)
    requires forall i :: i in batch ==> i in events
    ensures locked == LockAll(events, batch, owner, until)
  {
    locked := events;
    for i := 0 to |batch|
      invariant locked == LockAll(events, batch[..i], owner, until)
    {
      LockOneMore(events, batch, i, owner, until);
      locked := locked[batch[i] := Locked(locked[batch[i]], owner, until)];
    }
    assert batch[..|batch|] == batch;
  }

  class OutboxRepository {
    var events: Events

    constructor ()
      ensures events == map[]
    {
      events := map[];
    }

    method Add(id: Id, createdAt: Time, availableAt: Time)
      requires id !in events
      modifies this
      ensures events == Apply(old(events), Step.Add(id, createdAt, availableAt))
    {
      events := events[id := Event(createdAt, availableAt, None, None, 0, None, None)];
    }

    /** `claim_batch`: lock the oldest claimable events. */
    method ClaimBatch(owner: Owner, limit: nat, lockSeconds: real, now: Time, skipped: set<Id>)
      returns (batch: seq<Id>)
      modifies this
      ensures IsOldestBatch(old(events), now, skipped, limit, batch)
      ensures events == Apply(old(events), Claim(batch, owner, now, lockSeconds))
    {
      batch := PendingQuery(events, limit, now, skipped);
      events := LockEach(events, batch, owner, now + lockSeconds);
    }

    method MarkProcessed(id: Id, owner: Owner, now: Time) returns (r: Option<Event>)
      modifies this
      ensures events == Apply(old(events), Step.MarkProcessed(id, owner, now))
      ensures r.Some? <==> HoldsLock(old(events), id, owner)
      ensures r.Some? ==> r.value == events[id]
    {
      if id !in events || events[id].processedAt.Some? || events[id].lockedBy != Some(owner) {
        return None;
      }
      var event := events[id];
      event := event.(processedAt := Some(now));
      event := event.(lockedBy := None);
      event := event.(lockedUntil := None);
      event := event.(lastError := None);
      events := events[id := event];
      r := Some(event);
    }

    method MarkFailed(id: Id, owner: Owner, error: string, maxBackoff: real, now: Time)
      modifies this
      ensures events == Apply(old(events), Step.MarkFailed(id, owner, error, maxBackoff, now))
    {
      if id !in events || events[id].processedAt.Some? || events[id].lockedBy != Some(owner) {
        return;
      }
      var event := events[id];
      event := event.(attempts := event.attempts + 1);
      var delay := Backoff(event.attempts, maxBackoff);
      event := event.(availableAt := now + delay);
      event := event.(lastError := Some(if |error| <= MAX_ERROR then error else error[..MAX_ERROR]));
      event := event.(lockedBy := None);
      event := event.(lockedUntil := None);
      events := events[id := event];
    }
  }

  /** `pending_query`: claimable rows ordered by creation, cut at `limit`. */
  method PendingQuery(events: Events, limit: nat, now: Time, skipped: set<Id>) returns (batch: seq<Id>)
    ensures IsOldestBatch(events, now, skipped, limit, batch)
  {
    batch := [];
    var open := ClaimableIds(events, now, skipped);
    var rest := open;
    while |batch| < limit && rest != {}
      invariant rest <= open && |batch| + |rest| == |open| && |batch| <= limit
      invariant forall id :: id in open <==> id in rest || id in batch
      invariant forall i :: 0 <= i < |batch| ==> batch[i] in open && batch[i] !in rest
      invariant NoRepeats(batch)
      invariant forall i, j :: 0 <= i < j < |batch| ==> events[batch[i]].createdAt <= events[batch[j]].createdAt
      invariant forall id, other :: id in batch && other in rest ==> events[id].createdAt <= events[other].createdAt
      decreases rest
    {
      var next := Oldest(events, rest);
      batch := batch + [next];
      rest := rest - {next};
    }
  }

  method Oldest(events: Events, ids: set<Id>) returns (oldest: Id)
    requires ids != {} && ids <= events.Keys
    ensures oldest in ids && forall i :: i in ids ==> events[oldest].createdAt <= events[i].createdAt
  {
    oldest :| oldest in ids;
    var todo := ids - {oldest};
    while todo != {}
      invariant todo <= ids && oldest in ids
      invariant forall i :: i in ids && i !in todo ==> events[oldest].createdAt <= events[i].createdAt
      decreases todo
    {
      var i :| i in todo;
      if events[i].createdAt < events[oldest].createdAt {
        oldest := i;
      }
      todo := todo - {i};
    }
  }
}
