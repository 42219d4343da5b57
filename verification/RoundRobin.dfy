/** The balanced policy's routing cursor: a 63-bit counter that walks a list of services. */
module RoundRobin {
  const MAX_CURSOR: nat := 0x7fff_ffff_ffff_ffff

  // --------------------------------------------------------------- the counter

  /** The CASE expression of `_advance_routing_cursor`: it never computes a value above the maximum. */
  function Advance(cursor: nat, steps: nat): nat {
    var wrapThreshold := MAX_CURSOR - steps;
    if cursor > wrapThreshold then cursor - wrapThreshold - 1 else cursor + steps
  }

  /** Inside the column's range the expression is addition modulo 2^63. */
  lemma AdvanceIsModular(cursor: nat, steps: nat)
    requires cursor <= MAX_CURSOR && 1 <= steps <= MAX_CURSOR
    ensures Advance(cursor, steps) <= MAX_CURSOR
    ensures Advance(cursor, steps) == (cursor + steps) % (MAX_CURSOR + 1)
  {
  }

  function Total(steps: seq<nat>): nat {
    if steps == [] then 0 else Total(steps[..|steps| - 1]) + steps[|steps| - 1]
  }

  ghost predicate ValidSteps(steps: seq<nat>) {
    forall i :: 0 <= i < |steps| ==> 1 <= steps[i] <= MAX_CURSOR
  }

  ghost function AdvanceAll(cursor: nat, steps: seq<nat>): (r: nat)
    requires cursor <= MAX_CURSOR && ValidSteps(steps)
    ensures r <= MAX_CURSOR
  {
    if steps == [] then cursor
    else
      Advance(AdvanceAll(cursor, steps[..|steps| - 1]), steps[|steps| - 1])
  }

  /** After any number of advances the cursor is the total number of steps modulo 2^63. */
  lemma {:induction false} CursorCountsSteps(cursor: nat, steps: seq<nat>)
    requires cursor <= MAX_CURSOR && ValidSteps(steps)
    ensures AdvanceAll(cursor, steps) == (cursor + Total(steps)) % (MAX_CURSOR + 1)
  {
    if steps != [] {
      var front, last := steps[..|steps| - 1], steps[|steps| - 1];
      CursorCountsSteps(cursor, front);
      AdvanceIsModular(AdvanceAll(cursor, front), last);
    }
  }

  // ----------------------------------------------------------- walking the list

  /** Start of a rotation of `n` services. */
  function Start(cursor: nat, n: nat): nat
    requires n > 0
  {
    cursor % n
  }

  /** How far `j` is from the start of the rotation. */
  function Distance(cursor: nat, n: nat, j: nat): nat
    requires j < n
  {
    var start := Start(cursor, n);
    if start <= j then j - start else j + n - start
  }

  /** `routable[j]` says whether service `j` can take the call; some service can. */
  ghost predicate IsCall(n: nat, routable: set<nat>) {
    routable != {} && forall j :: j in routable ==> j < n
  }

  /** The service a call picks: the routable one nearest to the start of the rotation. */
  ghost predicate Picks(cursor: nat, n: nat, routable: set<nat>, j: nat) {
    && IsCall(n, routable) && j in routable
    && forall i :: i in routable ==> Distance(cursor, n, j) <= Distance(cursor, n, i)
  }

  lemma {:induction false} ModuloIsUnique(a: nat, q: nat, n: nat, r: nat)
    requires n > 0 && r < n && a == q * n + r
    ensures a % n == r
  {
    var d: int := a / n - q;
    assert a == (a / n) * n + a % n;
    assert d * n == r - a % n;
    assert -(n as int) < d * n < n;
    assert d >= 1 ==> d * n >= n;
    assert d <= -1 ==> d * n <= -(n as int);
  }

  lemma StartAfter(cursor: nat, n: nat, x: nat)
    requires n > 0 && x <= n
    ensures Start(cursor + x, n) == (if Start(cursor, n) + x < n then Start(cursor, n) + x else Start(cursor, n) + x - n)
  {
    var q, r := cursor / n, cursor % n;
    assert cursor == q * n + r;
    if r + x < n {
      ModuloIsUnique(cursor + x, q, n, r + x);
    } else {
      assert (q + 1) * n == q * n + n;
      ModuloIsUnique(cursor + x, q + 1, n, r + x - n);
    }
  }

  /** Advancing past a nearer service brings `j` nearer by as many steps. */
  lemma AdvanceShortensDistance(cursor: nat, n: nat, i: nat, j: nat)
    requires i < n && j < n && Distance(cursor, n, i) < Distance(cursor, n, j)
    ensures Distance(cursor + Distance(cursor, n, i) + 1, n, j) == Distance(cursor, n, j) - Distance(cursor, n, i) - 1
  {
    StartAfter(cursor, n, Distance(cursor, n, i) + 1);
  }

  /** A run of successful calls: `picked[k]` serves `calls[k]`, starting from `cursor`. */
  ghost predicate Serves(cursor: nat, n: nat, calls: seq<set<nat>>, picked: seq<nat>)
    decreases |calls|
  {
    && |picked| == |calls|
    && (calls == [] ||
        (Picks(cursor, n, calls[0], picked[0]) &&
         Serves(Advance(cursor, Distance(cursor, n, picked[0]) + 1), n, calls[1..], picked[1..])))
  }

  ghost predicate AlwaysRoutable(calls: seq<set<nat>>, j: nat) {
    forall k :: 0 <= k < |calls| ==> j in calls[k]
  }

  /** The walk goes on smoothly for `steps` more steps: the cursor does not wrap, or the wrap is
      invisible because the list length divides 2^63. */
  ghost predicate Smooth(cursor: nat, n: nat, steps: nat)
    requires n > 0
  {
    cursor + steps <= MAX_CURSOR || (MAX_CURSOR + 1) % n == 0
  }

  lemma SmoothAdvance(cursor: nat, n: nat, x: nat)
    requires 0 < n <= MAX_CURSOR && cursor <= MAX_CURSOR && 1 <= x <= n && Smooth(cursor, n, x)
    ensures Advance(cursor, x) <= MAX_CURSOR && Start(Advance(cursor, x), n) == Start(cursor + x, n)
  {
    if cursor + x > MAX_CURSOR {
      MultipleDropsOut(Advance(cursor, x), MAX_CURSOR + 1, n);
    }
  }

  lemma MultipleDropsOut(a: nat, multiple: nat, n: nat)
    requires n > 0 && multiple % n == 0
    ensures (a + multiple) % n == a % n
  {
    var p, q, r := a / n, multiple / n, a % n;
    assert a == p * n + r && multiple == q * n;
    assert (p + q) * n == p * n + q * n;
    ModuloIsUnique(a + multiple, p + q, n, r);
  }

  /** On a smooth stretch, a service that stays routable is chosen by the time the calls have
      walked its distance. */
  lemma {:induction false} ChosenWithinDistance(cursor: nat, n: nat, calls: seq<set<nat>>, picked: seq<nat>, j: nat)
    requires j < n <= MAX_CURSOR && cursor <= MAX_CURSOR
    requires Serves(cursor, n, calls, picked) && AlwaysRoutable(calls, j)
    requires |calls| > Distance(cursor, n, j)
    requires Smooth(cursor, n, Distance(cursor, n, j) + 1)
    ensures j in picked[..Distance(cursor, n, j) + 1]
    decreases |calls|
  {
    var d, i := Distance(cursor, n, j), picked[0];
    assert j in calls[0] && i in calls[0];
    if Distance(cursor, n, i) == d {
      SameDistance(cursor, n, i, j);
      assert picked[0] in picked[..d + 1];
    } else {
      var step := Distance(cursor, n, i) + 1;
      AdvanceShortensDistance(cursor, n, i, j);
      SmoothAdvance(cursor, n, step);
      var next := Advance(cursor, step);
      assert Distance(next, n, j) == d - step;
      assert forall k :: 0 <= k < |calls[1..]| ==> calls[1..][k] == calls[k + 1];
      ChosenWithinDistance(next, n, calls[1..], picked[1..], j);
      InTail(picked, j, d - step + 1, d + 1);
    }
  }

  lemma SameDistance(cursor: nat, n: nat, i: nat, j: nat)
    requires i < n && j < n && Distance(cursor, n, i) == Distance(cursor, n, j)
    ensures i == j
  {
  }

  /** `n` successful calls suffice whenever the cursor does not wrap meanwhile. */
  lemma ChosenWithinNCalls(cursor: nat, n: nat, calls: seq<set<nat>>, picked: seq<nat>, j: nat)
    requires j < n <= MAX_CURSOR && cursor <= MAX_CURSOR
    requires Serves(cursor, n, calls, picked) && AlwaysRoutable(calls, j)
    requires |calls| >= n && Smooth(cursor, n, n)
    ensures j in picked[..n]
  {
    var d := Distance(cursor, n, j);
    ChosenWithinDistance(cursor, n, calls, picked, j);
    var k :| 0 <= k < d + 1 && picked[..d + 1][k] == j;
    assert picked[..n][k] == j;
  }

  /** Across the wrap the walk may jump once, so `2 n` successful calls always suffice: from any
      cursor, for every list short enough for the cursor to hold it twice. */
  lemma {:induction false} ChosenWithinTwoRounds(
      cursor: nat, n: nat, calls: seq<set<nat>>, picked: seq<nat>, j: nat, budget: nat)
    requires j < n <= MAX_CURSOR / 2 && cursor <= MAX_CURSOR
    requires Serves(cursor, n, calls, picked) && AlwaysRoutable(calls, j)
    requires Distance(cursor, n, j) < budget && |calls| >= budget + n
    ensures j in picked[..budget + n]
    decreases |calls|
  {
    var d, i := Distance(cursor, n, j), picked[0];
    assert j in calls[0] && i in calls[0];
    var step := Distance(cursor, n, i) + 1;
    if Distance(cursor, n, i) == d {
      SameDistance(cursor, n, i, j);
      assert picked[0] in picked[..budget + n];
    } else {
      var next := Advance(cursor, step);
      assert forall k :: 0 <= k < |calls[1..]| ==> calls[1..][k] == calls[k + 1];
      if cursor + step <= MAX_CURSOR {
        AdvanceShortensDistance(cursor, n, i, j);
        ChosenWithinTwoRounds(next, n, calls[1..], picked[1..], j, budget - 1);
      } else {
        assert next < n;
        ChosenWithinNCalls(next, n, calls[1..], picked[1..], j);
      }
      InTail(picked, j, if cursor + step <= MAX_CURSOR then budget - 1 + n else n, budget + n);
    }
  }

  lemma ChosenWithinTwiceN(cursor: nat, n: nat, calls: seq<set<nat>>, picked: seq<nat>, j: nat)
    requires j < n <= MAX_CURSOR / 2 && cursor <= MAX_CURSOR
    requires Serves(cursor, n, calls, picked) && AlwaysRoutable(calls, j) && |calls| >= 2 * n
    ensures j in picked[..2 * n]
  {
    ChosenWithinTwoRounds(cursor, n, calls, picked, j, n);
  }

  // ------------------------------------------------- exactly when n calls suffice

  ghost function Everyone(n: nat): (all: set<nat>)
    ensures forall i: nat :: i in all <==> i < n
  {
    if n == 0 then {} else Everyone(n - 1) + {n - 1}
  }

  ghost function Repeat(n: nat, m: nat): seq<set<nat>> {
    if m == 0 then [] else [Everyone(n)] + Repeat(n, m - 1)
  }

  ghost function UpFrom(k: nat, m: nat): seq<nat>
    decreases m
  {
    if m == 0 then [] else [k] + UpFrom(k + 1, m - 1)
  }

  lemma {:induction false} RepeatIsRoutable(n: nat, m: nat, j: nat)
    requires j < n
    ensures |Repeat(n, m)| == m && AlwaysRoutable(Repeat(n, m), j)
  {
    if m > 0 { RepeatIsRoutable(n, m - 1, j); }
  }

  lemma {:induction false} UpFromStaysBelow(k: nat, m: nat)
    ensures |UpFrom(k, m)| == m && forall x :: x in UpFrom(k, m) ==> x < k + m
    decreases m
  {
    if m > 0 { UpFromStaysBelow(k + 1, m - 1); }
  }

  lemma PicksStart(cursor: nat, n: nat)
    requires n > 0
    ensures Picks(cursor, n, Everyone(n), Start(cursor, n)) && Distance(cursor, n, Start(cursor, n)) == 0
  {
  }

  /** With every service routable, calls from cursor `k` serve `k`, `k + 1`, and so on. */
  lemma {:induction false} EveryoneServedInTurn(n: nat, k: nat, m: nat)
    requires 0 < n <= MAX_CURSOR && k + m <= n
    ensures Serves(k, n, Repeat(n, m), UpFrom(k, m))
    decreases m
  {
    UpFromStaysBelow(k, m);
    RepeatIsRoutable(n, m, 0);
    if m > 0 {
      ModuloIsUnique(k, 0, n, k);
      PicksStart(k, n);
      EveryoneServedInTurn(n, k + 1, m - 1);
      assert Repeat(n, m)[1..] == Repeat(n, m - 1) && UpFrom(k, m)[1..] == UpFrom(k + 1, m - 1);
    }
  }

  /** If the length does not divide 2^63, the wrap makes the last service miss its turn. */
  lemma WrapSkipsLast(n: nat) returns (calls: seq<set<nat>>, picked: seq<nat>)
    requires 2 <= n <= MAX_CURSOR && (MAX_CURSOR + 1) % n != 0
    ensures |calls| == n && Serves(MAX_CURSOR, n, calls, picked) && AlwaysRoutable(calls, n - 1)
    ensures n - 1 !in picked[..n]
  {
    var first := Start(MAX_CURSOR, n);
    calls, picked := Repeat(n, n), [first] + UpFrom(0, n - 1);
    RepeatIsRoutable(n, n, n - 1);
    UpFromStaysBelow(0, n - 1);
    PicksStart(MAX_CURSOR, n);
    EveryoneServedInTurn(n, 0, n - 1);
    assert calls[1..] == Repeat(n, n - 1) && picked[1..] == UpFrom(0, n - 1);
    assert Advance(MAX_CURSOR, 1) == 0;
    LastStartMeansDivides(MAX_CURSOR, n);
    assert picked[..n] == picked;
    assert forall x :: x in picked ==> x == first || x in UpFrom(0, n - 1);
  }

  lemma LastStartMeansDivides(cursor: nat, n: nat)
    requires n > 0
    ensures Start(cursor, n) == n - 1 ==> (cursor + 1) % n == 0
  {
    if Start(cursor, n) == n - 1 {
      StartAfter(cursor, n, 1);
    }
  }

  ghost predicate NCallsAlwaysSuffice(n: nat) {
    forall cursor: nat, calls, picked, j: nat ::
      (cursor <= MAX_CURSOR && j < n && |calls| >= n && Serves(cursor, n, calls, picked) && AlwaysRoutable(calls, j)) ==>
        j in picked[..n]
  }

  /** Fairness within `n` calls from every cursor value holds exactly for the list lengths that
      divide 2^63; for any other length the wrap can cost one service its turn. */
  lemma NCallsSufficeExactlyForDivisors(n: nat)
    requires 1 <= n <= MAX_CURSOR
    ensures NCallsAlwaysSuffice(n) <==> (MAX_CURSOR + 1) % n == 0
  {
    if (MAX_CURSOR + 1) % n == 0 {
      forall cursor: nat, calls, picked, j: nat
        | cursor <= MAX_CURSOR && j < n && |calls| >= n && Serves(cursor, n, calls, picked) && AlwaysRoutable(calls, j)
        ensures j in picked[..n]
      {
        ChosenWithinNCalls(cursor, n, calls, picked, j);
      }
    } else {
      var calls, picked := WrapSkipsLast(n);
      assert Serves(MAX_CURSOR, n, calls, picked) && AlwaysRoutable(calls, n - 1);
    }
  }

  lemma InTail(picked: seq<nat>, j: nat, short: nat, long: nat)
    requires picked != [] && short + 1 <= long <= |picked|
    requires j in picked[1..][..short]
    ensures j in picked[..long]
  {
  }
}
