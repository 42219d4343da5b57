/** Resource amounts and their sums over tables of reservations. */
module Amounts {
  import opened Common

  /** What reservations hold: executions, millicores, megabytes, accelerators by vendor, estimated cost. */
  datatype Amount = Amount(tasks: int, cpu: int, memory: int, nvidia: int, ascend: int, cost: real)

  const NONE := Amount(0, 0, 0, 0, 0, 0.0)

  function Devices(a: Amount): int {
    a.nvidia + a.ascend
  }

  function Plus(a: Amount, b: Amount): Amount {
    Amount(a.tasks + b.tasks, a.cpu + b.cpu, a.memory + b.memory, a.nvidia + b.nvidia, a.ascend + b.ascend, a.cost + b.cost)
  }

  ghost predicate Leq(a: Amount, b: Amount) {
    a.tasks <= b.tasks && a.cpu <= b.cpu && a.memory <= b.memory && a.nvidia <= b.nvidia && a.ascend <= b.ascend && a.cost <= b.cost
  }

  ghost function Sum<K>(m: map<K, Amount>): Amount {
    if m == map[] then NONE
    else
      var k := Pick(m);
      Plus(m[k], Sum(m - {k}))
  }

  lemma {:induction false} SumWithout<K>(m: map<K, Amount>, k: K)
    requires k in m
    ensures Sum(m) == Plus(m[k], Sum(m - {k}))
    decreases |m|
  {
    var j := Pick(m);
    if j != k {
      SumWithout(m - {j}, k);
      SumWithout(m - {k}, j);
      assert m - {j} - {k} == m - {k} - {j};
    }
  }

  lemma SumWith<K>(m: map<K, Amount>, k: K, a: Amount)
    requires k !in m
    ensures Sum(m[k := a]) == Plus(a, Sum(m))
  {
    SumWithout(m[k := a], k);
    assert m[k := a] - {k} == m;
  }

  /** Replacing one entry, or adding it, moves the sum by the difference. */
  lemma SumReplaced<K>(m: map<K, Amount>, k: K, a: Amount)
    ensures Plus(if k in m then m[k] else NONE, Sum(m[k := a])) == Plus(a, Sum(m))
  {
    SumWithout(m[k := a], k);
    assert m[k := a] - {k} == m - {k};
    if k in m {
      SumWithout(m, k);
    } else {
      assert m - {k} == m;
    }
  }

  ghost predicate NonNegative<K>(m: map<K, Amount>) {
    forall k :: k in m ==> Leq(NONE, m[k])
  }

  lemma {:induction false} SumIsNonNegative<K>(m: map<K, Amount>)
    requires NonNegative(m)
    ensures Leq(NONE, Sum(m))
    decreases |m|
  {
    if m != map[] {
      SumIsNonNegative(m - {Pick(m)});
    }
  }

  /** A member of a table of non-negative amounts is covered by the table's sum. */
  lemma MemberIsCovered<K>(m: map<K, Amount>, k: K)
    requires k in m && NonNegative(m)
    ensures Leq(m[k], Sum(m))
  {
    SumWithout(m, k);
    SumIsNonNegative(m - {k});
  }
}
