/** Result types and picks shared by every component. */
module Common {

  datatype Option<+T> = None | Some(value: T)

  datatype Result<+T, +E> = Ok(value: T) | Err(error: E)

  function Max(x: int, y: int): int {
    if x >= y then x else y
  }

  function Min(x: int, y: int): int {
    if x <= y then x else y
  }

  /** The member of a singleton. */
  function TheMember<T(==)>(s: set<T>): (x: T)
    requires |s| == 1
    ensures s == {x}
  {
    OneMember(s);
    var x :| x in s;
    x
  }

  lemma OneMember<T>(s: set<T>)
    requires |s| == 1
    ensures exists x :: s == {x}
  {
    var x :| x in s;
    assert |s - {x}| == 0;
  }

  /** Some key of a map. */
  ghost function Pick<K, V>(m: map<K, V>): (k: K)
    requires m != map[]
    ensures k in m
  {
    var k :| k in m;
    k
  }

  lemma TakenOut<T>(s: seq<T>, i: nat)
    requires i < |s|
    ensures multiset(s) == multiset(s[..i] + s[i + 1..]) + multiset{s[i]}
  {
    assert s == s[..i] + [s[i]] + s[i + 1..];
  }

  predicate NoRepeats<T(==)>(s: seq<T>) {
    forall i, j :: 0 <= i < j < |s| ==> s[i] != s[j]
  }

  /** The elements that satisfy a test, in order. */
  function Keep<T(!new)>(s: seq<T>, keep: T -> bool): (kept: seq<T>)
    ensures forall x :: x in kept <==> x in s && keep(x)
    ensures |kept| <= |s|
  {
    if s == [] then []
    else
      var rest := Keep(s[1..], keep);
      if keep(s[0]) then [s[0]] + rest else rest
  }
}
