/** Sorting by tuple keys: keys are compared component by component, left to right. */
module Sorting {
  import opened Common

  type Key = seq<real>

  predicate Leq(a: Key, b: Key) {
    a == [] || (b != [] && (a[0] < b[0] || (a[0] == b[0] && Leq(a[1..], b[1..]))))
  }

  /** One component decides, or leaves it to the rest. */
  lemma LeqStep(x: real, a: Key, y: real, b: Key)
    ensures Leq([x] + a, [y] + b) <==> x < y || (x == y && Leq(a, b))
  {
    assert ([x] + a)[1..] == a && ([y] + b)[1..] == b;
  }

  lemma {:induction false} LeqTotal(a: Key, b: Key)
    ensures Leq(a, b) || Leq(b, a)
  {
    if a != [] && b != [] { LeqTotal(a[1..], b[1..]); }
  }

  lemma {:induction false} LeqTransitive(a: Key, b: Key, c: Key)
    requires Leq(a, b) && Leq(b, c)
    ensures Leq(a, c)
  {
    if a != [] && a[0] == b[0] == c[0] { LeqTransitive(a[1..], b[1..], c[1..]); }
  }

  lemma {:induction false} LeqAntisymmetric(a: Key, b: Key)
    requires Leq(a, b) && Leq(b, a)
    ensures a == b
  {
    if a != [] {
      LeqAntisymmetric(a[1..], b[1..]);
      assert a == [a[0]] + a[1..] && b == [b[0]] + b[1..];
    }
  }

  /** A smaller key stays smaller, or equal, on any common prefix. */
  lemma {:induction false} LeqOnPrefix(a: Key, b: Key, n: nat)
    requires Leq(a, b) && n <= |a| && n <= |b|
    ensures Leq(a[..n], b[..n])
  {
    if n > 0 && a[0] == b[0] {
      LeqOnPrefix(a[1..], b[1..], n - 1);
      assert a[..n][1..] == a[1..][..n - 1] && b[..n][1..] == b[1..][..n - 1];
    }
  }

  lemma {:induction false} LeqBehindCommonPrefix(prefix: Key, a: Key, b: Key)
    ensures Leq(prefix + a, prefix + b) <==> Leq(a, b)
  {
    if prefix == [] {
      assert prefix + a == a && prefix + b == b;
    } else {
      assert (prefix + a)[1..] == prefix[1..] + a && (prefix + b)[1..] == prefix[1..] + b;
      LeqBehindCommonPrefix(prefix[1..], a, b);
    }
  }

  ghost predicate AtMostAll<T(!new)>(x: T, s: seq<T>, key: T -> Key) {
    forall y :: y in s ==> Leq(key(x), key(y))
  }

  ghost predicate SortedBy<T(!new)>(s: seq<T>, key: T -> Key) {
    s == [] || (AtMostAll(s[0], s, key) && SortedBy(s[1..], key))
  }

  /** Puts `x` behind every element that does not compare above it. */
  function Insert<T>(s: seq<T>, x: T, key: T -> Key): seq<T> {
    if s == [] || !Leq(key(s[0]), key(x)) then [x] + s
    else [s[0]] + Insert(s[1..], x, key)
  }

  /** A stable sort. */
  function SortBy<T>(s: seq<T>, key: T -> Key): seq<T> {
    if s == [] then [] else Insert(SortBy(s[..|s| - 1], key), s[|s| - 1], key)
  }

  lemma {:induction false} InsertIsPermutation<T>(s: seq<T>, x: T, key: T -> Key)
    ensures multiset(Insert(s, x, key)) == multiset(s) + multiset{x}
  {
    if s != [] {
      assert s == [s[0]] + s[1..];
      InsertIsPermutation(s[1..], x, key);
    }
  }

  lemma {:induction false} SortIsPermutation<T>(s: seq<T>, key: T -> Key)
    ensures multiset(SortBy(s, key)) == multiset(s)
  {
    if s != [] {
      assert s == s[..|s| - 1] + [s[|s| - 1]];
      SortIsPermutation(s[..|s| - 1], key);
      InsertIsPermutation(SortBy(s[..|s| - 1], key), s[|s| - 1], key);
    }
  }

  lemma SameElements<T>(s: seq<T>, t: seq<T>)
    requires multiset(s) == multiset(t)
    ensures |s| == |t| && forall x :: x in s <==> x in t
  {
    forall x ensures x in s <==> x in t {
      assert x in multiset(s) <==> x in multiset(t);
    }
    assert |multiset(s)| == |s| && |multiset(t)| == |t|;
  }

  lemma {:induction false} InsertKeepsSorted<T(!new)>(s: seq<T>, x: T, key: T -> Key)
    requires SortedBy(s, key)
    ensures SortedBy(Insert(s, x, key), key)
  {
    LeqTotal(key(x), key(x));
    if s == [] {
    } else if !Leq(key(s[0]), key(x)) {
      LeqTotal(key(s[0]), key(x));
      forall y | y in [x] + s ensures Leq(key(x), key(y)) {
        if y in s { LeqTransitive(key(x), key(s[0]), key(y)); }
      }
      assert ([x] + s)[1..] == s;
    } else {
      var rest := Insert(s[1..], x, key);
      InsertKeepsSorted(s[1..], x, key);
      InsertIsPermutation(s[1..], x, key);
      forall y | y in [s[0]] + rest ensures Leq(key(s[0]), key(y)) {
        assert y in rest ==> y in multiset(rest);
        assert y == s[0] || y == x || y in s;
      }
      assert ([s[0]] + rest)[1..] == rest;
    }
  }

  /** The sort returns the same elements in ascending key order. */
  lemma {:induction false} SortSorts<T(!new)>(s: seq<T>, key: T -> Key)
    ensures SortedBy(SortBy(s, key), key)
    ensures |SortBy(s, key)| == |s|
    ensures forall x :: x in SortBy(s, key) <==> x in s
  {
    SortIsPermutation(s, key);
    SameElements(SortBy(s, key), s);
    if s != [] {
      SortSorts(s[..|s| - 1], key);
      InsertKeepsSorted(SortBy(s[..|s| - 1], key), s[|s| - 1], key);
    }
  }

  // ------------------------------------------------------------------- ranks and limits

  predicate Before(a: Key, b: Key) {
    !Leq(b, a)
  }

  /** How many elements compare strictly below `t`. */
  function Ahead<T>(s: seq<T>, t: T, key: T -> Key): nat {
    if s == [] then 0 else (if Before(key(s[0]), key(t)) then 1 else 0) + Ahead(s[1..], t, key)
  }

  lemma {:induction false} AheadInserted<T>(s: seq<T>, x: T, t: T, key: T -> Key)
    ensures Ahead(Insert(s, x, key), t, key) == Ahead(s, t, key) + if Before(key(x), key(t)) then 1 else 0
  {
    if s == [] || !Leq(key(s[0]), key(x)) {
      assert ([x] + s)[1..] == s;
    } else {
      AheadInserted(s[1..], x, t, key);
      assert ([s[0]] + Insert(s[1..], x, key))[1..] == Insert(s[1..], x, key);
    }
  }

  lemma {:induction false} AheadAppended<T>(s: seq<T>, x: T, t: T, key: T -> Key)
    ensures Ahead(s + [x], t, key) == Ahead(s, t, key) + if Before(key(x), key(t)) then 1 else 0
  {
    if s == [] {
      assert s + [x] == [x];
    } else {
      AheadAppended(s[1..], x, t, key);
      assert (s + [x])[1..] == s[1..] + [x];
    }
  }

  /** Sorting changes no rank. */
  lemma {:induction false} AheadSorted<T>(s: seq<T>, t: T, key: T -> Key)
    ensures Ahead(SortBy(s, key), t, key) == Ahead(s, t, key)
  {
    if s != [] {
      var front, last := s[..|s| - 1], s[|s| - 1];
      assert s == front + [last];
      AheadSorted(front, t, key);
      AheadInserted(SortBy(front, key), last, t, key);
      AheadAppended(front, last, t, key);
    }
  }

  ghost predicate KeysIdentify<T(!new)>(s: seq<T>, key: T -> Key) {
    NoRepeats(s) && forall x, y :: x in s && y in s && key(x) == key(y) ==> x == y
  }

  lemma {:induction false} NothingAheadOfLeast<T(!new)>(s: seq<T>, t: T, key: T -> Key)
    requires AtMostAll(t, s, key)
    ensures Ahead(s, t, key) == 0
  {
    if s != [] {
      assert s[0] in s && forall y :: y in s[1..] ==> y in s;
      NothingAheadOfLeast(s[1..], t, key);
    }
  }

  /** In a sorted sequence with identifying keys, the rank of an element is its position. */
  lemma {:induction false} RankIsPosition<T(!new)>(s: seq<T>, i: nat, key: T -> Key)
    requires SortedBy(s, key) && KeysIdentify(s, key) && i < |s|
    ensures Ahead(s, s[i], key) == i
  {
    if i == 0 {
      NothingAheadOfLeast(s, s[0], key);
    } else {
      assert s[i] in s && s[0] in s && s[0] != s[i];
      if Leq(key(s[i]), key(s[0])) {
        LeqAntisymmetric(key(s[i]), key(s[0]));
      }
      RankIsPosition(s[1..], i - 1, key);
    }
  }

  lemma {:induction false} CountOfRepeats<T>(s: seq<T>, x: T)
    requires NoRepeats(s)
    ensures multiset(s)[x] <= 1
  {
    if s != [] {
      assert s == [s[0]] + s[1..];
      CountOfRepeats(s[1..], x);
      assert s[0] !in s[1..];
    }
  }

  lemma RepeatCounts<T>(s: seq<T>, i: nat, j: nat)
    requires i < j < |s| && s[i] == s[j]
    ensures multiset(s)[s[i]] >= 2
  {
    assert s == s[..i] + [s[i]] + s[i + 1..j] + [s[j]] + s[j + 1..];
  }

  lemma SortKeepsIdentity<T(!new)>(s: seq<T>, key: T -> Key)
    requires NoRepeats(s)
    ensures NoRepeats(SortBy(s, key))
  {
    var sorted := SortBy(s, key);
    SortIsPermutation(s, key);
    forall i, j | 0 <= i < j < |sorted| ensures sorted[i] != sorted[j] {
      CountOfRepeats(s, sorted[i]);
      if sorted[i] == sorted[j] {
        RepeatCounts(sorted, i, j);
      }
    }
  }

  /** A sort cut at `n` reaches exactly the elements with fewer than `n` ahead of them. */
  lemma LimitReachesExactly<T(!new)>(s: seq<T>, key: T -> Key, n: nat, t: T)
    requires KeysIdentify(s, key)
    ensures var sorted := SortBy(s, key);
            t in (if |sorted| <= n then sorted else sorted[..n]) <==> t in s && Ahead(s, t, key) < n
  {
    var sorted := SortBy(s, key);
    SortSorts(s, key);
    SortKeepsIdentity(s, key);
    AheadSorted(s, t, key);
    if t in s {
      var i :| 0 <= i < |sorted| && sorted[i] == t;
      RankIsPosition(sorted, i, key);
      assert forall k :: 0 <= k < |sorted| && sorted[k] == t ==> k == i;
    }
  }
}
