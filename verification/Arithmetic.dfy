/** Floor division and multiplication, one step at a time. */
module Arithmetic {

  lemma {:induction false} Distribute(c: int, x: int, y: int)
    ensures c * (x + y) == c * x + c * y
  {
  }

  lemma ScaleUp(c: int, x: int, y: int)
    requires c >= 1 && x < y
    ensures c * x + c <= c * y
  {
    Distribute(c, x, y - x);
    Positive(c, y - x);
  }

  lemma {:induction false} Positive(c: int, x: int)
    requires c >= 1 && x >= 1
    ensures c * x >= c
    decreases x
  {
    if x > 1 {
      Positive(c, x - 1);
      Distribute(c, x - 1, 1);
    }
  }

  /** Scaling by a positive factor keeps the order, both ways. */
  lemma ScaleKeepsOrder(c: int, x: int, y: int)
    requires c >= 1
    ensures c * x <= c * y <==> x <= y
  {
    if x > y {
      ScaleUp(c, y, x);
    } else if x < y {
      ScaleUp(c, x, y);
    }
  }

  lemma DivisionIsUnique(n: int, c: int, quotient: int, rest: int)
    requires c >= 1 && n == c * quotient + rest && 0 <= rest < c
    ensures n / c == quotient
  {
    var other := n / c;
    assert n == c * other + n % c;
    if other < quotient {
      ScaleUp(c, other, quotient);
    } else if other > quotient {
      ScaleUp(c, quotient, other);
    }
  }

  lemma OneFewer(n: int, c: int)
    requires c >= 1
    ensures (n - c) / c == n / c - 1
  {
    Distribute(c, n / c, -1);
    DivisionIsUnique(n - c, c, n / c - 1, n % c);
  }

  /** A share of `total` among `d` reaches `c` exactly when the total covers all of them. */
  lemma ShareReaches(total: int, c: int, d: int)
    requires d >= 1
    ensures total / d >= c <==> total >= d * c
  {
    var share := total / d;
    assert total == d * share + total % d;
    if share >= c {
      ScaleKeepsOrder(d, c, share);
    } else {
      ScaleUp(d, share, c);
    }
  }
}
