/** Order and division of products, which the solver does not see on its own. */
module Arithmetic {

  lemma MulMonotone(a: int, b: int, m: nat)
    requires a <= b
    ensures a * m <= b * m
  {
  }

  lemma DivMonotone(a: int, b: int, d: nat)
    requires a <= b && d > 0
    ensures a / d <= b / d
  {
    var p, q := a / d, b / d;
    assert a == p * d + a % d && b == q * d + b % d;
    if p > q {
      MulMonotone(q + 1, p, d);
      assert false;
    }
  }

  /** Quotient and remainder are unique. */
  lemma DivIs(a: int, q: int, r: nat, d: nat)
    requires d > 0 && a == q * d + r && r < d
    ensures a / d == q
  {
    var p := a / d;
    assert a == p * d + a % d;
    if p > q {
      MulMonotone(q + 1, p, d);
      assert false;
    } else if p < q {
      MulMonotone(p + 1, q, d);
      assert false;
    }
  }
}
