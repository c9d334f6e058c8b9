/** Integer square roots and the quadratic-funding bound. */
module QuadraticFunding {
  import opened Host

  ghost predicate IsFloorSqrt(n: int, r: int) {
    r >= 0 && r * r <= n < (r + 1) * (r + 1)
  }

  /** The floor square root by counting up: the reference for Newton's method. */
  ghost function FloorSqrt(n: nat): (r: nat)
    ensures IsFloorSqrt(n, r)
  {
    if n == 0 then 0 else
      var r := FloorSqrt(n - 1);
      if (r + 1) * (r + 1) <= n then r + 1 else r
  }

  lemma FloorSqrtIsUnique(n: int, r: int, s: int)
    requires IsFloorSqrt(n, r) && IsFloorSqrt(n, s)
    ensures r == s
  {
    if r < s {
      SquareGrows(r + 1, s);
    } else if s < r {
      SquareGrows(s + 1, r);
    }
  }

  /** Integer division as Rust does it: towards zero. */
  function TruncDiv(a: int, b: int): int
    requires b > 0
  {
    if a >= 0 then a / b else -(-a / b)
  }

  /** One Newton step never falls below the root: (x + n/x)/2 + 1 is past it. */
  lemma NewtonStaysAbove(n: int, x: int, q: int, y: int)
    requires n > 0 && x > 0 && n < x * (q + 1) && y == (x + q) / 2
    ensures (y + 1) * (y + 1) > n
  {
    var z := y + 1;
    assert 2 * z >= x + q + 1;
    assert (2 * z) * (2 * z) >= (x + q + 1) * (x + q + 1) by {
      SquareGrows(x + q + 1, 2 * z);
    }
    assert (x + q + 1) * (x + q + 1) - 4 * (x * (q + 1)) == (x - q - 1) * (x - q - 1);
    SquareIsNonNegative(x - q - 1);
  }

  lemma SquareIsNonNegative(a: int)
    ensures a * a >= 0
  {
  }

  lemma SquareGrows(a: int, b: int)
    requires 0 <= a <= b
    ensures a * a <= b * b
  {
    assert a * a <= a * b <= b * b;
  }

  /** A fixed point from above is the root. */
  lemma NewtonStopsAtRoot(n: int, x: int, q: int)
    requires x > 0 && x * q <= n && (x + q) / 2 >= x
    ensures x * x <= n
  {
    ScaleUp(x, x, q);
  }

  lemma NewtonInRange(n: int, x: int, q: int)
    requires 1 <= x <= n && x * q <= n < x * (q + 1)
    ensures 1 <= q && x + q <= n + 1
  {
    if q <= 0 {
      ScaleUp(x, q + 1, 1);
    }
    ScaleUp(x - 1, 0, q - 1);
    assert (x - 1) * (q - 1) == x * q - x - q + 1;
  }

  lemma Quotient(n: int, x: int)
    requires x > 0
    ensures x * (n / x) <= n < x * (n / x + 1)
  {
    assert n == x * (n / x) + n % x;
  }

  /** The exact floor square root of every non-negative amount, except that the
      largest i128 overflows in the first `x + 1`. Negative input is returned. */
  method Sqrt(n: i128) returns (r: Option<int>)
    ensures 0 <= n < I128_MAX ==> r == Some(FloorSqrt(n))
    ensures n == I128_MAX ==> r == None
    ensures n < 0 ==> r == Some(n)
  {
    if n == 0 {
      return Some(0);
    }
    var x: int := n;
    if x + 1 > I128_MAX {
      return None;
    }
    var y := TruncDiv(x + 1, 2);
    if n > 0 {
      assert n / n == 1;
    }
    while y < x
      invariant n < 0 ==> x == n && y >= x
      invariant n > 0 ==> 1 <= x <= n && y == (x + n / x) / 2 && (x + 1) * (x + 1) > n
      decreases x
    {
      var q := n / x;
      Quotient(n, x);
      NewtonStaysAbove(n, x, q, y);
      NewtonInRange(n, x, q);
      x := y;
      Quotient(n, x);
      NewtonInRange(n, x, n / x);
      assert x + n / x <= I128_MAX;
      y := TruncDiv(x + n / x, 2);
    }
    if n > 0 {
      Quotient(n, x);
      NewtonStopsAtRoot(n, x, n / x);
      FloorSqrtIsUnique(n, x, FloorSqrt(n));
    }
    r := Some(x);
  }

  // ---- The match ----

  function Sum(s: seq<int>): int {
    if s == [] then 0 else Sum(s[..|s| - 1]) + s[|s| - 1]
  }

  ghost function SumOfRoots(s: seq<int>): int
    requires forall i :: 0 <= i < |s| ==> s[i] >= 0
  {
    if s == [] then 0 else SumOfRoots(s[..|s| - 1]) + FloorSqrt(s[|s| - 1])
  }

  /** Cauchy-Schwarz: the squared sum of roots is at most the number of amounts
      times their sum. */
  lemma {:induction false} RootsSquared(s: seq<int>)
    requires forall i :: 0 <= i < |s| ==> s[i] >= 0
    ensures 0 <= SumOfRoots(s) && 0 <= Sum(s)
    ensures SumOfRoots(s) * SumOfRoots(s) <= |s| * Sum(s)
  {
    if s != [] {
      var rest, a := s[..|s| - 1], s[|s| - 1];
      RootsSquared(rest);
      OneMoreDonor(SumOfRoots(rest), |rest|, Sum(rest), FloorSqrt(a), a);
    }
  }

  lemma OneMoreDonor(roots: int, n: int, raised: int, r: int, a: int)
    requires roots >= 0 && n >= 0 && raised >= 0 && r >= 0
    requires roots * roots <= n * raised && r * r <= a
    ensures (roots + r) * (roots + r) <= (n + 1) * (raised + a)
  {
    CrossTerm(roots, n, raised, r, a);
    assert (roots + r) * (roots + r) == roots * roots + 2 * (roots * r) + r * r;
    assert (n + 1) * (raised + a) == n * raised + raised + n * a + a;
  }

  lemma CrossTerm(roots: int, n: int, raised: int, r: int, a: int)
    requires roots >= 0 && n >= 0 && raised >= 0 && r >= 0
    requires roots * roots <= n * raised && r * r <= a
    ensures 2 * (roots * r) <= raised + n * a
  {
    if n == 0 {
      assert roots == 0 by {
        if roots >= 1 { SquareGrows(1, roots); }
      }
    } else {
      SquareIsNonNegative(roots - n * r);
      assert (roots - n * r) * (roots - n * r) == roots * roots - 2 * (n * (roots * r)) + n * (n * (r * r));
      ScaleUp(n, n * (r * r), n * a) by {
        ScaleUp(n, r * r, a);
      }
      assert 2 * (n * (roots * r)) <= n * raised + n * (n * a);
      assert n * (2 * (roots * r)) <= n * (raised + n * a);
      ScaleDown(n, 2 * (roots * r), raised + n * a);
    }
  }

  lemma ScaleUp(n: int, a: int, b: int)
    requires n >= 0 && a <= b
    ensures n * a <= n * b
  {
  }

  lemma ScaleDown(n: int, a: int, b: int)
    requires n > 0 && n * a <= n * b
    ensures a <= b
  {
    if a > b {
      ScaleUp(n, b + 1, a);
    }
  }
}
