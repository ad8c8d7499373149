/** Quotients and remainders from their defining equation. */
module Arith {

  lemma DivMod(a: int, m: int, q: int, r: int)
    requires 0 <= r < m && a == q * m + r
    ensures a / m == q && a % m == r
  {
    var d, r' := q - a / m, a % m;
    assert d * m == r' - r;
    if d >= 1 {
      Product(d - 1, m);
    } else if d <= -1 {
      Product(-d - 1, m);
    }
  }

  lemma Product(a: int, b: int)
    requires a >= 0 && b >= 0
    ensures a * b >= 0 && (a + 1) * b == a * b + b && (-a - 1) * b == -(a * b) - b
  {
  }

  lemma MulLess(a: int, b: int, p: int)
    requires a < b && p > 0
    ensures a * p < b * p
  {
    Product(b - a - 1, p);
    assert (b - a) * p == b * p - a * p;
  }

  /** A common factor cancels in a floor division. */
  lemma DivCancel(a: int, b: int, p: int)
    requires a >= 0 && b > 0 && p > 0
    ensures b * p > 0 && a * p / (b * p) == a / b
  {
    var q, r := a / b, a % b;
    Product(b - 1, p);
    Product(r, p);
    MulLess(r, b, p);
    assert (q * b + r) * p == q * b * p + r * p;
    assert q * b * p == q * (b * p);
    DivMod(a * p, b * p, q, r * p);
  }

  /** Rounding m = kept * q + rest half up to a multiple of q. */
  lemma HalfUp(m: int, kept: int, rest: int, q: int)
    requires q > 0 && 0 <= rest < q && m == kept * q + rest
    ensures (2 * m + q) / (2 * q) == if 2 * rest >= q then kept + 1 else kept
  {
    var den := 2 * q;
    assert kept * den == 2 * (kept * q);
    if 2 * rest >= q {
      assert (kept + 1) * den == kept * den + den;
      DivMod(2 * m + q, den, kept + 1, 2 * rest - q);
    } else {
      DivMod(2 * m + q, den, kept, 2 * rest + q);
    }
  }

  function Quotient(a: nat, b: nat): (q: nat)
    requires b > 0
    ensures q == a / b
  {
    assert a / b >= 0 by {
      var q, r := a / b, a % b;
      if q < 0 {
        Product(-q - 1, b);
      }
    }
    a / b
  }

  function Remainder(a: nat, b: nat): (r: nat)
    requires b > 0
    ensures r == a % b && r < b
  {
    a % b
  }

  lemma QuotientRemainder(a: nat, b: nat)
    requires b > 0
    ensures Quotient(a, b) * b + Remainder(a, b) == a
  {
  }
}
