/** Products, quotients and remainders of natural numbers. */
module Arithmetic {

  lemma {:induction false} ProductMonotone(a: nat, b: nat, d: nat)
    requires a <= b
    ensures a * d <= b * d
    decreases b - a
  {
    if a < b {
      ProductMonotone(a + 1, b, d);
      assert (a + 1) * d == a * d + d;
    }
  }

  lemma ProductGap(a: nat, b: nat, d: nat)
    requires a < b
    ensures a * d + d <= b * d
  {
    ProductMonotone(a + 1, b, d);
    assert (a + 1) * d == a * d + d;
  }

  /** Division and remainder as functions that a proof can leave folded. */
  function Div(n: nat, d: nat): (q: nat)
    requires d > 0
  {
    n / d
  }

  function Mod(n: nat, d: nat): (r: nat)
    requires d > 0
    ensures r < d
  {
    n % d
  }

  lemma DivMod(n: nat, d: nat)
    requires d > 0
    ensures n == Div(n, d) * d + Mod(n, d)
  {
  }

  lemma QuotientRemainder(n: nat, d: nat)
    requires d > 0
    ensures n == n / d * d + n % d && n % d < d
  {
  }

  lemma QuotientUnique(n: nat, d: nat, q: nat, r: nat)
    requires d > 0 && n == q * d + r && r < d
    ensures n / d == q && n % d == r
  {
    var a := n / d;
    QuotientRemainder(n, d);
    if a < q {
      ProductGap(a, q, d);
    } else if a > q {
      ProductGap(q, a, d);
    }
  }

  lemma QuotientMonotone(m: nat, n: nat, d: nat)
    requires m <= n && d > 0
    ensures m / d <= n / d
  {
    QuotientRemainder(m, d);
    QuotientRemainder(n, d);
    if n / d < m / d {
      ProductGap(n / d, m / d, d);
    }
  }

  lemma QuotientBelow(n: nat, d: nat, limit: nat)
    requires d > 0 && n < limit * d
    ensures n / d < limit
  {
    QuotientRemainder(n, d);
    if n / d >= limit {
      ProductMonotone(limit, n / d, d);
    }
  }
}
