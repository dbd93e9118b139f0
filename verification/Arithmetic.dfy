/** Facts about products, quotients and digits that the solver needs spelled out. */
module Arithmetic {

  /** Comparing a leading digit and a remainder. */
  lemma DigitOrder(a: int, r: nat, a': int, r': nat, p: nat)
    requires r < p && r' < p
    ensures a * p + r <= a' * p + r' <==> a < a' || (a == a' && r <= r')
    ensures a * p + r == a' * p + r' <==> a == a' && r == r'
  {
    if a < a' {
      assert (a + 1) * p <= a' * p;
    } else if a' < a {
      assert (a' + 1) * p <= a * p;
    }
  }

  lemma ScaleUp(a: int, b: int, u: nat)
    requires u > 0 && a > b
    ensures a * u > b * u
  {
    Positive(a - b, u);
    Spread(b, a - b, u);
  }

  lemma Positive(d: int, u: int)
    requires d > 0 && u > 0
    ensures d * u > 0
  {
  }

  lemma Spread(b: int, d: int, u: int)
    ensures (b + d) * u == b * u + d * u
  {
  }

  lemma Cancel(a: int, b: int, u: nat)
    requires u > 0 && a * u <= b * u
    ensures a <= b
  {
    if a > b { ScaleUp(a, b, u); }
  }

  lemma DivUnique(x: int, d: nat, q: int, r: int)
    requires d > 0 && x == q * d + r && 0 <= r < d
    ensures x / d == q && x % d == r
  {
    assert x == (x / d) * d + x % d;
    DigitOrder(q, r, x / d, x % d, d);
  }

  lemma DivMod(x: nat, d: nat)
    requires d > 0
    ensures x == (x / d) * d + x % d && x % d < d
  {
  }

  lemma QuotientBound(x: nat, d: nat, m: nat)
    requires d > 0 && x < m * d
    ensures x / d < m
  {
    DivMod(x, d);
    if m <= x / d { ScaleUp2(m, x / d, d); }
  }

  lemma QuotientAtLeast(x: nat, d: nat, m: nat)
    requires d > 0 && x >= m * d
    ensures x / d >= m
  {
    DivMod(x, d);
    if x / d < m { ScaleUp2(x / d + 1, m, d); }
  }

  lemma ScaleUp2(a: int, b: int, u: nat)
    requires a <= b
    ensures a * u <= b * u
  {
    assert (b - a) * u >= 0;
  }

  function Quotient(x: nat, p: nat): nat
    requires p > 0
  {
    x / p
  }

  lemma Remainder(x: nat, p: nat)
    requires p > 0
    ensures 0 <= x % p < p
  {
  }
}
