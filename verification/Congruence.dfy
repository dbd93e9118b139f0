/** Numbers that agree modulo m. */
module Congruence {
  import opened Arithmetic

  ghost predicate Congruent(x: int, y: int, m: nat)
    requires m > 0
  {
    x % m == y % m
  }

  lemma Multiples(x: int, k: int, m: nat)
    requires m > 0
    ensures (x + k * m) % m == x % m
  {
    var q, r := x / m, x % m;
    assert x == q * m + r;
    Spread(q, k, m);
    DivUnique(x + k * m, m, q + k, r);
  }

  /** Congruent numbers differ by a multiple. */
  lemma Apart(x: int, y: int, m: nat) returns (k: int)
    requires m > 0 && Congruent(x, y, m)
    ensures x == y + k * m
  {
    k := x / m - y / m;
    assert x == (x / m) * m + x % m && y == (y / m) * m + y % m;
    Spread(y / m, k, m);
  }

  lemma AddCongruent(x: int, y: int, z: int, m: nat)
    requires m > 0 && Congruent(x, y, m)
    ensures Congruent(x + z, y + z, m)
  {
    var k := Apart(x, y, m);
    Multiples(y + z, k, m);
  }

  lemma SumCongruent(x: int, y: int, x': int, y': int, m: nat)
    requires m > 0 && Congruent(x, y, m) && Congruent(x', y', m)
    ensures Congruent(x + x', y + y', m)
  {
    AddCongruent(x, y, x', m);
    AddCongruent(x', y', y, m);
  }

  lemma ScaleCongruent(x: int, y: int, z: int, m: nat)
    requires m > 0 && Congruent(x, y, m)
    ensures Congruent(z * x, z * y, m)
  {
    var k := Apart(x, y, m);
    ScaledMultiple(y, k, z, m);
    Multiples(z * y, z * k, m);
  }

  lemma ScaledMultiple(y: int, k: int, z: int, m: int)
    ensures z * (y + k * m) == z * y + (z * k) * m
  {
    assert z * (k * m) == (z * k) * m;
  }

  lemma ModCongruent(x: int, m: nat)
    requires m > 0
    ensures Congruent(x % m, x, m) && 0 <= x % m < m
  {
    assert x == (x / m) * m + x % m;
    Multiples(x % m, x / m, m);
  }

  lemma Reduced(x: int, y: int, m: nat)
    requires m > 0 && Congruent(x, y, m) && 0 <= x < m
    ensures x == y % m
  {
    DivUnique(x, m, 0, x);
  }

  lemma Trans(x: int, y: int, z: int, m: nat)
    requires m > 0 && Congruent(x, y, m) && Congruent(y, z, m)
    ensures Congruent(x, z, m) && Congruent(z, x, m)
  {
  }

  lemma CongruentMeans(x: int, y: int, m: nat)
    requires m > 0 && Congruent(x, y, m)
    ensures x % m == y % m
  {
  }
}
