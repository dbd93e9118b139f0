/** Reversal of the low bits of a number: deflate sends prefix codes highest bit first, into words filled from below. */
module BitReverse {
  import opened Arithmetic
  import opened SetSums

  /** The low n bits of x, in the opposite order. */
  function Rev(x: nat, n: nat): nat
    decreases n
  {
    if n == 0 then 0 else (x % 2) * Pow2(n - 1) + Rev(x / 2, n - 1)
  }

  lemma RevStep(x: nat, n: nat)
    ensures n > 0 ==> Rev(x, n) == (x % 2) * Pow2(n - 1) + Rev(x / 2, n - 1)
    ensures n > 0 ==> Pow2(n) == 2 * Pow2(n - 1)
    ensures Pow2(0) == 1 && Rev(x, 0) == 0
  {
  }

  lemma BitTimes(x: nat, p: nat)
    ensures 0 <= (x % 2) * p <= p
  {
  }

  lemma {:induction false} RevBound(x: nat, n: nat)
    ensures Rev(x, n) < Pow2(n)
    decreases n
  {
    hide *;
    RevStep(x, n);
    if n > 0 {
      RevBound(x / 2, n - 1);
      BitTimes(x, Pow2(n - 1));
    }
  }

  lemma {:induction false} RevZero(n: nat)
    ensures Rev(0, n) == 0
    decreases n
  {
    if n > 0 { RevZero(n - 1); }
  }

  lemma HalfOfSum(low: nat, high: nat, p: nat)
    ensures (low + high * (2 * p)) % 2 == low % 2 && (low + high * (2 * p)) / 2 == low / 2 + high * p
  {
    assert low + high * (2 * p) == low + 2 * (high * p);
  }

  lemma Regroup(b: nat, p: nat, r: nat, q: nat)
    ensures (b * p + r) * q == b * (p * q) + r * q
  {
    assert b * p * q == b * (p * q);
  }

  lemma Below2(low: nat, p: nat)
    requires low < 2 * p
    ensures low / 2 < p
  {
  }

  /** The parts of a number change places, each reversed. */
  lemma {:induction false} RevSplit(low: nat, high: nat, j: nat, m: nat)
    requires low < Pow2(j)
    ensures Rev(low + high * Pow2(j), j + m) == Rev(low, j) * Pow2(m) + Rev(high, m)
    decreases j
  {
    hide *;
    RevStep(low, j);
    if j == 0 {
    } else {
      var p := Pow2(j - 1);
      var x := low + high * Pow2(j);
      HalfOfSum(low, high, p);
      Below2(low, p);
      RevStep(x, j + m);
      RevSplit(low / 2, high, j - 1, m);
      Pow2Add(j - 1, m);
      Regroup(low % 2, p, Rev(low / 2, j - 1), Pow2(m));
    }
  }

  /** Reversing twice changes nothing. */
  lemma {:induction false} RevRev(x: nat, n: nat)
    requires x < Pow2(n)
    ensures Rev(x, n) < Pow2(n) && Rev(Rev(x, n), n) == x
    decreases n
  {
    hide *;
    RevBound(x, n);
    RevStep(x, n);
    if n == 0 {
    } else {
      var y := Rev(x / 2, n - 1);
      Below2(x, Pow2(n - 1));
      RevRev(x / 2, n - 1);
      RevSplit(y, x % 2, n - 1, 1);
      RevStep(x % 2, 1);
      RevStep(0, 0);
      TwoParts(x);
    }
  }

  lemma TwoParts(x: nat)
    ensures x == (x / 2) * 2 + x % 2 && (x % 2) % 2 == x % 2 && (x % 2) * 1 == x % 2
  {
  }

  /** The first l bits of h, reversed, are the leading digits of h reversed. */
  lemma RevPrefix(h: nat, l: nat, n: nat)
    requires l <= n
    ensures h % Pow2(l) < Pow2(l)
    ensures Rev(h, n) / Pow2(n - l) == Rev(h % Pow2(l), l)
  {
    hide *;
    DivMod(h, Pow2(l));
    RevSplit(h % Pow2(l), h / Pow2(l), l, n - l);
    RevBound(h / Pow2(l), n - l);
    DivUnique(Rev(h, n), Pow2(n - l), Rev(h % Pow2(l), l), Rev(h / Pow2(l), n - l));
  }
}
