/** The bitwise exclusive or of unsigned numbers. */
module Xors {
  import opened Arithmetic
  import opened SetSums

  /** The bitwise exclusive or. */
  function Xor(a: nat, b: nat): (r: nat)
    decreases a + b
  {
    if a == 0 && b == 0 then 0 else 2 * Xor(a / 2, b / 2) + (a % 2 + b % 2) % 2
  }

  lemma {:induction false} XorZero(a: nat)
    ensures Xor(0, a) == a
  {
    if a > 0 { XorZero(a / 2); }
  }

  lemma XorDigits(a: nat, b: nat)
    ensures Xor(a, b) / 2 == Xor(a / 2, b / 2) && Xor(a, b) % 2 == (a % 2 + b % 2) % 2
  {
  }

  lemma {:induction false} XorCancels(a: nat, c: nat, d: nat)
    requires Xor(a, c) == Xor(a, d)
    ensures c == d
    decreases a + c + d
  {
    hide *;
    if a + c + d > 0 {
      XorDigits(a, c);
      XorDigits(a, d);
      HalvesLess(a, c, d);
      XorCancels(a / 2, c / 2, d / 2);
      DigitsCancel(a, c, d);
    }
  }

  lemma HalvesLess(a: nat, c: nat, d: nat)
    requires a + c + d > 0
    ensures a / 2 + c / 2 + d / 2 < a + c + d
  {
  }

  lemma DigitsCancel(a: nat, c: nat, d: nat)
    requires c / 2 == d / 2 && (a % 2 + c % 2) % 2 == (a % 2 + d % 2) % 2
    ensures c == d
  {
  }

  lemma {:induction false} XorBound(a: nat, b: nat, k: nat)
    requires a < Pow2(k) && b < Pow2(k)
    ensures Xor(a, b) < Pow2(k)
    decreases k
  {
    if k > 0 { XorBound(a / 2, b / 2, k - 1); }
  }

  lemma ModHalf(a: nat, p: nat)
    requires p > 0
    ensures (a % (2 * p)) / 2 == (a / 2) % p && (a % (2 * p)) % 2 == a % 2
  {
    var q, r := a / 2 / p, a / 2 % p;
    DivMod(a / 2, p);
    DivMod(a, 2);
    DoubleProduct(q, p);
    assert a == q * (2 * p) + (2 * r + a % 2);
    DivUnique(a, 2 * p, q, 2 * r + a % 2);
  }

  lemma DoubleProduct(q: nat, p: nat)
    ensures q * (2 * p) == 2 * (q * p)
  {
  }

  lemma TwoDigits(x: nat)
    ensures x == 2 * (x / 2) + x % 2
  {
  }

  lemma XorModStep(a: nat, b: nat, p: nat)
    requires p > 0 && Xor(a / 2, b / 2) % p == Xor((a / 2) % p, (b / 2) % p)
    ensures Xor(a, b) % (2 * p) == Xor(a % (2 * p), b % (2 * p))
  {
    hide *;
    ModHalf(a, p);
    ModHalf(b, p);
    ModHalf(Xor(a, b), p);
    XorDigits(a, b);
    XorDigits(a % (2 * p), b % (2 * p));
    TwoDigits(Xor(a, b) % (2 * p));
    TwoDigits(Xor(a % (2 * p), b % (2 * p)));
  }

  /** The low k bits of an exclusive or depend only on the low k bits. */
  lemma {:induction false} XorMod(a: nat, b: nat, k: nat)
    ensures Xor(a, b) % Pow2(k) == Xor(a % Pow2(k), b % Pow2(k))
    decreases k
  {
    if k > 0 {
      var p := Pow2(k - 1);
      assert Pow2(k) == 2 * p;
      XorMod(a / 2, b / 2, k - 1);
      XorModStep(a, b, p);
    }
  }

  lemma {:induction false} XorComm(a: nat, b: nat)
    ensures Xor(a, b) == Xor(b, a)
    decreases a + b
  {
    if a + b > 0 { XorComm(a / 2, b / 2); }
  }

  function Half(a: nat): nat {
    a / 2
  }

  function Bit(a: nat): (r: nat)
    ensures r <= 1
  {
    a % 2
  }

  function Flip(x: nat, y: nat): (r: nat)
    requires x <= 1 && y <= 1
    ensures r <= 1
  {
    if x == y then 0 else 1
  }

  lemma DigitsOf(a: nat)
    ensures Half(a) == a / 2 && Bit(a) == a % 2
  {
  }

  lemma FlipIs(x: nat, y: nat)
    requires x <= 1 && y <= 1
    ensures Flip(x, y) == (x + y) % 2
  {
  }

  lemma XorDigit(a: nat, b: nat)
    ensures Half(Xor(a, b)) == Xor(Half(a), Half(b)) && Bit(Xor(a, b)) == Flip(Bit(a), Bit(b))
  {
    hide *;
    XorDigits(a, b);
    DigitsOf(a);
    DigitsOf(b);
    DigitsOf(Xor(a, b));
    FlipIs(Bit(a), Bit(b));
  }

  lemma FlipAssoc(x: nat, y: nat, z: nat)
    requires x <= 1 && y <= 1 && z <= 1
    ensures Flip(Flip(x, y), z) == Flip(x, Flip(y, z))
  {
  }

  lemma SameDigits(x: nat, y: nat)
    requires Half(x) == Half(y) && Bit(x) == Bit(y)
    ensures x == y
  {
  }

  lemma HalfLess(a: nat)
    ensures Half(a) <= a && (a > 0 ==> Half(a) < a)
  {
  }

  lemma XorAssocStep(a: nat, b: nat, c: nat)
    requires Xor(Xor(Half(a), Half(b)), Half(c)) == Xor(Half(a), Xor(Half(b), Half(c)))
    ensures Xor(Xor(a, b), c) == Xor(a, Xor(b, c))
  {
    hide *;
    XorDigit(a, b);
    XorDigit(b, c);
    XorDigit(Xor(a, b), c);
    XorDigit(a, Xor(b, c));
    FlipAssoc(Bit(a), Bit(b), Bit(c));
    SameDigits(Xor(Xor(a, b), c), Xor(a, Xor(b, c)));
  }

  lemma {:induction false} XorAssoc(a: nat, b: nat, c: nat)
    ensures Xor(Xor(a, b), c) == Xor(a, Xor(b, c))
    decreases a + b + c
  {
    hide *;
    HalfLess(a);
    HalfLess(b);
    HalfLess(c);
    XorZero(0);
    if a + b + c > 0 {
      XorAssoc(Half(a), Half(b), Half(c));
      XorAssocStep(a, b, c);
    }
  }

  lemma {:induction false} XorSelf(a: nat)
    ensures Xor(a, a) == 0
  {
    if a > 0 { XorSelf(a / 2); }
  }

  /** Pairs can be combined in any order. */
  lemma XorSwap(a: nat, b: nat, c: nat, d: nat)
    ensures Xor(Xor(a, b), Xor(c, d)) == Xor(Xor(a, c), Xor(b, d))
  {
    hide *;
    XorAssoc(a, b, Xor(c, d));
    XorAssoc(b, c, d);
    XorComm(b, c);
    XorAssoc(c, b, d);
    XorAssoc(a, c, Xor(b, d));
  }

  /** Numbers without a common bit are added. */
  lemma {:induction false} XorDisjoint(a: nat, b: nat, k: nat)
    requires a < Pow2(k)
    ensures Xor(a, b * Pow2(k)) == a + b * Pow2(k)
    decreases k
  {
    if k == 0 {
      XorZero(b);
      XorComm(0, b);
      assert a == 0 && b * Pow2(0) == b;
    } else {
      var p := Pow2(k - 1);
      assert Pow2(k) == 2 * p;
      XorDisjoint(a / 2, b, k - 1);
      XorDisjointStep(a, b, p);
    }
  }

  lemma XorDisjointStep(a: nat, b: nat, p: nat)
    requires Xor(a / 2, b * p) == a / 2 + b * p
    ensures Xor(a, b * (2 * p)) == a + b * (2 * p)
  {
    hide *;
    DoubleProduct(b, p);
    HalfOfEven(b * p);
    XorDigits(a, 2 * (b * p));
    TwoDigits(Xor(a, 2 * (b * p)));
    TwoDigits(a);
    DigitOf(a);
  }

  lemma DigitOf(a: nat)
    ensures (a % 2) % 2 == a % 2
  {
  }

  lemma HalfOfEven(x: nat)
    ensures (2 * x) / 2 == x && (2 * x) % 2 == 0
  {
  }
}
