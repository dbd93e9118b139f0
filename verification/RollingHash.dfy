/** The rolling hash of three bytes by which deflate finds earlier occurrences of a string. */
module RollingHash {
  import opened Arithmetic
  import opened SetSums
  import opened MachineInts
  import opened Xors

  /* ---- the hash ---- */

  /** The sizes on which a compressor's tables rest. */
  datatype Sizes = Sizes(wsize: nat, hashBits: nat, hashShift: nat)

  ghost predicate SizesOk(z: Sizes) {
    && 512 <= z.wsize <= 32768 && 8 <= z.hashBits <= 16 && z.hashShift == (z.hashBits + 2) / 3
  }

  /** Shifts one more byte into the hash. */
  function UpdateHash(z: Sizes, h: nat, c: Byte): (r: nat)
    ensures r < Pow2(z.hashBits)
  {
    Xor(h * Pow2(z.hashShift), c) % Pow2(z.hashBits)
  }

  lemma UpdateIs(z: Sizes, h: nat, c: Byte)
    ensures UpdateHash(z, h, c) == Xor(h * Pow2(z.hashShift), c) % Pow2(z.hashBits)
  {
  }

  /** The hash of three bytes. */
  ghost function Hash3(z: Sizes, a: Byte, b: Byte, c: Byte): (r: nat)
    ensures r < Pow2(z.hashBits)
  {
    UpdateHash(z, UpdateHash(z, UpdateHash(z, 0, a), b), c)
  }

  lemma ModScale(x: nat, p: nat, u: nat)
    requires p > 0 && u > 0
    ensures p * u > 0 && (x * u) % (p * u) == (x % p) * u
  {
    DivMod(x, p);
    Positive(p, u);
    ScaledDivision(x / p, x % p, p, u);
    ScaleUp(p, x % p, u);
    DivUnique(x * u, p * u, x / p, (x % p) * u);
  }

  lemma ScaledDivision(q: nat, r: nat, p: nat, u: nat)
    ensures (q * p + r) * u == q * (p * u) + r * u
  {
    Spread(q * p, r, u);
    assert (q * p) * u == q * (p * u);
  }

  lemma ModProduct(x: nat, p: nat, u: nat)
    requires p > 0 && u > 0
    ensures p * u > 0 && (x % (p * u)) % p == x % p
  {
    Positive(p, u);
    DivMod(x, p * u);
    var q, r := x / (p * u), x % (p * u);
    DivMod(r, p);
    hide *;
    Regroup(q, p, u, r);
    DivUnique(x, p, q * u + r / p, r % p);
  }

  lemma {:induction false} ModMod(x: nat, j: nat, k: nat)
    requires j <= k
    ensures (x % Pow2(k)) % Pow2(j) == x % Pow2(j)
  {
    hide *;
    Pow2Add(j, k - j);
    ModProduct(x, Pow2(j), Pow2(k - j));
  }

  lemma Regroup(q: nat, p: nat, u: nat, r: nat)
    requires p > 0
    ensures q * (p * u) + r == (q * u + r / p) * p + r % p
  {
    DivMod(r, p);
    Spread(q * u, r / p, p);
    assert q * (p * u) == (q * u) * p;
  }

  /** Two hashes that agree in their low k bits agree in hashShift more after one more byte. */
  lemma {:induction false} UpdateAgrees(z: Sizes, g: nat, h: nat, c: Byte, k: nat, k': nat)
    requires g % Pow2(k) == h % Pow2(k) && k' <= k + z.hashShift && k' <= z.hashBits
    ensures UpdateHash(z, g, c) % Pow2(k') == UpdateHash(z, h, c) % Pow2(k')
  {
    hide *;
    var u := Pow2(z.hashShift);
    UpdateIs(z, g, c);
    UpdateIs(z, h, c);
    Pow2Add(k, z.hashShift);
    ModScale(g, Pow2(k), u);
    ModScale(h, Pow2(k), u);
    ModMod(g * u, k', k + z.hashShift);
    ModMod(h * u, k', k + z.hashShift);
    XorMod(g * u, c, k');
    XorMod(h * u, c, k');
    ModMod(Xor(g * u, c), k', z.hashBits);
    ModMod(Xor(h * u, c), k', z.hashBits);
  }

  /** The hash after the bytes a and b, whatever came before. */
  ghost predicate Rolled(z: Sizes, h: nat, a: Byte, b: Byte) {
    exists g: nat :: h == UpdateHash(z, UpdateHash(z, g, a), b)
  }

  /** After three updates nothing earlier takes part in the hash. */
  lemma {:induction false} RolledGives(z: Sizes, h: nat, a: Byte, b: Byte, c: Byte)
    requires SizesOk(z) && Rolled(z, h, a, b)
    ensures UpdateHash(z, h, c) == Hash3(z, a, b, c) && Rolled(z, UpdateHash(z, h, c), b, c)
  {
    var g: nat :| h == UpdateHash(z, UpdateHash(z, g, a), b);
    hide UpdateHash;
    var s, n := z.hashShift, z.hashBits;
    assert Pow2(0) == 1;
    var k1 := if s <= n then s else n;
    var k2 := if 2 * s <= n then 2 * s else n;
    UpdateAgrees(z, g, 0, a, 0, k1);
    UpdateAgrees(z, UpdateHash(z, g, a), UpdateHash(z, 0, a), b, k1, k2);
    UpdateAgrees(z, h, UpdateHash(z, UpdateHash(z, 0, a), b), c, k2, n);
    ModSmall(UpdateHash(z, h, c), Pow2(n));
    ModSmall(Hash3(z, a, b, c), Pow2(n));
  }

  lemma ModSmall(x: nat, p: nat)
    requires x < p
    ensures x % p == x
  {
  }

  /** Starting over with two bytes. */
  lemma RolledStart(z: Sizes, a: Byte, b: Byte)
    requires SizesOk(z)
    ensures Rolled(z, UpdateHash(z, a, b), a, b)
  {
    XorZero(a);
    assert 0 * Pow2(z.hashShift) == 0;
    Pow2Grows(8, z.hashBits);
    assert Pow2(8) == 256;
    ModSmall(a, Pow2(z.hashBits));
    assert UpdateHash(z, 0, a) == a;
  }

  /** The low eight bits of the hash hold the last byte, combined with what came before. */
  lemma {:induction false} LowByte(z: Sizes, h: nat, c: Byte)
    requires 8 <= z.hashBits
    ensures UpdateHash(z, h, c) % 256 == Xor((h * Pow2(z.hashShift)) % 256, c)
  {
    hide *;
    var x := h * Pow2(z.hashShift);
    EightBits();
    UpdateIs(z, h, c);
    ModMod(Xor(x, c), 8, z.hashBits);
    XorMod(x, c, 8);
    ModSmall(c, 256);
  }

  lemma EightBits()
    ensures Pow2(8) == 256
  {
  }

  lemma Hash3Is(z: Sizes, a: Byte, b: Byte, c: Byte)
    ensures Hash3(z, a, b, c) == UpdateHash(z, UpdateHash(z, UpdateHash(z, 0, a), b), c)
  {
  }

  /** Equal hashes and equal first two bytes mean equal third bytes: the compressor never compares them. */
  lemma {:induction false} ThirdByteEqual(z: Sizes, a: Byte, b: Byte, c: Byte, d: Byte)
    requires 8 <= z.hashBits && Hash3(z, a, b, c) == Hash3(z, a, b, d)
    ensures c == d
  {
    hide *;
    var y := UpdateHash(z, UpdateHash(z, 0, a), b);
    Hash3Is(z, a, b, c);
    Hash3Is(z, a, b, d);
    LowByte(z, y, c);
    LowByte(z, y, d);
    XorCancels((y * Pow2(z.hashShift)) % 256, c, d);
  }
}
