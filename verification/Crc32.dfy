/** The CRC-32 of section 8 of RFC 1952 as a shift register, and the forms that feed it bytes and words by table. */
module Crc32 {
  import opened Arithmetic
  import opened SetSums
  import opened MachineInts
  import opened Xors

  const POLY: nat := 0xedb88320
  const MASK: nat := 0xffffffff

  lemma SmallPowers()
    ensures Pow2(0) == 1 && Pow2(1) == 2 && Pow2(8) == 0x100
  {
  }

  lemma Constants()
    ensures POLY == 0xedb88320 && MASK == 0xffffffff && Pow2(32) == 0x1_0000_0000
    ensures Pow2(0) == 1 && Pow2(1) == 2 && Pow2(8) == 0x100
  {
    SmallPowers();
    hide Pow2;
    Pow2Add(8, 8);
    Pow2Add(16, 16);
  }

  /* ---- the definition ---- */

  /** Multiplies the register by x: the bit shifted out brings the polynomial in. */
  function Step(c: nat): nat {
    if c % 2 == 1 then Xor(POLY, c / 2) else c / 2
  }

  /** The register after the low k bits of b, lowest first. */
  ghost function FeedBits(c: nat, b: nat, k: nat): nat
    decreases k
  {
    if k == 0 then c else FeedBits(Step(Xor(c, b % 2)), b / 2, k - 1)
  }

  /** The register after the bytes of s. */
  ghost function Register(c: nat, s: seq<Byte>): nat {
    if s == [] then c else FeedBits(Register(c, s[..|s| - 1]), s[|s| - 1], 8)
  }

  /** The checksum of s, continued from crc: the register is inverted before and after. */
  ghost function Checksum(crc: nat, s: seq<Byte>): nat {
    Xor(Register(Xor(crc, MASK), s), MASK)
  }

  /* ---- the register is linear ---- */

  /** The register after n zero bits. */
  ghost function Zeros(c: nat, n: nat): nat
    decreases n
  {
    if n == 0 then c else Zeros(Step(c), n - 1)
  }

  lemma StepIs(c: nat)
    ensures Step(c) == (if Bit(c) == 1 then Xor(POLY, Half(c)) else Half(c))
  {
  }

  lemma FlipCases(x: nat, y: nat)
    requires x <= 1 && y <= 1
    ensures Flip(x, y) == (if x == y then 0 else 1)
  {
  }

  /** With or without a common term. */
  lemma XorTerms(p: nat, a: nat, b: nat)
    ensures Xor(Xor(p, a), b) == Xor(p, Xor(a, b)) && Xor(a, Xor(p, b)) == Xor(p, Xor(a, b))
    ensures Xor(Xor(p, a), Xor(p, b)) == Xor(a, b)
  {
    hide *;
    XorAssoc(p, a, b);
    XorAssoc(a, p, b);
    XorComm(a, p);
    XorSwap(p, a, p, b);
    XorSelf(p);
    XorZero(Xor(a, b));
  }

  lemma StepLinear(a: nat, b: nat)
    ensures Step(Xor(a, b)) == Xor(Step(a), Step(b))
  {
    hide *;
    StepIs(a);
    StepIs(b);
    StepIs(Xor(a, b));
    XorDigit(a, b);
    FlipCases(Bit(a), Bit(b));
    XorTerms(POLY, Half(a), Half(b));
  }

  lemma {:induction false} ZerosLinear(a: nat, b: nat, n: nat)
    ensures Zeros(Xor(a, b), n) == Xor(Zeros(a, n), Zeros(b, n))
    decreases n
  {
    if n > 0 {
      StepLinear(a, b);
      ZerosLinear(Step(a), Step(b), n - 1);
    }
  }

  lemma {:induction false} ZerosAdd(c: nat, m: nat, n: nat)
    ensures Zeros(c, m + n) == Zeros(Zeros(c, m), n)
    decreases m
  {
    if m > 0 { ZerosAdd(Step(c), m - 1, n); }
  }

  lemma StepBound(c: nat)
    requires c < 0x1_0000_0000
    ensures Step(c) < 0x1_0000_0000
  {
    Constants();
    XorBound(POLY, c / 2, 32);
  }

  lemma {:induction false} ZerosBound(c: nat, n: nat)
    requires c < 0x1_0000_0000
    ensures Zeros(c, n) < 0x1_0000_0000
    decreases n
  {
    if n > 0 {
      StepBound(c);
      ZerosBound(Step(c), n - 1);
    }
  }

  /** Low zero bits are only shifted out. */
  lemma {:induction false} ZerosShift(a: nat, n: nat)
    ensures Zeros(a * Pow2(n), n) == a
    decreases n
  {
    if n > 0 {
      DoubleProduct(a, Pow2(n - 1));
      HalfOfEven(a * Pow2(n - 1));
      assert Step(a * Pow2(n)) == a * Pow2(n - 1);
      ZerosShift(a, n - 1);
    }
  }

  /** Only the bits shifted out matter; the others just move down. */
  lemma ZerosSplit(low: nat, high: nat, n: nat)
    requires low < Pow2(n)
    ensures Zeros(low + high * Pow2(n), n) == Xor(Zeros(low, n), high)
  {
    hide *;
    XorDisjoint(low, high, n);
    ZerosLinear(low, high * Pow2(n), n);
    ZerosShift(high, n);
  }

  /* ---- feeding several bits at once ---- */

  lemma FeedStep(c: nat, b: nat)
    ensures Step(Xor(c, b)) == Xor(Step(Xor(c, b % 2)), b / 2)
  {
    hide *;
    TwoDigits(b);
    HalfOfEven(b / 2);
    LowestBit(b);
    XorAssoc(c, b % 2, 2 * (b / 2));
    StepLinear(Xor(c, b % 2), 2 * (b / 2));
    StepEven(b / 2);
  }

  lemma StepEven(a: nat)
    ensures Step(2 * a) == a
  {
  }

  lemma LowestBit(b: nat)
    ensures Xor(b % 2, 2 * (b / 2)) == b
  {
    hide *;
    SmallPowers();
    TwoDigits(b);
    XorDisjoint(b % 2, b / 2, 1);
  }

  /** Feeding k bits is adding them all and shifting; bits beyond them move down. */
  lemma {:induction false} FeedIsZeros(c: nat, b: nat, k: nat)
    ensures Zeros(Xor(c, b), k) == Xor(FeedBits(c, b, k), b / Pow2(k))
    decreases k
  {
    if k > 0 {
      FeedStep(c, b);
      FeedIsZeros(Step(Xor(c, b % 2)), b / 2, k - 1);
      QuotientTwice(b, Pow2(k - 1));
    }
  }

  lemma QuotientTwice(b: nat, p: nat)
    requires p > 0
    ensures b / (2 * p) == b / 2 / p
  {
    var q, r := b / 2 / p, b / 2 % p;
    DivMod(b / 2, p);
    DoubleProduct(q, p);
    assert b == q * (2 * p) + (2 * r + b % 2);
    DivUnique(b, 2 * p, q, 2 * r + b % 2);
  }

  lemma FeedAll(c: nat, b: nat, k: nat)
    requires b < Pow2(k)
    ensures FeedBits(c, b, k) == Zeros(Xor(c, b), k)
  {
    hide *;
    FeedIsZeros(c, b, k);
    DivUnique(b, Pow2(k), 0, b);
    XorComm(FeedBits(c, b, k), 0);
    XorZero(FeedBits(c, b, k));
  }

  lemma {:induction false} RegisterBound(c: nat, s: seq<Byte>)
    requires c < 0x1_0000_0000
    ensures Register(c, s) < 0x1_0000_0000
  {
    if s != [] {
      var r, b := Register(c, s[..|s| - 1]), s[|s| - 1];
      RegisterBound(c, s[..|s| - 1]);
      Constants();
      FeedAll(r, b, 8);
      XorBound(r, b, 32);
      ZerosBound(Xor(r, b), 8);
    }
  }

  lemma {:induction false} RegisterAppend(c: nat, s: seq<Byte>, t: seq<Byte>)
    ensures Register(c, s + t) == Register(Register(c, s), t)
    decreases |t|
  {
    if t == [] {
      assert s + t == s;
    } else {
      RegisterAppend(c, s, t[..|t| - 1]);
      assert (s + t)[..|s + t| - 1] == s + t[..|t| - 1];
    }
  }

  lemma RegisterOne(c: nat, b: Byte)
    ensures Register(c, [b]) == Zeros(Xor(c, b), 8)
  {
    assert [b][..0] == [];
    Constants();
    FeedAll(c, b, 8);
  }

  lemma RegisterStep(c: nat, t: seq<Byte>, b: Byte)
    ensures Register(c, t + [b]) == Zeros(Xor(Register(c, t), b), 8)
  {
    RegisterAppend(c, t, [b]);
    RegisterOne(Register(c, t), b);
  }

  lemma RegisterEmpty(c: nat)
    ensures Register(c, []) == c && Zeros(c, 0) == c
  {
  }

  /** The register is that of zero bytes, changed by what the bytes alone leave. */
  lemma {:induction false} RegisterLinear(c: nat, s: seq<Byte>)
    ensures Register(c, s) == Xor(Zeros(c, 8 * |s|), Register(0, s))
  {
    hide *;
    if s == [] {
      RegisterEmpty(c);
      RegisterEmpty(0);
      XorComm(c, 0);
      XorZero(c);
    } else {
      var t, b := s[..|s| - 1], s[|s| - 1];
      assert s == t + [b];
      RegisterLinear(c, t);
      RegisterStep(c, t, b);
      RegisterStep(0, t, b);
      LinearStep(Zeros(c, 8 * |t|), Register(0, t), b);
      ZerosAdd(c, 8 * |t|, 8);
    }
  }

  lemma LinearStep(z: nat, r: nat, b: nat)
    ensures Zeros(Xor(Xor(z, r), b), 8) == Xor(Zeros(z, 8), Zeros(Xor(r, b), 8))
  {
    hide *;
    XorAssoc(z, r, b);
    ZerosLinear(z, Xor(r, b), 8);
  }

  /* ---- the tables ---- */

  ghost predicate PowersSmall(p: seq<nat>) {
    forall i :: 0 <= i < |p| ==> p[i] <= 31
  }

  /** The bit of power x in the reflected polynomial, summed over the powers listed. */
  ghost function PolyOf(p: seq<nat>): nat
    requires PowersSmall(p)
  {
    if p == [] then 0 else PolyOf(p[..|p| - 1]) + Pow2(31 - p[|p| - 1])
  }

  /** The first m places of row k, each giving the register left by a byte followed by k zero bytes. */
  ghost predicate RowIs(row: seq<nat>, k: nat, m: nat) {
    m <= |row| == 256 && forall n: nat :: n < m ==> row[n] == Zeros(n, 8 * k + 8)
  }

  lemma Entry(row: seq<nat>, k: nat, m: nat, n: nat)
    requires RowIs(row, k, m) && n < m
    ensures |row| == 256 && m <= 256 && row[n] == Zeros(n, 8 * k + 8)
  {
  }

  lemma RowMore(row: seq<nat>, k: nat, n: nat, c: nat)
    requires n < 256 && RowIs(row, k, n) && c == Zeros(n, 8 * k + 8)
    ensures |row| == 256 && RowIs(row[n := c], k, n + 1)
  {
  }

  lemma RowNone(row: seq<nat>, k: nat)
    requires |row| == 256
    ensures RowIs(row, k, 0)
  {
  }

  /** One lookup takes a byte out of the register. */
  lemma ByteOut(c: nat)
    ensures Zeros(c, 8) == Xor(Zeros(c % 0x100, 8), c / 0x100)
  {
    hide *;
    SmallPowers();
    DivMod(c, 0x100);
    ZerosSplit(c % 0x100, c / 0x100, 8);
  }

  /** A byte and what lies above it. */
  function Pair(b: nat, w: nat): nat {
    b + w * 0x100
  }

  lemma PairIs(b: nat, w: nat)
    ensures Pair(b, w) == b + w * 0x100
  {
  }

  /** The number whose bytes are given, lowest first. */
  function Bytes4(b0: nat, b1: nat, b2: nat, b3: nat): nat {
    Pair(b0, Pair(b1, Pair(b2, b3)))
  }

  lemma Bytes4Is(b0: nat, b1: nat, b2: nat, b3: nat)
    ensures Bytes4(b0, b1, b2, b3) == Pair(b0, Pair(b1, Pair(b2, b3)))
  {
  }

  /** A byte and what lies above it leave the register one after the other. */
  lemma ByteAndRest(b: nat, w: nat, n: nat)
    requires b < 0x100
    ensures Zeros(Pair(b, w), 8 + n) == Xor(Zeros(b, 8 + n), Zeros(w, n))
  {
    hide *;
    PairIs(b, w);
    SmallPowers();
    ZerosSplit(b, w, 8);
    ZerosAdd(Pair(b, w), 8, n);
    ZerosLinear(Zeros(b, 8), w, n);
    ZerosAdd(b, 8, n);
  }

  /** A byte does not reach the part of the register above it. */
  lemma AboveByte(c: nat, b: nat)
    requires b < 0x100
    ensures Xor(c, b) / 0x100 == c / 0x100
  {
    hide *;
    SmallPowers();
    var low, high := c % 0x100, c / 0x100;
    DivMod(c, 0x100);
    XorDisjoint(low, high, 8);
    XorTerms(low, high * 0x100, b);
    XorComm(high * 0x100, b);
    XorAssoc(low, b, high * 0x100);
    XorBound(low, b, 8);
    XorDisjoint(Xor(low, b), high, 8);
    DivUnique(Xor(c, b), 0x100, high, Xor(low, b));
  }

  lemma LookupByte(c: nat, b: Byte)
    ensures Xor(Zeros(Xor(c, b) % 0x100, 8), c / 0x100) == Register(c, [b])
  {
    hide *;
    ByteOut(Xor(c, b));
    AboveByte(c, b);
    RegisterOne(c, b);
  }

  lemma PairParts(c: nat)
    ensures c == Pair(c % 0x100, c / 0x100)
  {
  }

  lemma Shifts(c: nat)
    ensures c / 0x100 / 0x100 == c / 0x1_0000 && c / 0x1_0000 / 0x100 == c / 0x100_0000
  {
  }

  lemma Bytes4Parts(c: nat)
    requires c < 0x1_0000_0000
    ensures c == Bytes4(c % 0x100, c / 0x100 % 0x100, c / 0x1_0000 % 0x100, c / 0x100_0000)
    ensures c / 0x100_0000 < 0x100
  {
    hide *;
    Shifts(c);
    PairParts(c);
    PairParts(c / 0x100);
    PairParts(c / 0x1_0000);
    Bytes4Is(c % 0x100, c / 0x100 % 0x100, c / 0x1_0000 % 0x100, c / 0x100_0000);
  }

  /** The four bytes of a register, looked up in their own rows. */
  lemma LookupWord(b0: nat, b1: nat, b2: nat, b3: nat)
    requires b0 < 0x100 && b1 < 0x100 && b2 < 0x100
    ensures Xor(Xor(Xor(Zeros(b0, 32), Zeros(b1, 24)), Zeros(b2, 16)), Zeros(b3, 8))
            == Zeros(Bytes4(b0, b1, b2, b3), 32)
  {
    hide *;
    Bytes4Is(b0, b1, b2, b3);
    ByteAndRest(b0, Pair(b1, Pair(b2, b3)), 24);
    ByteAndRest(b1, Pair(b2, b3), 16);
    ByteAndRest(b2, b3, 8);
    XorAssoc(Xor(Zeros(b0, 32), Zeros(b1, 24)), Zeros(b2, 16), Zeros(b3, 8));
    XorAssoc(Zeros(b0, 32), Zeros(b1, 24), Xor(Zeros(b2, 16), Zeros(b3, 8)));
  }

  lemma FeedMore(c: nat, b: nat, w: nat, n: nat)
    requires b < 0x100
    ensures Zeros(Xor(c, Pair(b, w)), 8 + n) == Zeros(Xor(Zeros(Xor(c, b), 8), w), n)
  {
    hide *;
    PairIs(b, w);
    SmallPowers();
    XorDisjoint(b, w, 8);
    XorAssoc(c, b, w * 0x100);
    ZerosAdd(Xor(c, Pair(b, w)), 8, n);
    ZerosLinear(Xor(c, b), w * 0x100, 8);
    ZerosShift(w, 8);
  }

  /** Four bytes fed together as one word. */
  lemma FeedWord(c: nat, b0: Byte, b1: Byte, b2: Byte, b3: Byte)
    ensures Register(c, [b0, b1, b2, b3]) == Zeros(Xor(c, Bytes4(b0, b1, b2, b3)), 32)
  {
    hide *;
    Bytes4Is(b0, b1, b2, b3);
    var w2: nat := Pair(b2, b3);
    var w1: nat := Pair(b1, w2);
    var c1 := Zeros(Xor(c, b0), 8);
    var c2 := Zeros(Xor(c1, b1), 8);
    var c3 := Zeros(Xor(c2, b2), 8);
    FeedMore(c, b0, w1, 24);
    FeedMore(c1, b1, w2, 16);
    FeedMore(c2, b2, b3, 8);
    RegisterEmpty(c);
    RegisterStep(c, [], b0);
    RegisterStep(c, [b0], b1);
    RegisterStep(c, [b0, b1], b2);
    RegisterStep(c, [b0, b1, b2], b3);
    assert [] + [b0] == [b0];
    assert [b0] + [b1] == [b0, b1];
    assert [b0, b1] + [b2] == [b0, b1, b2];
    assert [b0, b1, b2] + [b3] == [b0, b1, b2, b3];
  }

  lemma PolyStep(p: seq<nat>, n: nat)
    requires n < |p| && PowersSmall(p)
    ensures PowersSmall(p[..n]) && PowersSmall(p[..n + 1]) && p[n] <= 31
    ensures PolyOf(p[..n + 1]) == PolyOf(p[..n]) + Pow2(31 - p[n])
  {
    assert p[..n + 1][..n] == p[..n];
  }

  lemma PowerStep(n: nat)
    ensures Pow2(n) == if n == 0 then 1 else 2 * Pow2(n - 1)
  {
  }

  lemma LowPowers()
    ensures Pow2(21) == 0x20_0000 && Pow2(20) == 0x10_0000 && Pow2(19) == 0x8_0000 && Pow2(15) == 0x8000
    ensures Pow2(9) == 0x200 && Pow2(8) == 0x100 && Pow2(5) == 0x20
  {
  }

  lemma HighPowers()
    ensures Pow2(31) == 0x8000_0000 && Pow2(30) == 0x4000_0000 && Pow2(29) == 0x2000_0000 && Pow2(27) == 0x800_0000
    ensures Pow2(26) == 0x400_0000 && Pow2(24) == 0x100_0000 && Pow2(23) == 0x80_0000
  {
    hide *;
    LowPowers();
    PowerStep(22);
    PowerStep(23);
    PowerStep(24);
    PowerStep(25);
    PowerStep(26);
    PowerStep(27);
    PowerStep(28);
    PowerStep(29);
    PowerStep(30);
    PowerStep(31);
  }

  lemma PowersAre(p: seq<nat>)
    requires p == [0, 1, 2, 4, 5, 7, 8, 10, 11, 12, 16, 22, 23, 26]
    ensures PowersSmall(p)
    ensures p[0] == 0 && p[1] == 1 && p[2] == 2 && p[3] == 4 && p[4] == 5 && p[5] == 7 && p[6] == 8
    ensures p[7] == 10 && p[8] == 11 && p[9] == 12 && p[10] == 16 && p[11] == 22 && p[12] == 23 && p[13] == 26
  {
  }

  lemma PolyIs(p: seq<nat>)
    requires p == [0, 1, 2, 4, 5, 7, 8, 10, 11, 12, 16, 22, 23, 26]
    ensures PowersSmall(p) && PolyOf(p) == POLY
  {
    hide *;
    PowersAre(p);
    PolyNone(p);
    HighPowers();
    LowPowers();
    PolyStep(p, 0);
    PolyStep(p, 1);
    PolyStep(p, 2);
    PolyStep(p, 3);
    PolyStep(p, 4);
    PolyStep(p, 5);
    PolyStep(p, 6);
    PolyStep(p, 7);
    PolyStep(p, 8);
    PolyStep(p, 9);
    PolyStep(p, 10);
    PolyStep(p, 11);
    PolyStep(p, 12);
    PolyStep(p, 13);
    Constants();
    assert p[..14] == p;
  }

  /** The polynomial made from the list of its powers. */
  method MakePoly() returns (poly: nat)
    ensures poly == POLY
  {
    var p: seq<nat> := [0, 1, 2, 4, 5, 7, 8, 10, 11, 12, 16, 22, 23, 26];
    PolyIs(p);
    hide *;
    poly := 0;
    PolyNone(p);
    for n := 0 to |p|
      invariant PowersSmall(p[..n]) && poly == PolyOf(p[..n])
    {
      PolyStep(p, n);
      // the powers differ, so setting a bit is adding it
      poly := poly + Pow2(31 - p[n]);
    }
    assert p[..|p|] == p;
  }

  lemma PolyNone(p: seq<nat>)
    ensures PowersSmall(p[..0]) && PolyOf(p[..0]) == 0
  {
  }

  lemma ZerosStep(c: nat, n: nat)
    requires n > 0
    ensures Zeros(c, n) == Zeros(Step(c), n - 1)
  {
  }

  /** The next row: a lookup takes one more zero byte in. */
  lemma NextRow(row0: seq<nat>, k: nat, n: nat, c: nat)
    requires RowIs(row0, 0, 256) && c == Zeros(n, 8 * k + 8)
    ensures |row0| == 256 && Xor(row0[c % 0x100], c / 0x100) == Zeros(n, 8 * (k + 1) + 8)
  {
    hide *;
    Entry(row0, 0, 256, c % 0x100);
    ByteOut(c);
    ZerosAdd(n, 8 * k + 8, 8);
  }

  /* ---- bytes in the opposite order ---- */

  /** The bytes of a register in the opposite order. */
  function Swap(c: nat): nat {
    Bytes4(c / 0x100_0000, c / 0x1_0000 % 0x100, c / 0x100 % 0x100, c % 0x100)
  }

  lemma SwapBytes(b0: Byte, b1: Byte, b2: Byte, b3: Byte)
    ensures Swap(Bytes4(b0, b1, b2, b3)) == Bytes4(b3, b2, b1, b0) < 0x1_0000_0000
  {
    FourBytes(b0, b1, b2, b3);
  }

  lemma FourBytes(b0: Byte, b1: Byte, b2: Byte, b3: Byte)
    ensures var w := Bytes4(b0, b1, b2, b3);
            && w % 0x100 == b0 && w / 0x100 % 0x100 == b1 && w / 0x1_0000 % 0x100 == b2 && w / 0x100_0000 == b3
            && w < 0x1_0000_0000
  {
  }

  lemma SwapIs(c: nat)
    requires c < 0x1_0000_0000
    ensures Swap(c) == Bytes4(c / 0x100_0000, c / 0x1_0000 % 0x100, c / 0x100 % 0x100, c % 0x100) < 0x1_0000_0000
    ensures Swap(c) % 0x100 == c / 0x100_0000 < 0x100 && Swap(c) / 0x100_0000 == c % 0x100
    ensures Swap(c) / 0x100 % 0x100 == c / 0x1_0000 % 0x100 && Swap(c) / 0x1_0000 % 0x100 == c / 0x100 % 0x100
  {
    Bytes4Parts(c);
    FourBytes(c / 0x100_0000, c / 0x1_0000 % 0x100, c / 0x100 % 0x100, c % 0x100);
  }

  lemma SwapSwap(c: nat)
    requires c < 0x1_0000_0000
    ensures Swap(Swap(c)) == c
  {
    hide *;
    Bytes4Parts(c);
    SwapIs(c);
    SwapBytes(c / 0x100_0000, c / 0x1_0000 % 0x100, c / 0x100 % 0x100, c % 0x100);
  }

  /** Exclusive or works byte by byte. */
  lemma XorPair(a: nat, v: nat, b: nat, w: nat)
    requires a < 0x100 && b < 0x100
    ensures Xor(Pair(a, v), Pair(b, w)) == Pair(Xor(a, b), Xor(v, w)) && Xor(a, b) < 0x100
  {
    hide *;
    SmallPowers();
    PairIs(a, v);
    PairIs(b, w);
    PairIs(Xor(a, b), Xor(v, w));
    XorDisjoint(a, v, 8);
    XorDisjoint(b, w, 8);
    XorSwap(a, v * 0x100, b, w * 0x100);
    XorShift(v, w, 8);
    XorBound(a, b, 8);
    XorDisjoint(Xor(a, b), Xor(v, w), 8);
  }

  /** Exclusive or of numbers moved up. */
  lemma {:induction false} XorShift(a: nat, b: nat, k: nat)
    ensures Xor(a * Pow2(k), b * Pow2(k)) == Xor(a, b) * Pow2(k)
    decreases k
  {
    hide *;
    ShiftPower(k);
    if k > 0 {
      XorShift(a, b, k - 1);
      DoubleProduct(a, Pow2(k - 1));
      DoubleProduct(b, Pow2(k - 1));
      DoubleProduct(Xor(a, b), Pow2(k - 1));
      EvenXor(a * Pow2(k - 1), b * Pow2(k - 1));
    }
  }

  lemma ShiftPower(k: nat)
    ensures Pow2(0) == 1 && (k > 0 ==> Pow2(k) == 2 * Pow2(k - 1))
  {
  }

  lemma EvenXor(x: nat, y: nat)
    ensures Xor(2 * x, 2 * y) == 2 * Xor(x, y)
  {
    XorDigits(2 * x, 2 * y);
    assert 2 * x / 2 == x && 2 * y / 2 == y;
  }

  lemma XorBytes(a0: Byte, a1: Byte, a2: Byte, a3: Byte, b0: Byte, b1: Byte, b2: Byte, b3: Byte)
    ensures Xor(a0, b0) < 0x100 && Xor(a1, b1) < 0x100 && Xor(a2, b2) < 0x100 && Xor(a3, b3) < 0x100
    ensures Xor(Bytes4(a0, a1, a2, a3), Bytes4(b0, b1, b2, b3)) ==
            Bytes4(Xor(a0, b0), Xor(a1, b1), Xor(a2, b2), Xor(a3, b3))
  {
    hide *;
    Bytes4Is(a0, a1, a2, a3);
    Bytes4Is(b0, b1, b2, b3);
    XorPair(a0, Pair(a1, Pair(a2, a3)), b0, Pair(b1, Pair(b2, b3)));
    XorPair(a1, Pair(a2, a3), b1, Pair(b2, b3));
    XorPair(a2, a3, b2, b3);
    SmallPowers();
    XorBound(a3, b3, 8);
    Bytes4Is(Xor(a0, b0), Xor(a1, b1), Xor(a2, b2), Xor(a3, b3));
  }

  /** Swapping goes through an exclusive or. */
  lemma SwapXor(a: nat, b: nat)
    requires a < 0x1_0000_0000 && b < 0x1_0000_0000
    ensures Xor(a, b) < 0x1_0000_0000 && Swap(Xor(a, b)) == Xor(Swap(a), Swap(b))
  {
    hide *;
    var a0: Byte, a1: Byte, a2: Byte, a3: nat := a % 0x100, a / 0x100 % 0x100, a / 0x1_0000 % 0x100, a / 0x100_0000;
    var b0: Byte, b1: Byte, b2: Byte, b3: nat := b % 0x100, b / 0x100 % 0x100, b / 0x1_0000 % 0x100, b / 0x100_0000;
    Bytes4Parts(a);
    Bytes4Parts(b);
    SwapIs(a);
    SwapIs(b);
    XorBytes(a0, a1, a2, a3, b0, b1, b2, b3);
    XorBytes(a3, a2, a1, a0, b3, b2, b1, b0);
    SwapBytes(Xor(a0, b0), Xor(a1, b1), Xor(a2, b2), Xor(a3, b3));
    FourBytes(Xor(a0, b0), Xor(a1, b1), Xor(a2, b2), Xor(a3, b3));
  }

  /** Without its lowest byte a register is, in the opposite order, one without its highest. */
  lemma SwapDown(c: nat)
    requires c < 0x1_0000_0000
    ensures c / 0x100 < 0x1_0000_0000 && Swap(c / 0x100) == Swap(c) * 0x100 % 0x1_0000_0000
  {
    hide *;
    Shifts(c);
    MoreShifts(c);
    SwapIs(c);
    SwapIs(c / 0x100);
    UpBytes(c / 0x100_0000, c / 0x1_0000 % 0x100, c / 0x100 % 0x100, c % 0x100);
  }

  lemma MoreShifts(c: nat)
    requires c < 0x1_0000_0000
    ensures c / 0x100 / 0x1_0000 == c / 0x100_0000 < 0x100 && c / 0x100 / 0x100_0000 == 0
    ensures c / 0x100_0000 % 0x100 == c / 0x100_0000
    ensures c / 0x100 < 0x1_0000_0000
  {
  }

  lemma UpBytes(b0: Byte, b1: Byte, b2: Byte, b3: Byte)
    ensures Bytes4(b0, b1, b2, b3) * 0x100 % 0x1_0000_0000 == Bytes4(0, b0, b1, b2)
  {
  }

  lemma SwapMask()
    ensures Swap(MASK) == MASK < 0x1_0000_0000
  {
    hide *;
    MaskBytes();
    SwapBytes(0xff, 0xff, 0xff, 0xff);
  }

  lemma MaskBytes()
    ensures MASK == Bytes4(0xff, 0xff, 0xff, 0xff)
  {
  }

  /** The rows of the form for the opposite byte order. */
  ghost predicate SwappedRow(row: seq<nat>, k: nat, m: nat) {
    m <= |row| == 256 && forall n: nat :: n < m ==> row[n] == Swap(Zeros(n, 8 * k + 8))
  }

  lemma SwappedMore(row: seq<nat>, k: nat, n: nat, c: nat)
    requires n < 256 && SwappedRow(row, k, n) && c == Zeros(n, 8 * k + 8)
    ensures |row| == 256 && SwappedRow(row[n := Swap(c)], k, n + 1)
  {
  }

  lemma SwappedNone(row: seq<nat>, k: nat)
    requires |row| == 256
    ensures SwappedRow(row, k, 0)
  {
  }

  lemma SwappedEntry(row: seq<nat>, k: nat, n: nat)
    requires SwappedRow(row, k, 256) && n < 256
    ensures |row| == 256 && row[n] == Swap(Zeros(n, 8 * k + 8))
  {
  }

  /** The lookup tables, made when first needed: four rows, and the same for the opposite byte order. */
  class CrcTable {
    const row0: array<nat>
    const row1: array<nat>
    const row2: array<nat>
    const row3: array<nat>
    const row4: array<nat>
    const row5: array<nat>
    const row6: array<nat>
    const row7: array<nat>

    ghost predicate Valid()
      reads row0, row1, row2, row3, row4, row5, row6, row7
    {
      && RowIs(row0[..], 0, 256) && RowIs(row1[..], 1, 256)
      && RowIs(row2[..], 2, 256) && RowIs(row3[..], 3, 256)
      && SwappedRow(row4[..], 0, 256) && SwappedRow(row5[..], 1, 256)
      && SwappedRow(row6[..], 2, 256) && SwappedRow(row7[..], 3, 256)
    }

    lemma ValidParts()
      ensures Valid() <==> && RowIs(row0[..], 0, 256) && RowIs(row1[..], 1, 256)
                           && RowIs(row2[..], 2, 256) && RowIs(row3[..], 3, 256)
                           && SwappedRow(row4[..], 0, 256) && SwappedRow(row5[..], 1, 256)
                           && SwappedRow(row6[..], 2, 256) && SwappedRow(row7[..], 3, 256)
    {
    }

    constructor ()
      ensures Valid() && fresh(row0) && fresh(row1) && fresh(row2) && fresh(row3)
      ensures fresh(row4) && fresh(row5) && fresh(row6) && fresh(row7)
    {
      hide *;
      row0, row1, row2, row3 := new nat[256], new nat[256], new nat[256], new nat[256];
      row4, row5, row6, row7 := new nat[256], new nat[256], new nat[256], new nat[256];
      new;
      FirstRow(row0);
      OtherRows(row0, row1, row2, row3, row4, row5, row6, row7);
      ValidParts();
    }
  }

  /** The register left by each single byte. */
  method FirstRow(row: array<nat>)
    requires row.Length == 256
    modifies row
    ensures RowIs(row[..], 0, 256)
  {
    hide *;
    var poly := MakePoly();
    ghost var r := row[..];
    RowNone(r, 0);
    for n := 0 to 256
      invariant r == row[..] && RowIs(r, 0, n)
    {
      var c: nat := n;
      for k := 0 to 8
        invariant Zeros(c, 8 - k) == Zeros(n, 8) && r == row[..]
      {
        StepIs(c);
        DigitsOf(c);
        ZerosStep(c, 8 - k);
        c := if c % 2 == 1 then Xor(poly, c / 2) else c / 2;
      }
      RegisterEmpty(c);
      RowMore(r, 0, n, c);
      row[n] := c;
      r := r[n := c];
    }
  }

  /** One place of rows k and k + 4: the register after one more zero byte. */
  method NextEntry(row0: array<nat>, row: array<nat>, swapped: array<nat>, n: nat, c0: nat, ghost k: nat)
    returns (c: nat)
    requires RowIs(row0[..], 0, 256) && RowIs(row[..], k + 1, n) && SwappedRow(swapped[..], k + 1, n) && n < 256
    requires c0 == Zeros(n, 8 * k + 8) && row0 != row && row0 != swapped && row != swapped
    modifies row, swapped
    ensures c == Zeros(n, 8 * (k + 1) + 8) && RowIs(row[..], k + 1, n + 1) && SwappedRow(swapped[..], k + 1, n + 1)
  {
    hide *;
    ghost var r, t := row[..], swapped[..];
    Entry(row0[..], 0, 256, c0 % 0x100);
    NextRow(row0[..], k, n, c0);
    c := Xor(row0[c0 % 0x100], c0 / 0x100);
    RowMore(r, k + 1, n, c);
    SwappedMore(t, k + 1, n, c);
    row[n] := c;
    swapped[n] := Swap(c);
    assert row[..] == r[n := c] && swapped[..] == t[n := Swap(c)];
  }

  /** The register left by each byte and one, two and three zero bytes, and all rows with their bytes swapped. */
  method OtherRows(row0: array<nat>, row1: array<nat>, row2: array<nat>, row3: array<nat>,
                   row4: array<nat>, row5: array<nat>, row6: array<nat>, row7: array<nat>)
    requires RowIs(row0[..], 0, 256)
    requires row1.Length == 256 && row2.Length == 256 && row3.Length == 256
    requires row4.Length == 256 && row5.Length == 256 && row6.Length == 256 && row7.Length == 256
    requires row0 !in {row1, row2, row3, row4, row5, row6, row7} && row1 !in {row2, row3, row4, row5, row6, row7}
    requires row2 !in {row3, row4, row5, row6, row7} && row3 !in {row4, row5, row6, row7}
    requires row4 !in {row5, row6, row7} && row5 !in {row6, row7} && row6 != row7
    modifies row1, row2, row3, row4, row5, row6, row7
    ensures RowIs(row1[..], 1, 256) && RowIs(row2[..], 2, 256) && RowIs(row3[..], 3, 256)
    ensures SwappedRow(row4[..], 0, 256) && SwappedRow(row5[..], 1, 256)
    ensures SwappedRow(row6[..], 2, 256) && SwappedRow(row7[..], 3, 256)
  {
    hide *;
    RowNone(row1[..], 1);
    RowNone(row2[..], 2);
    RowNone(row3[..], 3);
    SwappedNone(row4[..], 0);
    SwappedNone(row5[..], 1);
    SwappedNone(row6[..], 2);
    SwappedNone(row7[..], 3);
    for n := 0 to 256
      invariant RowIs(row0[..], 0, 256)
      invariant RowIs(row1[..], 1, n) && RowIs(row2[..], 2, n) && RowIs(row3[..], 3, n)
      invariant SwappedRow(row4[..], 0, n) && SwappedRow(row5[..], 1, n)
      invariant SwappedRow(row6[..], 2, n) && SwappedRow(row7[..], 3, n)
    {
      ghost var t := row4[..];
      Entry(row0[..], 0, 256, n);
      var c := row0[n];
      SwappedMore(t, 0, n, c);
      row4[n] := Swap(c);
      assert row4[..] == t[n := Swap(c)];
      c := NextEntry(row0, row1, row5, n, c, 0);
      c := NextEntry(row0, row2, row6, n, c, 1);
      c := NextEntry(row0, row3, row7, n, c, 2);
    }
  }

  /* ---- feeding by table ---- */

  lemma RegisterSplit(c: nat, s: seq<Byte>, i: nat, j: nat)
    requires i <= j <= |s|
    ensures Register(c, s[..j]) == Register(Register(c, s[..i]), s[i..j])
  {
    hide *;
    RegisterAppend(c, s[..i], s[i..j]);
    assert s[..i] + s[i..j] == s[..j];
  }

  lemma FourOf(s: seq<Byte>, i: nat)
    requires i + 4 <= |s|
    ensures s[i..i + 4] == [s[i], s[i + 1], s[i + 2], s[i + 3]]
  {
  }

  /** The register after one byte. */
  method DoOne(table: CrcTable, c: UInt32, b: Byte) returns (r: UInt32)
    requires table.Valid()
    ensures r == Register(c, [b])
  {
    hide *;
    table.ValidParts();
    var n := Xor(c, b) % 0x100;
    Entry(table.row0[..], 0, 256, n);
    LookupByte(c, b);
    RegisterBound(c, [b]);
    r := Xor(table.row0[n], c / 0x100);
  }

  lemma WordBound(b0: Byte, b1: Byte, b2: Byte, b3: Byte)
    ensures Bytes4(b0, b1, b2, b3) < 0x1_0000_0000
  {
  }

  lemma XorWord(a: nat, b: nat)
    requires a < 0x1_0000_0000 && b < 0x1_0000_0000
    ensures Xor(a, b) < 0x1_0000_0000
  {
    Constants();
    XorBound(a, b, 32);
  }

  /** The register after the four bytes of a word, taken in together. */
  method DoWord(table: CrcTable, c: UInt32, w: UInt32) returns (r: UInt32)
    requires table.Valid()
    ensures r == Zeros(Xor(c, w), 32)
  {
    hide *;
    table.ValidParts();
    XorWord(c, w);
    var d: nat := Xor(c, w);
    Bytes4Parts(d);
    Entry(table.row3[..], 3, 256, d % 0x100);
    Entry(table.row2[..], 2, 256, d / 0x100 % 0x100);
    Entry(table.row1[..], 1, 256, d / 0x1_0000 % 0x100);
    Entry(table.row0[..], 0, 256, d / 0x100_0000);
    LookupWord(d % 0x100, d / 0x100 % 0x100, d / 0x1_0000 % 0x100, d / 0x100_0000);
    ZerosBound(d, 32);
    r := Xor(Xor(Xor(table.row3[d % 0x100], table.row2[d / 0x100 % 0x100]),
                 table.row1[d / 0x1_0000 % 0x100]), table.row0[d / 0x100_0000]);
  }

  /** The register after the next four bytes of buf, read as one word. */
  method DoFour(table: CrcTable, c: UInt32, buf: array<Byte>, i: nat) returns (r: UInt32)
    requires table.Valid() && i + 4 <= buf.Length
    ensures r == Register(c, buf[i..i + 4])
  {
    hide *;
    WordBound(buf[i], buf[i + 1], buf[i + 2], buf[i + 3]);
    FeedWord(c, buf[i], buf[i + 1], buf[i + 2], buf[i + 3]);
    FourOf(buf[..], i);
    assert buf[..][i..i + 4] == buf[i..i + 4];
    r := DoWord(table, c, Bytes4(buf[i], buf[i + 1], buf[i + 2], buf[i + 3]));
  }

  /** The register c holds the first i bytes of s, taken in after crc. */
  ghost predicate Fed(crc: nat, s: seq<Byte>, i: nat, c: nat) {
    i <= |s| && c == Register(Xor(crc, MASK), s[..i])
  }

  lemma FedNone(crc: nat, s: seq<Byte>)
    ensures Fed(crc, s, 0, Xor(crc, MASK))
  {
  }

  lemma FedMore(crc: nat, s: seq<Byte>, i: nat, j: nat, c: nat)
    requires Fed(crc, s, i, c) && i <= j <= |s|
    ensures Fed(crc, s, j, Register(c, s[i..j]))
  {
    RegisterSplit(Xor(crc, MASK), s, i, j);
  }

  lemma FedOne(crc: nat, s: seq<Byte>, i: nat, c: nat)
    requires Fed(crc, s, i, c) && i < |s|
    ensures Fed(crc, s, i + 1, Register(c, [s[i]]))
  {
    FedMore(crc, s, i, i + 1, c);
    assert s[i..i + 1] == [s[i]];
  }

  lemma FedFour(crc: nat, s: seq<Byte>, i: nat, c: nat)
    requires Fed(crc, s, i, c) && i + 4 <= |s|
    ensures Fed(crc, s, i + 4, Register(c, s[i..i + 4]))
  {
    FedMore(crc, s, i, i + 4, c);
  }

  lemma FedAll(crc: nat, s: seq<Byte>, c: nat)
    requires Fed(crc, s, |s|, c)
    ensures Checksum(crc, s) == Xor(c, MASK)
  {
    assert s[..|s|] == s;
  }

  /** The checksum, a byte at a time. */
  method Crc32Bytes(table: CrcTable, crc: UInt32, buf: array<Byte>) returns (r: UInt32)
    requires table.Valid()
    ensures r == Checksum(crc, buf[..])
  {
    hide *;
    ghost var s := buf[..];
    Constants();
    XorWord(crc, MASK);
    FedNone(crc, s);
    var c: UInt32 := Xor(crc, MASK);
    var i: nat, len: nat := 0, buf.Length;
    while len >= 8
      invariant i + len == buf.Length && s == buf[..] && Fed(crc, s, i, c)
    {
      for k := 0 to 8
        invariant i + len == buf.Length + k && len >= 8
        invariant s == buf[..] && Fed(crc, s, i, c)
      {
        FedOne(crc, s, i, c);
        c := DoOne(table, c, buf[i]);
        i := i + 1;
      }
      len := len - 8;
    }
    while len > 0
      invariant i + len == buf.Length && s == buf[..] && Fed(crc, s, i, c)
    {
      FedOne(crc, s, i, c);
      c := DoOne(table, c, buf[i]);
      i, len := i + 1, len - 1;
    }
    FedAll(crc, s, c);
    XorWord(c, MASK);
    r := Xor(c, MASK);
  }

  /** The checksum, by words of four bytes where the address of the buffer allows. */
  method Crc32Little(table: CrcTable, crc: UInt32, buf: array<Byte>, address: nat) returns (r: UInt32)
    requires table.Valid()
    ensures r == Checksum(crc, buf[..])
  {
    hide *;
    ghost var s := buf[..];
    Constants();
    XorWord(crc, MASK);
    FedNone(crc, s);
    var c: UInt32 := Xor(crc, MASK);
    var i: nat, len: nat := 0, buf.Length;
    while len > 0 && (address + i) % 4 != 0
      invariant i + len == buf.Length && s == buf[..] && Fed(crc, s, i, c)
    {
      FedOne(crc, s, i, c);
      c := DoOne(table, c, buf[i]);
      i, len := i + 1, len - 1;
    }
    while len >= 32
      invariant i + len == buf.Length && s == buf[..] && Fed(crc, s, i, c)
    {
      for k := 0 to 8
        invariant i + len == buf.Length + 4 * k && len >= 32
        invariant s == buf[..] && Fed(crc, s, i, c)
      {
        FedFour(crc, s, i, c);
        c := DoFour(table, c, buf, i);
        assert buf[i..i + 4] == s[i..i + 4];
        i := i + 4;
      }
      len := len - 32;
    }
    while len >= 4
      invariant i + len == buf.Length && s == buf[..] && Fed(crc, s, i, c)
    {
      FedFour(crc, s, i, c);
      c := DoFour(table, c, buf, i);
      assert buf[i..i + 4] == s[i..i + 4];
      i, len := i + 4, len - 4;
    }
    while len > 0
      invariant i + len == buf.Length && s == buf[..] && Fed(crc, s, i, c)
    {
      FedOne(crc, s, i, c);
      c := DoOne(table, c, buf[i]);
      i, len := i + 1, len - 1;
    }
    FedAll(crc, s, c);
    XorWord(c, MASK);
    r := Xor(c, MASK);
  }

  /** The register in the opposite byte order, after one byte. */
  method DoBigOne(table: CrcTable, c: UInt32, b: Byte, ghost plain: UInt32) returns (r: UInt32)
    requires table.Valid() && c == Swap(plain)
    ensures Register(plain, [b]) < 0x1_0000_0000 && r == Swap(Register(plain, [b]))
  {
    hide *;
    table.ValidParts();
    SmallPowers();
    SwapIs(plain);
    SwapDown(plain);
    ghost var n := Xor(plain, b) % 0x100;
    XorMod(plain, b, 8);
    SmallByte(b);
    SwappedEntry(table.row4[..], 0, n);
    LookupByte(plain, b);
    RegisterBound(plain, [b]);
    ZerosSmall(n);
    SwapXor(Zeros(n, 8), plain / 0x100);
    SwapIs(Register(plain, [b]));
    r := Xor(table.row4[Xor(c / 0x100_0000, b)], c * 0x100 % 0x1_0000_0000);
  }

  lemma SmallByte(b: Byte)
    ensures b % 0x100 == b
  {
  }

  lemma ZerosSmall(n: nat)
    requires n < 0x1_0000_0000
    ensures forall k: nat :: Zeros(n, k) < 0x1_0000_0000
  {
    Constants();
    forall k: nat
      ensures Zeros(n, k) < 0x1_0000_0000
    {
      ZerosBound(n, k);
    }
  }

  /** The same after the four bytes of a word, which the machine reads in the opposite order. */
  method DoBigWord(table: CrcTable, c: UInt32, w: UInt32, ghost plain: UInt32, ghost word: UInt32)
    returns (r: UInt32)
    requires table.Valid() && c == Swap(plain) && w == Swap(word)
    ensures Zeros(Xor(plain, word), 32) < 0x1_0000_0000 && r == Swap(Zeros(Xor(plain, word), 32))
  {
    hide *;
    table.ValidParts();
    SwapXor(plain, word);
    ghost var d: nat := Xor(plain, word);
    SwapIs(d);
    Bytes4Parts(d);
    ghost var d0, d1, d2, d3: nat := d % 0x100, d / 0x100 % 0x100, d / 0x1_0000 % 0x100, d / 0x100_0000;
    SwappedEntry(table.row7[..], 3, d0);
    SwappedEntry(table.row6[..], 2, d1);
    SwappedEntry(table.row5[..], 1, d2);
    SwappedEntry(table.row4[..], 0, d3);
    LookupWord(d0, d1, d2, d3);
    ZerosSmall(d);
    FourSwapped(d0, d1, d2, d3);
    SwapIs(Zeros(d, 32));
    var x := Xor(c, w);
    r := Xor(Xor(Xor(table.row4[x % 0x100], table.row5[x / 0x100 % 0x100]),
                 table.row6[x / 0x1_0000 % 0x100]), table.row7[x / 0x100_0000]);
  }

  /** Four lookups, swapped and added in the opposite order. */
  lemma FourSwapped(d0: nat, d1: nat, d2: nat, d3: nat)
    requires d0 < 0x100 && d1 < 0x100 && d2 < 0x100 && d3 < 0x100
    ensures Swap(Xor(Xor(Xor(Zeros(d0, 32), Zeros(d1, 24)), Zeros(d2, 16)), Zeros(d3, 8)))
            == Xor(Xor(Xor(Swap(Zeros(d3, 8)), Swap(Zeros(d2, 16))), Swap(Zeros(d1, 24))), Swap(Zeros(d0, 32)))
  {
    hide *;
    ZerosSmall(d0);
    ZerosSmall(d1);
    ZerosSmall(d2);
    ZerosSmall(d3);
    var a, b, c, d := Zeros(d0, 32), Zeros(d1, 24), Zeros(d2, 16), Zeros(d3, 8);
    SwapXor(a, b);
    SwapXor(Xor(a, b), c);
    SwapXor(Xor(Xor(a, b), c), d);
    Backwards(Swap(a), Swap(b), Swap(c), Swap(d));
  }

  lemma Backwards(a: nat, b: nat, c: nat, d: nat)
    ensures Xor(Xor(Xor(a, b), c), d) == Xor(Xor(Xor(d, c), b), a)
  {
    hide *;
    XorComm(Xor(Xor(a, b), c), d);
    XorComm(Xor(a, b), c);
    XorAssoc(d, c, Xor(a, b));
    XorComm(a, b);
    XorAssoc(Xor(d, c), b, a);
  }

  /** The same after the next four bytes of buf. */
  method DoBigFour(table: CrcTable, c: UInt32, buf: array<Byte>, i: nat, ghost plain: UInt32) returns (r: UInt32)
    requires table.Valid() && c == Swap(plain) && i + 4 <= buf.Length
    ensures Register(plain, buf[i..i + 4]) < 0x1_0000_0000 && r == Swap(Register(plain, buf[i..i + 4]))
  {
    hide *;
    WordBound(buf[i], buf[i + 1], buf[i + 2], buf[i + 3]);
    SwapBytes(buf[i], buf[i + 1], buf[i + 2], buf[i + 3]);
    FeedWord(plain, buf[i], buf[i + 1], buf[i + 2], buf[i + 3]);
    FourOf(buf[..], i);
    assert buf[..][i..i + 4] == buf[i..i + 4];
    r := DoBigWord(table, c, Bytes4(buf[i + 3], buf[i + 2], buf[i + 1], buf[i]), plain,
                   Bytes4(buf[i], buf[i + 1], buf[i + 2], buf[i + 3]));
  }

  /** The checksum on a machine that reads words in the opposite byte order: the register is kept in that order. */
  method Crc32Big(table: CrcTable, crc: UInt32, buf: array<Byte>, address: nat) returns (r: UInt32)
    requires table.Valid()
    ensures r == Checksum(crc, buf[..])
  {
    hide *;
    ghost var s := buf[..];
    Constants();
    XorWord(crc, MASK);
    SwapMask();
    SwapIs(crc);
    SwapXor(crc, MASK);
    FedNone(crc, s);
    ghost var plain: UInt32 := Xor(crc, MASK);
    XorWord(Swap(crc), MASK);
    var c: UInt32 := Xor(Swap(crc), MASK);
    var i: nat, len: nat := 0, buf.Length;
    while len > 0 && (address + i) % 4 != 0
      invariant i + len == buf.Length && s == buf[..] && Fed(crc, s, i, plain) && c == Swap(plain)
    {
      FedOne(crc, s, i, plain);
      c := DoBigOne(table, c, buf[i], plain);
      plain := Register(plain, [buf[i]]);
      i, len := i + 1, len - 1;
    }
    while len >= 32
      invariant i + len == buf.Length && s == buf[..] && Fed(crc, s, i, plain) && c == Swap(plain)
    {
      for k := 0 to 8
        invariant i + len == buf.Length + 4 * k && len >= 32
        invariant s == buf[..] && Fed(crc, s, i, plain) && c == Swap(plain)
      {
        FedFour(crc, s, i, plain);
        c := DoBigFour(table, c, buf, i, plain);
        assert buf[i..i + 4] == s[i..i + 4];
        plain := Register(plain, s[i..i + 4]);
        i := i + 4;
      }
      len := len - 32;
    }
    while len >= 4
      invariant i + len == buf.Length && s == buf[..] && Fed(crc, s, i, plain) && c == Swap(plain)
    {
      FedFour(crc, s, i, plain);
      c := DoBigFour(table, c, buf, i, plain);
      assert buf[i..i + 4] == s[i..i + 4];
      plain := Register(plain, s[i..i + 4]);
      i, len := i + 4, len - 4;
    }
    while len > 0
      invariant i + len == buf.Length && s == buf[..] && Fed(crc, s, i, plain) && c == Swap(plain)
    {
      FedOne(crc, s, i, plain);
      c := DoBigOne(table, c, buf[i], plain);
      plain := Register(plain, [buf[i]]);
      i, len := i + 1, len - 1;
    }
    FedAll(crc, s, plain);
    XorWord(plain, MASK);
    XorWord(c, MASK);
    SwapXor(plain, MASK);
    SwapSwap(Xor(plain, MASK));
    SwapIs(Xor(c, MASK));
    r := Swap(Xor(c, MASK));
  }

  /* ---- joining checksums ---- */

  /** The sum of the rows of mat, from row i on, that the bits of vec pick. */
  ghost function Times(mat: seq<nat>, i: nat, vec: nat): nat
    requires i <= |mat| && vec < Pow2(|mat| - i)
    decreases vec
  {
    if vec == 0 then 0 else Xor(if vec % 2 == 1 then mat[i] else 0, Times(mat, i + 1, vec / 2))
  }

  lemma TimesNone(mat: seq<nat>, i: nat)
    requires i <= |mat|
    ensures Pow2(|mat| - i) > 0 && Times(mat, i, 0) == 0
  {
  }

  lemma TimesStep(mat: seq<nat>, i: nat, vec: nat)
    requires i <= |mat| && vec < Pow2(|mat| - i) && vec > 0
    ensures i < |mat| && vec / 2 < Pow2(|mat| - (i + 1))
    ensures Times(mat, i, vec) == Xor(if vec % 2 == 1 then mat[i] else 0, Times(mat, i + 1, vec / 2))
  {
  }

  /** The rows of mat are what n zero bits leave of the single bits from bit i on. */
  ghost predicate Operator(mat: seq<nat>, n: nat) {
    |mat| == 32 && forall i: nat :: i < 32 ==> mat[i] == Zeros(Pow2(i), n)
  }

  lemma OperatorAt(mat: seq<nat>, n: nat, i: nat)
    requires Operator(mat, n) && i < 32
    ensures |mat| == 32 && mat[i] == Zeros(Pow2(i), n)
  {
  }

  /** v moved up by i bits. */
  ghost function Up(v: nat, i: nat): nat
    decreases i
  {
    if i == 0 then v else Up(2 * v, i - 1)
  }

  lemma XorDouble(a: nat, b: nat)
    ensures Xor(2 * a, 2 * b) == 2 * Xor(a, b)
  {
  }

  lemma {:induction false} UpLinear(a: nat, b: nat, i: nat)
    ensures Up(Xor(a, b), i) == Xor(Up(a, i), Up(b, i))
    decreases i
  {
    if i > 0 {
      XorDouble(a, b);
      UpLinear(2 * a, 2 * b, i - 1);
    }
  }

  lemma {:induction false} UpScales(v: nat, i: nat, k: nat)
    requires v == 0 || v == Pow2(k)
    ensures Up(v, i) == if v == 0 then 0 else Pow2(k + i)
    decreases i
  {
    if i > 0 { UpScales(2 * v, i - 1, k + 1); }
  }

  lemma UpStep(v: nat, i: nat)
    ensures Up(v, i) == Xor(if v % 2 == 1 then Pow2(i) else 0, Up(v / 2, i + 1))
  {
    hide *;
    SmallPowers();
    LowestBit(v);
    UpLinear(v % 2, 2 * (v / 2), i);
    UpScales(v % 2, i, 0);
    UpDouble(v / 2, i);
  }

  lemma UpDouble(v: nat, i: nat)
    ensures Up(2 * v, i) == Up(v, i + 1) && Up(v, 0) == v
  {
  }

  lemma {:induction false} ZerosNone(n: nat)
    ensures Zeros(0, n) == 0
    decreases n
  {
    if n > 0 { ZerosNone(n - 1); }
  }

  /** The product is what n zero bits leave of vec. */
  lemma {:induction false} OperatorGives(mat: seq<nat>, i: nat, vec: nat, n: nat)
    requires Operator(mat, n) && i <= |mat| && vec < Pow2(|mat| - i)
    ensures Times(mat, i, vec) == Zeros(Up(vec, i), n)
    decreases vec
  {
    hide *;
    TimesNone(mat, i);
    OperatorLength(mat, n);
    ZerosNone(n);
    SmallPowers();
    if vec == 0 {
      UpScales(0, i, 0);
    } else {
      TimesStep(mat, i, vec);
      OperatorAt(mat, n, i);
      OperatorGives(mat, i + 1, vec / 2, n);
      UpStep(vec, i);
      ZerosLinear(if vec % 2 == 1 then Pow2(i) else 0, Up(vec / 2, i + 1), n);
    }
  }

  lemma OperatorLength(mat: seq<nat>, n: nat)
    requires Operator(mat, n)
    ensures |mat| == 32 && Pow2(32) == 0x1_0000_0000
  {
    Constants();
  }

  lemma OperatorApplied(mat: seq<nat>, vec: UInt32, n: nat)
    requires Operator(mat, n)
    ensures |mat| == 32 && vec < Pow2(32) && Times(mat, 0, vec) == Zeros(vec, n)
  {
    hide *;
    OperatorLength(mat, n);
    OperatorGives(mat, 0, vec, n);
    UpDouble(vec, 0);
  }

  lemma {:induction false} PowerBelow(i: nat)
    requires i < 32
    ensures Pow2(i) < 0x1_0000_0000
  {
    Constants();
    Pow2Grows(i, 31);
  }

  /** The product of mat and the bits of vec. */
  method Gf2MatrixTimes(mat: array<nat>, vec: nat) returns (sum: nat)
    requires mat.Length == 32 && vec < Pow2(32)
    ensures sum == Times(mat[..], 0, vec)
  {
    hide *;
    sum := 0;
    var v: nat, i: nat := vec, 0;
    XorZero(Times(mat[..], 0, vec));
    while v > 0
      invariant i <= 32 && v < Pow2(32 - i) && Xor(sum, Times(mat[..], i, v)) == Times(mat[..], 0, vec)
      decreases v
    {
      TimesStep(mat[..], i, v);
      XorAssoc(sum, if v % 2 == 1 then mat[i] else 0, Times(mat[..], i + 1, v / 2));
      XorComm(sum, 0);
      XorZero(sum);
      if v % 2 == 1 {
        sum := Xor(sum, mat[i]);
      }
      v := v / 2;
      i := i + 1;
    }
    TimesNone(mat[..], i);
    XorComm(sum, 0);
    XorZero(sum);
  }

  lemma SquareRow(mat: seq<nat>, n: nat, i: nat)
    requires Operator(mat, n) && i < 32
    ensures |mat| == 32 && mat[i] < Pow2(32) && Times(mat, 0, mat[i]) == Zeros(Pow2(i), 2 * n)
  {
    hide *;
    OperatorAt(mat, n, i);
    PowerBelow(i);
    ZerosBound(Pow2(i), n);
    OperatorApplied(mat, mat[i], n);
    ZerosAdd(Pow2(i), n, n);
  }

  ghost predicate OperatorUpTo(mat: seq<nat>, n: nat, m: nat) {
    m <= |mat| == 32 && forall i: nat :: i < m ==> mat[i] == Zeros(Pow2(i), n)
  }

  lemma UpToMore(mat: seq<nat>, n: nat, m: nat, v: nat)
    requires m < 32 && OperatorUpTo(mat, n, m) && v == Zeros(Pow2(m), n)
    ensures |mat| == 32 && OperatorUpTo(mat[m := v], n, m + 1)
  {
  }

  lemma UpToEnds(mat: seq<nat>, n: nat)
    ensures |mat| == 32 ==> OperatorUpTo(mat, n, 0)
    ensures OperatorUpTo(mat, n, 32) <==> Operator(mat, n)
  {
  }

  /** The operator for twice as many zero bits. */
  method Gf2MatrixSquare(square: array<nat>, mat: array<nat>, ghost n: nat)
    requires square != mat && square.Length == 32 && Operator(mat[..], n)
    modifies square
    ensures Operator(square[..], 2 * n)
  {
    hide *;
    ghost var m, q := mat[..], square[..];
    OperatorLength(m, n);
    UpToEnds(q, 2 * n);
    for i := 0 to 32
      invariant m == mat[..] && q == square[..] && OperatorUpTo(q, 2 * n, i)
    {
      SquareRow(m, n, i);
      var v := Gf2MatrixTimes(mat, mat[i]);
      UpToMore(q, 2 * n, i, v);
      square[i] := v;
      q := q[i := v];
    }
    UpToEnds(q, 2 * n);
  }

  /** The operator for one zero bit. */
  method OneZeroBit(odd: array<nat>)
    requires odd.Length == 32
    modifies odd
    ensures Operator(odd[..], 1)
  {
    hide *;
    ghost var q := odd[..];
    SingleBits(0);
    PowerStep(0);
    UpToEnds(q, 1);
    UpToMore(q, 1, 0, POLY);
    odd[0] := POLY;
    q := q[0 := POLY];
    var row := 1;
    for n := 1 to 32
      invariant q == odd[..] && OperatorUpTo(q, 1, n) && row == Pow2(n - 1)
    {
      SingleBits(n);
      PowerStep(n);
      UpToMore(q, 1, n, row);
      odd[n] := row;
      q := q[n := row];
      row := row * 2;
    }
    UpToEnds(q, 1);
  }

  lemma OneStep(c: nat)
    ensures Zeros(c, 1) == Step(c)
  {
    assert Zeros(Step(c), 0) == Step(c);
  }

  lemma SingleBits(n: nat)
    ensures Zeros(Pow2(n), 1) == if n == 0 then POLY else Pow2(n - 1)
  {
    hide *;
    PowerStep(n);
    OneStep(Pow2(n));
    FirstBit();
    if n > 0 { StepEven(Pow2(n - 1)); }
  }

  lemma FirstBit()
    ensures Step(1) == POLY
  {
    hide *;
    StepIs(1);
    DigitsOf(1);
    XorComm(POLY, 0);
    XorZero(POLY);
  }

  /** The checksum of two strings joined, from their own checksums and the length of the second. */
  ghost function Combined(crc1: nat, crc2: nat, len2: int): nat {
    if len2 <= 0 then crc1 else Xor(Zeros(crc1, 8 * len2), crc2)
  }

  /** One binary digit of the number of zeros still to apply, w at a time. */
  lemma HalfOfZeros(c: nat, w: nat, len: nat)
    ensures Zeros(c, w * len) == Zeros(if len % 2 == 1 then Zeros(c, w) else c, 2 * w * (len / 2))
  {
    hide *;
    TwoDigits(len);
    WeightedDigits(w, len / 2);
    if len % 2 == 1 {
      ZerosAdd(c, w, 2 * w * (len / 2));
    }
  }

  lemma WeightedDigits(w: nat, h: nat)
    ensures w * (2 * h + 1) == w + 2 * w * h && w * (2 * h) == 2 * w * h
  {
  }

  /** One half of the loop: mat, taken from the square root of the operator, applies the next digit. */
  method ApplyDigit(mat: array<nat>, root: array<nat>, ghost n: nat, crc: UInt32, len: nat) returns (r: UInt32)
    requires mat != root && mat.Length == 32 && Operator(root[..], n)
    modifies mat
    ensures Operator(mat[..], 2 * n)
    ensures Zeros(r, 4 * n * (len / 2)) == Zeros(crc, 2 * n * len)
  {
    hide *;
    Gf2MatrixSquare(mat, root, n);
    HalfOfZeros(crc, 2 * n, len);
    r := crc;
    if len % 2 == 1 {
      OperatorApplied(mat[..], crc, 2 * n);
      ZerosBound(crc, 2 * n);
      r := Gf2MatrixTimes(mat, crc);
    }
  }

  lemma LastZeros(c: nat, n: nat)
    ensures Zeros(c, n * 0) == c
  {
  }

  method Crc32Combine(crc1: UInt32, crc2: UInt32, len2: int) returns (r: UInt32)
    ensures r == Combined(crc1, crc2, len2)
  {
    hide *;
    CombinedIs(crc1, crc2, len2);
    if len2 <= 0 {
      return crc1;
    }
    var even, odd := new nat[32], new nat[32];
    OneZeroBit(odd);
    Gf2MatrixSquare(even, odd, 1);
    Gf2MatrixSquare(odd, even, 2);
    var crc: UInt32, len: nat := crc1, len2;
    ghost var n: nat := 4;
    while true
      invariant odd.Length == even.Length == 32 && Operator(odd[..], n) && len > 0
      invariant Zeros(crc, 2 * n * len) == Zeros(crc1, 8 * len2)
      decreases len
    {
      crc := ApplyDigit(even, odd, n, crc, len);
      len := len / 2;
      n := 2 * n;
      LastZeros(crc, 2 * n);
      if len == 0 {
        break;
      }
      crc := ApplyDigit(odd, even, n, crc, len);
      len := len / 2;
      n := 2 * n;
      LastZeros(crc, 2 * n);
      if len == 0 {
        break;
      }
    }
    XorWord(crc, crc2);
    r := Xor(crc, crc2);
  }

  lemma CombinedIs(crc1: nat, crc2: nat, len2: int)
    ensures Combined(crc1, crc2, len2) == if len2 <= 0 then crc1 else Xor(Zeros(crc1, 8 * len2), crc2)
  {
  }

  /** A checksum can be taken in pieces. */
  lemma ChecksumContinues(crc: nat, a: seq<Byte>, b: seq<Byte>)
    ensures Checksum(Checksum(crc, a), b) == Checksum(crc, a + b)
  {
    var c := Register(Xor(crc, MASK), a);
    hide *;
    ChecksumIs(crc, a);
    ChecksumIs(crc, a + b);
    ChecksumIs(Checksum(crc, a), b);
    RegisterAppend(Xor(crc, MASK), a, b);
    XorTwice(c, MASK);
  }

  lemma ChecksumIs(crc: nat, s: seq<Byte>)
    ensures Checksum(crc, s) == Xor(Register(Xor(crc, MASK), s), MASK)
  {
  }

  lemma XorTwice(c: nat, m: nat)
    ensures Xor(Xor(c, m), m) == c
  {
    hide *;
    XorAssoc(c, m, m);
    XorSelf(m);
    XorComm(c, 0);
    XorZero(c);
  }

  /** The checksum of a joined to b is that of the whole. */
  lemma CombineJoins(a: seq<Byte>, b: seq<Byte>)
    ensures Combined(Checksum(0, a), Checksum(0, b), |b|) == Checksum(0, a + b)
  {
    hide *;
    var m := Xor(0, MASK);
    var ra, rb := Register(m, a), Register(0, b);
    var n := 8 * |b|;
    ChecksumIs(0, a);
    ChecksumIs(0, b);
    ChecksumIs(0, a + b);
    CombinedIs(Checksum(0, a), Checksum(0, b), |b|);
    if b == [] {
      assert a + b == a;
    } else {
      XorZero(MASK);
      RegisterAppend(m, a, b);
      RegisterLinear(ra, b);
      RegisterLinear(m, b);
      ZerosLinear(ra, MASK, n);
      Cancelling(Zeros(ra, n), Zeros(MASK, n), rb, MASK);
    }
  }

  lemma Cancelling(p: nat, q: nat, r: nat, m: nat)
    ensures Xor(Xor(p, q), Xor(Xor(q, r), m)) == Xor(Xor(p, r), m)
  {
    hide *;
    XorAssoc(q, r, m);
    XorComm(p, q);
    XorTerms(q, p, Xor(r, m));
    XorAssoc(p, r, m);
  }
}
