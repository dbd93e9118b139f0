/** The Adler-32 checksum (section 8.2 of RFC 1950): two sums modulo a prime, reduced as seldom as 32 bits allow. */
module Adler {
  import opened Arithmetic
  import opened MachineInts
  import opened Congruence

  const BASE := 65521
  const NMAX := 5552

  lemma Constants()
    ensures BASE == 65521 && NMAX == 5552
  {
  }

  /* ---- the definition ---- */

  /** The sum of the bytes from start value a on, reduced at every byte. */
  ghost function Low(a: nat, s: seq<Byte>): nat {
    if s == [] then a else (Low(a, s[..|s| - 1]) + s[|s| - 1]) % BASE
  }

  /** The sum of those sums from start value b on, reduced at every byte. */
  ghost function High(a: nat, b: nat, s: seq<Byte>): nat {
    if s == [] then b else (High(a, b, s[..|s| - 1]) + Low(a, s)) % BASE
  }

  function Packed(low: nat, high: nat): (r: UInt32)
    requires low < BASE && high < BASE
    ensures r % 0x1_0000 == low && r / 0x1_0000 == high
  {
    DivUnique(low + 0x1_0000 * high, 0x1_0000, high, low);
    low + 0x1_0000 * high
  }

  ghost predicate Halved(adler: UInt32) {
    adler % 0x1_0000 < BASE && adler / 0x1_0000 < BASE
  }

  lemma {:induction false} SumsBelow(a: nat, b: nat, s: seq<Byte>)
    requires a < BASE && b < BASE
    ensures Low(a, s) < BASE && High(a, b, s) < BASE
  {
  }

  /** The checksum of s, continued from adler. */
  ghost function Checksum(adler: UInt32, s: seq<Byte>): (r: UInt32)
    requires Halved(adler)
    ensures Halved(r)
  {
    SumsBelow(adler % 0x1_0000, adler / 0x1_0000, s);
    Packed(Low(adler % 0x1_0000, s), High(adler % 0x1_0000, adler / 0x1_0000, s))
  }

  /* ---- reduction without division ---- */

  /** Replaces a by a smaller number with the same remainder: 0x10000 leaves 15. */
  function Chop(a: nat): (r: nat) {
    a % 0x1_0000 + (a / 0x1_0000) * 16 - a / 0x1_0000
  }

  function Fold28(a: nat): nat {
    var c := Chop(a);
    if c >= BASE then c - BASE else c
  }

  function Fold32(a: nat): nat {
    Fold28(Chop(a))
  }

  /** The same for 63 bits: 2^32 leaves 225. */
  function Fold63(a: nat): nat {
    var b := a % 0x1_0000_0000 + (a / 0x1_0000_0000) * 256 - (a / 0x1_0000_0000) * 32 + a / 0x1_0000_0000;
    var c := Chop(Chop(b));
    if c >= BASE then c - BASE else c
  }

  lemma ChopIs(a: nat)
    ensures Congruent(Chop(a), a, BASE) && Chop(a) <= 0xFFFF + 15 * (a / 0x1_0000)
  {
    var q := a / 0x1_0000;
    assert a == 0x1_0000 * q + a % 0x1_0000;
    assert a == Chop(a) + q * BASE;
    Multiples(Chop(a), q, BASE);
  }

  /** Below 2^28 one chop and one subtraction are enough. */
  lemma Fold28Is(a: nat)
    requires a < 0x1000_0000
    ensures Fold28(a) == a % BASE
  {
    ChopIs(a);
    QuotientBound(a, 0x1_0000, 0x1000);
    var c := Chop(a);
    Multiples(c, -1, BASE);
    Reduced(Fold28(a), a, BASE);
  }

  /** Two chops are enough for any 32-bit sum. */
  lemma Fold32Is(a: UInt32)
    ensures Fold32(a) == a % BASE
  {
    ChopIs(a);
    QuotientBound(a, 0x1_0000, 0x1_0000);
    Fold28Is(Chop(a));
  }

  lemma Fold63Is(a: nat)
    requires a < 0x8000_0000_0000_0000
    ensures Fold63(a) == a % BASE
  {
    var q := a / 0x1_0000_0000;
    QuotientBound(a, 0x1_0000_0000, 0x8000_0000);
    var b := a % 0x1_0000_0000 + q * 225;
    assert a == b + (q * 65551) * BASE by {
      assert a == 0x1_0000_0000 * q + a % 0x1_0000_0000;
      assert 0x1_0000_0000 == 225 + 65551 * BASE;
    }
    Multiples(b, q * 65551, BASE);
    ChopIs(b);
    QuotientBound(b, 0x1_0000, 0x80_0000);
    ChopIs(Chop(b));
    QuotientBound(Chop(b), 0x1_0000, 0x800);
    var c := Chop(Chop(b));
    Multiples(c, -1, BASE);
    Reduced(Fold63(a), a, BASE);
  }

  /** Reduces a sum, with or without division as the build has it. */
  method Mod(a: UInt32, noDivide: bool) returns (r: nat)
    ensures r == a % BASE
  {
    Fold32Is(a);
    r := if noDivide then Fold32(a) else a % BASE;
  }

  method Mod28(a: UInt32, noDivide: bool) returns (r: nat)
    requires a < 0x1000_0000
    ensures r == a % BASE
  {
    Fold28Is(a);
    r := if noDivide then Fold28(a) else a % BASE;
  }

  method Mod63(a: nat, noDivide: bool) returns (r: nat)
    requires a < 0x8000_0000_0000_0000
    ensures r == a % BASE
  {
    Fold63Is(a);
    r := if noDivide then Fold63(a) else a % BASE;
  }

  /* ---- deferred reduction ---- */

  /** The sums after i further bytes stand for the reduced ones, and still fit. */
  ghost predicate Deferred(low: nat, high: nat, a: nat, b: nat, s: seq<Byte>, i: nat) {
    && low % BASE == Low(a, s) % BASE && high % BASE == High(a, b, s) % BASE
    && low <= BASE - 1 + 255 * i && 2 * high <= 2 * (i + 1) * (BASE - 1) + 255 * i * (i + 1)
  }

  lemma HighBound(i: nat, low: nat, high: nat)
    requires low <= BASE - 1 + 255 * (i + 1) && 2 * high <= 2 * (i + 1) * (BASE - 1) + 255 * i * (i + 1)
    ensures 2 * (high + low) <= 2 * (i + 2) * (BASE - 1) + 255 * (i + 1) * (i + 2)
  {
    assert 255 * (i + 1) * (i + 2) == 255 * i * (i + 1) + 2 * (255 * (i + 1)) by {
      assert (i + 1) * (i + 2) == i * (i + 1) + 2 * (i + 1);
    }
    assert 2 * (i + 2) * (BASE - 1) == 2 * (i + 1) * (BASE - 1) + 2 * (BASE - 1);
  }

  lemma PushIs(a: nat, b: nat, s: seq<Byte>, c: Byte)
    ensures Low(a, s + [c]) == (Low(a, s) + c) % BASE
    ensures High(a, b, s + [c]) == (High(a, b, s) + Low(a, s + [c])) % BASE
  {
    assert (s + [c])[..|s|] == s;
  }

  lemma DeferredStep(low: nat, high: nat, a: nat, b: nat, s: seq<Byte>, i: nat, c: Byte)
    requires Deferred(low, high, a, b, s, i)
    ensures Deferred(low + c, high + (low + c), a, b, s + [c], i + 1)
  {
    PushIs(a, b, s, c);
    HighBound(i, low + c, high);
    hide Low, High;
    var l, h := Low(a, s), High(a, b, s);
    AddCongruent(low, l, c, BASE);
    ModCongruent(l + c, BASE);
    SumCongruent(high, h, low + c, (l + c) % BASE, BASE);
    ModCongruent(h + (l + c) % BASE, BASE);
  }

  /** NMAX bytes is as far as 32 bits reach. */
  lemma DeferredFits(low: nat, high: nat, a: nat, b: nat, s: seq<Byte>, i: nat)
    requires Deferred(low, high, a, b, s, i) && i <= NMAX
    ensures low < 0x1_0000_0000 && high < 0x1_0000_0000
    ensures i <= 15 ==> low < 2 * BASE && high < 0x1000_0000
  {
    assert i * (i + 1) <= 5552 * 5553 by {
      ScaleUp2(i, 5552, i + 1);
      ScaleUp2(i + 1, 5553, 5552);
    }
    assert 255 * i * (i + 1) == 255 * (i * (i + 1));
    if i <= 15 {
      ScaleUp2(i, 15, i + 1);
      ScaleUp2(i + 1, 16, 15);
    }
  }

  lemma DeferredEnd(low: nat, high: nat, a: nat, b: nat, s: seq<Byte>, i: nat)
    requires Deferred(low, high, a, b, s, i) && a < BASE && b < BASE
    ensures low % BASE == Low(a, s) && high % BASE == High(a, b, s)
  {
    SumsBelow(a, b, s);
    hide Low, High;
    Reduced(Low(a, s), low, BASE);
    Reduced(High(a, b, s), high, BASE);
  }

  /** Adds count bytes from pos on to both sums, none of which exceeds 32 bits. */
  method AddBytes(buf: seq<Byte>, pos: nat, count: nat, low0: UInt32, high0: UInt32,
                  ghost a: nat, ghost b: nat, ghost i: nat)
    returns (low: UInt32, high: UInt32)
    requires pos + count <= |buf| && i + count <= NMAX && Deferred(low0, high0, a, b, buf[..pos], i)
    ensures Deferred(low, high, a, b, buf[..pos + count], i + count)
  {
    hide *;
    low, high := low0, high0;
    for k := 0 to count
      invariant Deferred(low, high, a, b, buf[..pos + k], i + k)
    {
      DeferredStep(low, high, a, b, buf[..pos + k], i + k, buf[pos + k]);
      DeferredFits(low + buf[pos + k], high + (low + buf[pos + k]), a, b, buf[..pos + k] + [buf[pos + k]], i + k + 1);
      assert buf[..pos + k] + [buf[pos + k]] == buf[..pos + k + 1];
      low := low + buf[pos + k];
      high := high + low;
    }
  }

  lemma ChecksumIs(adler: UInt32, s: seq<Byte>, low: nat, high: nat)
    requires Halved(adler) && low == Low(adler % 0x1_0000, s) && high == High(adler % 0x1_0000, adler / 0x1_0000, s)
    ensures low < BASE && high < BASE && Packed(low, high) == Checksum(adler, s)
  {
    SumsBelow(adler % 0x1_0000, adler / 0x1_0000, s);
  }

  /** A buffer may be absent. */
  datatype Buffer = Null | Bytes(bytes: seq<Byte>)

  /** The checksum continued over a buffer; without one, the checksum of nothing. */
  method Adler32(adler: UInt32, buf: Buffer, noDivide: bool) returns (r: UInt32)
    requires Halved(adler)
    ensures r == if buf.Null? then 1 else Checksum(adler, buf.bytes)
  {
    hide *;
    if buf == Null { return 1; }
    HalvedIs(adler);
    Constants();
    var s := buf.bytes;
    var low: UInt32, high: UInt32 := adler % 0x1_0000, adler / 0x1_0000;
    ghost var a, b: nat := low, high;
    Begin(a, b, s);
    if |s| == 1 {
      var l, h := OneByte(low, high, s[0]);
      assert s == [] + [s[0]];
      NoBytes(a, b);
      PushIs(a, b, [], s[0]);
      ChecksumIs(adler, s, l, h);
      return Packed(l, h);
    }
    if |s| < 16 {
      low, high := AddBytes(s, 0, |s|, low, high, a, b, 0);
      assert s[..|s|] == s;
      DeferredFits(low, high, a, b, s, |s|);
      DeferredEnd(low, high, a, b, s, |s|);
      OneSubtraction(low);
      var l: nat := if low >= BASE then low - BASE else low;
      var h := Mod28(high, noDivide);
      ChecksumIs(adler, s, l, h);
      return Packed(l, h);
    }
    var len := |s|;
    while len >= NMAX
      invariant 0 <= len <= |s| && Deferred(low, high, a, b, s[..|s| - len], 0)
      decreases len
    {
      low, high := AddBytes(s, |s| - len, NMAX, low, high, a, b, 0);
      len := len - NMAX;
      low, high := Reduce(low, high, a, b, s[..|s| - len], NMAX, noDivide);
    }
    if len > 0 {
      low, high := AddBytes(s, |s| - len, len, low, high, a, b, 0);
      low, high := Reduce(low, high, a, b, s[..|s|], len, noDivide);
    }
    assert s[..|s|] == s;
    DeferredEnd(low, high, a, b, s, 0);
    DeferredZero(low, high, a, b, s);
    ChecksumIs(adler, s, low, high);
    r := Packed(low, high);
  }

  lemma NoBytes(a: nat, b: nat)
    ensures Low(a, []) == a && High(a, b, []) == b
  {
  }

  /** A byte at a time: two subtractions instead of a reduction. */
  method OneByte(low0: nat, high0: nat, c: Byte) returns (low: nat, high: nat)
    requires low0 < BASE && high0 < BASE
    ensures low == (low0 + c) % BASE && high == (high0 + low) % BASE
  {
    OneSubtraction(low0 + c);
    low := low0 + c;
    if low >= BASE { low := low - BASE; }
    OneSubtraction(high0 + low);
    high := high0 + low;
    if high >= BASE { high := high - BASE; }
  }

  lemma HalvedIs(adler: UInt32)
    requires Halved(adler)
    ensures adler % 0x1_0000 < BASE && adler / 0x1_0000 < BASE
  {
  }

  lemma Begin(a: nat, b: nat, s: seq<Byte>)
    requires a < BASE && b < BASE
    ensures Deferred(a, b, a, b, s[..0], 0)
  {
    assert s[..0] == [];
  }

  lemma OneSubtraction(x: nat)
    requires x < 2 * BASE
    ensures (if x >= BASE then x - BASE else x) == x % BASE
  {
  }

  lemma DeferredZero(low: nat, high: nat, a: nat, b: nat, s: seq<Byte>)
    requires Deferred(low, high, a, b, s, 0)
    ensures low < BASE && high < BASE && low % BASE == low && high % BASE == high
  {
  }

  /** Reduces both sums, so that deferral can begin again. */
  method Reduce(low0: UInt32, high0: UInt32, ghost a: nat, ghost b: nat, ghost s: seq<Byte>, ghost i: nat,
                noDivide: bool)
    returns (low: UInt32, high: UInt32)
    requires Deferred(low0, high0, a, b, s, i)
    ensures Deferred(low, high, a, b, s, 0)
  {
    var l := Mod(low0, noDivide);
    var h := Mod(high0, noDivide);
    low, high := l, h;
  }

  /* ---- the checksum of a concatenation ---- */

  ghost function Sum(s: seq<Byte>): nat {
    if s == [] then 0 else Sum(s[..|s| - 1]) + s[|s| - 1]
  }

  /** The sum of the sums of all prefixes. */
  ghost function Weighted(s: seq<Byte>): nat {
    if s == [] then 0 else Weighted(s[..|s| - 1]) + Sum(s)
  }

  lemma SumPush(s: seq<Byte>, c: Byte)
    ensures Sum(s + [c]) == Sum(s) + c && Weighted(s + [c]) == Weighted(s) + Sum(s + [c])
  {
    assert (s + [c])[..|s|] == s;
  }

  /** The reduced sums, in terms of the plain ones. */
  lemma {:induction false} Unreduced(a: nat, b: nat, s: seq<Byte>)
    requires a < BASE && b < BASE
    ensures Low(a, s) == (a + Sum(s)) % BASE && High(a, b, s) == (b + |s| * a + Weighted(s)) % BASE
  {
    if s == [] {
      Reduced(a, a, BASE);
      Reduced(b, b, BASE);
    } else {
      hide *;
      Constants();
      var t, c := s[..|s| - 1], s[|s| - 1];
      assert s == t + [c];
      Unreduced(a, b, t);
      PushIs(a, b, t, c);
      SumPush(t, c);
      UnreducedStep(a, b, Sum(t), Weighted(t), |t|, c);
    }
  }

  lemma UnreducedStep(a: nat, b: nat, u: nat, w: nat, n: nat, c: nat)
    ensures ((a + u) % BASE + c) % BASE == (a + (u + c)) % BASE
    ensures ((b + n * a + w) % BASE + (a + (u + c)) % BASE) % BASE == (b + (n + 1) * a + (w + (u + c))) % BASE
  {
    ModCongruent(a + u, BASE);
    AddCongruent((a + u) % BASE, a + u, c, BASE);
    ModCongruent(b + n * a + w, BASE);
    ModCongruent(a + (u + c), BASE);
    SumCongruent((b + n * a + w) % BASE, b + n * a + w, (a + (u + c)) % BASE, a + (u + c), BASE);
    Spread(n, 1, a);
  }

  lemma {:induction false} SumAdd(s: seq<Byte>, t: seq<Byte>)
    ensures Sum(s + t) == Sum(s) + Sum(t) && Weighted(s + t) == Weighted(s) + Weighted(t) + |t| * Sum(s)
  {
    if t == [] {
      assert s + t == s;
    } else {
      var k := |t| - 1;
      SumAdd(s, t[..k]);
      assert s + t == s + t[..k] + [t[k]] && t == t[..k] + [t[k]];
      SumPush(s + t[..k], t[k]);
      SumPush(t[..k], t[k]);
      Spread(k, 1, Sum(s));
    }
  }

  /** The halves of the checksum of s + t in terms of those of s and t, where rem is the length of t, reduced. */
  lemma CombineSums(s: seq<Byte>, t: seq<Byte>, rem: nat)
    requires rem == |t| % BASE
    ensures Low(1, s + t) == (Low(1, s) + Low(1, t) - 1) % BASE
    ensures High(1, 0, s + t) == (rem * Low(1, s) + High(1, 0, s) + High(1, 0, t) - rem) % BASE
  {
    hide *;
    Constants();
    Unreduced(1, 0, s);
    Unreduced(1, 0, t);
    Unreduced(1, 0, s + t);
    SumAdd(s, t);
    CombineLow(Sum(s), Sum(t), Low(1, s), Low(1, t), BASE);
    CombineHigh(Sum(s), Weighted(s), Weighted(t), |s|, |t|, rem, Low(1, s), High(1, 0, s), High(1, 0, t), BASE);
    Units(|s|, |t|, Sum(s), Weighted(s), Weighted(t));
  }

  lemma Units(m: nat, n: nat, u: nat, w: nat, x: nat)
    ensures 0 + m * 1 + w == m + w && 0 + n * 1 + x == n + x
    ensures 0 + (m + n) * 1 + (w + x + n * u) == m + n + w + x + n * u
  {
  }

  lemma CombineLow(u: nat, v: nat, a1: nat, a2: nat, p: nat)
    requires p > 0 && a1 == (1 + u) % p && a2 == (1 + v) % p
    ensures (1 + (u + v)) % p == (a1 + a2 - 1) % p
  {
    hide *;
    ModCongruent(1 + u, p);
    ModCongruent(1 + v, p);
    SumCongruent(a1, 1 + u, a2, 1 + v, p);
    AddCongruent(a1 + a2, 1 + u + (1 + v), -1, p);
    CongruentMeans(a1 + a2 + -1, 1 + u + (1 + v) + -1, p);
  }

  lemma CombineHigh(u: nat, w: nat, x: nat, m: nat, n: nat, rem: nat, a1: nat, b1: nat, b2: nat, p: nat)
    requires p > 0 && rem == n % p && a1 == (1 + u) % p && b1 == (m + w) % p && b2 == (n + x) % p
    ensures (m + n + w + x + n * u) % p == (rem * a1 + b1 + b2 - rem) % p
  {
    hide *;
    ModCongruent(1 + u, p);
    ModCongruent(m + w, p);
    ModCongruent(n + x, p);
    ModCongruent(n, p);
    // rem * a1 agrees with rem * (1 + u), which is rem + u * rem, and so with rem + u * n
    ScaleCongruent(a1, 1 + u, rem, p);
    ScaleCongruent(rem, n, u, p);
    OneMore(rem, u, n);
    AddCongruent(u * rem, u * n, rem, p);
    Trans(rem * a1, rem * (1 + u), u * n + rem, p);
    SumCongruent(b1, m + w, b2, n + x, p);
    SumCongruent(rem * a1, u * n + rem, b1 + b2, m + w + (n + x), p);
    var less: int := 0 - rem as int;
    AddCongruent(rem * a1 + (b1 + b2), u * n + rem + (m + w + (n + x)), less, p);
    CongruentMeans(rem * a1 + (b1 + b2) + less, u * n + rem + (m + w + (n + x)) + less, p);
  }

  lemma OneMore(rem: nat, u: nat, n: nat)
    ensures rem * (1 + u) == u * rem + rem && n * u == u * n
  {
  }

  const FAILED: UInt32 := 0xFFFF_FFFF

  /** The checksum of a concatenation from those of its parts and the length of the second. */
  method Combine(adler1: UInt32, adler2: UInt32, len2: int, noDivide: bool, ghost s: seq<Byte>, ghost t: seq<Byte>)
    returns (r: UInt32)
    requires len2 < 0x8000_0000_0000_0000 && Halved(adler1) && Halved(adler2)
    ensures len2 < 0 ==> r == FAILED
    ensures adler1 == Checksum(1, s) && adler2 == Checksum(1, t) && len2 == |t| ==> r == Checksum(1, s + t)
  {
    hide *;
    if len2 < 0 { return FAILED; }
    Constants();
    HalvedIs(adler1);
    HalvedIs(adler2);
    var a1: nat, b1: nat := adler1 % 0x1_0000, adler1 / 0x1_0000;
    var a2: nat, b2: nat := adler2 % 0x1_0000, adler2 / 0x1_0000;
    var rem := Mod63(len2, noDivide);
    ProductFits(rem, a1);
    var product := Mod(rem * a1, noDivide);
    var sum1: nat := a1 + (a2 + BASE - 1);
    var sum2: nat := product + (b1 + b2 + BASE - rem);
    CombineRange(a1, a2, b1, b2, rem, product);
    if sum1 >= BASE { sum1 := sum1 - BASE; }
    if sum1 >= BASE { sum1 := sum1 - BASE; }
    if sum2 >= 2 * BASE { sum2 := sum2 - 2 * BASE; }
    if sum2 >= BASE { sum2 := sum2 - BASE; }
    r := Packed(sum1, sum2);
    StartHalves();
    if adler1 == Checksum(1, s) && adler2 == Checksum(1, t) && len2 == |t| {
      ChecksumHalves(1, s);
      ChecksumHalves(1, t);
      CombineSums(s, t, rem);
      ChecksumIs(1, s + t, sum1, sum2);
    }
  }

  lemma StartHalves()
    ensures Halved(1) && 1 % 0x1_0000 == 1 && 1 / 0x1_0000 == 0
  {
  }

  lemma ChecksumHalves(adler: UInt32, s: seq<Byte>)
    requires Halved(adler)
    ensures Checksum(adler, s) % 0x1_0000 == Low(adler % 0x1_0000, s)
    ensures Checksum(adler, s) / 0x1_0000 == High(adler % 0x1_0000, adler / 0x1_0000, s)
  {
  }

  lemma ProductFits(x: nat, y: nat)
    requires x < BASE && y < BASE
    ensures 0 <= x * y < 0x1_0000_0000
  {
    ScaleUp2(x, 65520, y);
    ScaleUp2(y, 65520, 65520);
  }

  /** x, reduced by subtractions, is what z leaves. */
  lemma Subtracted(x: int, z: int, v: int, k: int)
    requires v == x - k * BASE && 0 <= v < BASE && Congruent(x, z, BASE)
    ensures v == z % BASE
  {
    Multiples(x, -k, BASE);
    Reduced(v, z, BASE);
  }

  /** At most two subtractions are needed for either half. */
  lemma CombineRange(a1: nat, a2: nat, b1: nat, b2: nat, rem: nat, product: nat)
    requires a1 < BASE && a2 < BASE && b1 < BASE && b2 < BASE && rem < BASE && product == (rem * a1) % BASE
    ensures var x := a1 + (a2 + BASE - 1);
      (if x >= 2 * BASE then x - 2 * BASE else if x >= BASE then x - BASE else x) == (a1 + a2 - 1) % BASE
    ensures var x := product + (b1 + b2 + BASE - rem); var y := if x >= 2 * BASE then x - 2 * BASE else x;
      (if y >= BASE then y - BASE else y) == (rem * a1 + b1 + b2 - rem) % BASE
  {
    hide *;
    Constants();
    ModCongruent(rem * a1, BASE);
    LowRange(a1, a2);
    HighRange(product, rem * a1, b1, b2, rem);
  }

  lemma LowRange(a1: nat, a2: nat)
    requires a1 < BASE && a2 < BASE
    ensures var x := a1 + (a2 + BASE - 1);
      (if x >= 2 * BASE then x - 2 * BASE else if x >= BASE then x - BASE else x) == (a1 + a2 - 1) % BASE
  {
    var x := a1 + (a2 + BASE - 1);
    var k := if x >= 2 * BASE then 2 else if x >= BASE then 1 else 0;
    Multiples(a1 + a2 - 1, 1, BASE);
    Subtracted(x, a1 + a2 - 1, x - k * BASE, k);
  }

  lemma HighRange(product: nat, whole: nat, b1: nat, b2: nat, rem: nat)
    requires product < BASE && b1 < BASE && b2 < BASE && rem < BASE && Congruent(product, whole, BASE)
    ensures var x := product + (b1 + b2 + BASE - rem); var y := if x >= 2 * BASE then x - 2 * BASE else x;
      (if y >= BASE then y - BASE else y) == (whole + b1 + b2 - rem) % BASE
  {
    var x := product + (b1 + b2 + BASE - rem);
    var j := if x >= 2 * BASE then 2 else 0;
    var k := if x - j * BASE >= BASE then 1 else 0;
    AddCongruent(product, whole, b1 + b2 - rem, BASE);
    Multiples(product + (b1 + b2 - rem), 1, BASE);
    Subtracted(x, whole + b1 + b2 - rem, x - (j + k) * BASE, j + k);
  }
}
