/** Whole bytes and big-endian numbers in the bit stream, as headers use them. */
module BlockHeader {
  import opened Arithmetic
  import opened MachineInts
  import opened SetSums
  import opened BitStream
  import opened BitFields

  lemma EightBits()
    ensures Pow2(8) == 0x100 && Pow2(24) == 0x100_0000 && Pow2(32) == 0x1_0000_0000
  {
    PowersHere();
  }

  /* ---- bytes ---- */

  method PutBytes(w: BitWriter, s: seq<Byte>)
    requires w.Valid()
    modifies w
    ensures w.Valid() && w.Bits() == old(w.Bits()) + BytesToBits(s) && old(w.zbits) <= w.zbits
  {
    hide *;
    ghost var start := w.Bits();
    NoBytes();
    EightBits();
    assert s[..0] == [] && start + [] == start;
    for i := 0 to |s|
      invariant w.Valid() && w.Bits() == start + BytesToBits(s[..i]) && old(w.zbits) <= w.zbits
    {
      assert s[..i + 1] == s[..i] + [s[i]];
      BytesAppend(s[..i], [s[i]]);
      OneByte(s[i]);
      Shift(start, BytesToBits(s[..i]), ToBits(s[i], 8));
      w.W(8, s[i]);
    }
    assert s[..|s|] == s;
  }

  lemma {:induction false} BytesHead(s: seq<Byte>)
    requires s != []
    ensures BytesToBits(s) == ToBits(s[0], 8) + BytesToBits(s[1..])
  {
    hide *;
    assert s == [s[0]] + s[1..];
    BytesAppend([s[0]], s[1..]);
    OneByte(s[0]);
  }

  /** Reads bytes that must be exactly those of s. */
  method ExpectBytes(r: BitReader, s: seq<Byte>, ghost tail: seq<bool>) returns (o: Outcome<bool>)
    requires r.Valid()
    modifies r
    ensures r.Valid() && |r.Rest()| <= old(|r.Rest()|) && (o.Value? ==> old(r.Rest()) == BytesToBits(s) + r.Rest())
    ensures old(r.Rest()) == BytesToBits(s) + tail ==> o.Value? && r.Rest() == tail
  {
    hide *;
    ghost var all := r.Rest();
    ghost var good := all == BytesToBits(s) + tail;
    EightBits();
    NoBytes();
    assert s[0..] == s && s[..0] == [] && [] + all == all;
    for i := 0 to |s|
      invariant r.Valid() && |r.Rest()| <= old(|r.Rest()|) && all == BytesToBits(s[..i]) + r.Rest()
      invariant good ==> r.Rest() == BytesToBits(s[i..]) + tail
    {
      ghost var before := r.Rest();
      var uc := ReadField(r, 8);
      if good {
        BytesHead(s[i..]);
        assert s[i..][0] == s[i] && s[i..][1..] == s[i + 1..];
        Shift(ToBits(s[i], 8), BytesToBits(s[i + 1..]), tail);
        FieldRead(uc, 8, before, r.Rest(), s[i], BytesToBits(s[i + 1..]) + tail);
      }
      if uc.NeedInput? { return NeedInput; }
      if uc.v != s[i] { return DataError; }
      assert s[..i + 1] == s[..i] + [s[i]];
      BytesAppend(s[..i], [s[i]]);
      OneByte(s[i]);
      Shift(BytesToBits(s[..i]), ToBits(s[i], 8), r.Rest());
    }
    assert s[..|s|] == s && s[|s|..] == [];
    if good { assert [] + tail == tail; }
    o := Value(true);
  }

  /* ---- big-endian numbers ---- */

  /** What is left of v when its last j bytes are still to come. */
  ghost function LowPart(v: nat, j: nat): nat {
    v % Pow2(8 * j)
  }

  lemma {:induction false} LowPartNext(v: nat, j: nat)
    requires j > 0
    ensures ToBits(LowPart(v, j), 8 * j) ==
      ToBits((v / Pow2(8 * (j - 1))) % 256, 8) + ToBits(LowPart(v, j - 1), 8 * (j - 1))
    ensures v / Pow2(8 * (j - 1)) == 256 * (v / Pow2(8 * j)) + (v / Pow2(8 * (j - 1))) % 256
  {
    hide *;
    var p := Pow2(8 * (j - 1));
    EightBits();
    Pow2Add(8 * (j - 1), 8);
    assert 8 * (j - 1) + 8 == 8 * j;
    DivMod(v, p);
    DivMod(v / p, 256);
    var q, x, y := v / p / 256, (v / p) % 256, v % p;
    Nested(q, p, 256, x, y);
    RoomLeft(x, 256, y, p);
    DivUnique(v, p * 256, q, x * p + y);
    LowPartIs(v, j);
    LowPartIs(v, j - 1);
    assert 8 + 8 * (j - 1) == 8 * j;
    BitsAppend(x, 8, y, 8 * (j - 1));
  }

  lemma LowPartIs(v: nat, j: nat)
    ensures LowPart(v, j) == v % Pow2(8 * j)
  {
  }

  lemma LowPartEnds(v: nat, n: nat)
    requires v < Pow2(8 * n)
    ensures LowPart(v, n) == v && v / Pow2(8 * n) == 0
    ensures LowPart(v, 0) == 0 && v / Pow2(0) == v && ToBits(LowPart(v, 0), 0) == []
  {
    DivUnique(v, Pow2(8 * n), 0, v);
    assert Pow2(0) == 1;
  }

  /** Sends a 32-bit number, most significant byte first. */
  method PutUInt32(w: BitWriter, u: UInt32)
    requires w.Valid()
    modifies w
    ensures w.Valid() && w.Bits() == old(w.Bits()) + ToBits(u, 32) && old(w.zbits) <= w.zbits
  {
    hide *;
    EightBits();
    ghost var start := w.Bits();
    LowPartEnds(u, 4);
    LowPartNext(u, 4);
    LowPartNext(u, 3);
    LowPartNext(u, 2);
    LowPartNext(u, 1);
    TwoBytes();
    w.W(8, (u / 0x100_0000) % 256);
    w.W(8, (u / 0x1_0000) % 256);
    w.W(8, (u / 0x100) % 256);
    w.W(8, u % 256);
    ghost var b3, b2, b1, b0 := ToBits((u / 0x100_0000) % 256, 8), ToBits((u / 0x1_0000) % 256,
          8), ToBits((u / 0x100) % 256, 8), ToBits(u % 256, 8);
    assert start + b3 + b2 + b1 + b0 == start + (b3 + (b2 + (b1 + (b0 + []))));
  }

  lemma TwoBytes()
    ensures Pow2(0) == 1 && Pow2(16) == 0x1_0000
  {
    assert Pow2(8) == 0x100;
  }

  /** Reads a number of n bytes, most significant first. */
  method ReadBigEndian(r: BitReader, n: nat, ghost v: nat, ghost tail: seq<bool>) returns (o: Outcome<nat>)
    requires r.Valid() && v < Pow2(8 * n)
    modifies r
    ensures r.Valid() && |r.Rest()| <= old(|r.Rest()|) && !o.DataError?
    ensures old(r.Rest()) == ToBits(v, 8 * n) + tail ==> o == Value(v) && r.Rest() == tail
  {
    hide *;
    ghost var good := r.Rest() == ToBits(v, 8 * n) + tail;
    EightBits();
    LowPartEnds(v, n);
    var acc := 0;
    for i := 0 to n
      invariant r.Valid() && |r.Rest()| <= old(|r.Rest()|) && acc >= 0
      invariant good ==> r.Rest() == ToBits(LowPart(v, n - i), 8 * (n - i)) + tail && acc == v / Pow2(8 * (n - i))
    {
      ghost var before := r.Rest();
      var uc := ReadField(r, 8);
      if good {
        LowPartNext(v, n - i);
        ghost var more := ToBits(LowPart(v, n - i - 1), 8 * (n - i - 1)) + tail;
        Shift(ToBits((v / Pow2(8 * (n - i - 1))) % 256, 8), ToBits(LowPart(v, n - i - 1), 8 * (n - i - 1)), tail);
        FieldRead(uc, 8, before, r.Rest(), (v / Pow2(8 * (n - i - 1))) % 256, more);
      }
      if uc.NeedInput? { return NeedInput; }
      acc := acc * 256 + uc.v;
    }
    if good { assert [] + tail == tail; }
    o := Value(acc);
  }
}
