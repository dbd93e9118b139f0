/** The bit buffers through which the compressor writes and the decompressor reads. */
module BitStream {
  import opened Arithmetic
  import opened MachineInts
  import opened SetSums

  /* ---- numbers as bits, most significant first ---- */

  ghost function ToBits(v: int, n: nat): (r: seq<bool>)
    ensures |r| == n
    decreases n
  {
    if n == 0 then [] else ToBits(v / 2, n - 1) + [v % 2 == 1]
  }

  ghost function FromBits(b: seq<bool>): nat {
    if b == [] then 0 else 2 * FromBits(b[..|b| - 1]) + if b[|b| - 1] then 1 else 0
  }

  ghost function BytesToBits(s: seq<Byte>): (r: seq<bool>)
    ensures |r| == 8 * |s|
  {
    if s == [] then [] else BytesToBits(s[..|s| - 1]) + ToBits(s[|s| - 1], 8)
  }

  lemma {:induction false} FromTo(v: nat, n: nat)
    requires v < Pow2(n)
    ensures FromBits(ToBits(v, n)) == v
  {
    if n > 0 {
      var a := ToBits(v / 2, n - 1);
      assert (a + [v % 2 == 1])[..n - 1] == a;
      FromTo(v / 2, n - 1);
    }
  }

  lemma {:induction false} FromBound(b: seq<bool>)
    ensures FromBits(b) < Pow2(|b|)
  {
    if b != [] { FromBound(b[..|b| - 1]); }
  }

  lemma {:induction false} FromAppend(a: seq<bool>, b: seq<bool>)
    ensures FromBits(a + b) == FromBits(a) * Pow2(|b|) + FromBits(b)
  {
    if b == [] {
      assert a + b == a;
    } else {
      var b' := b[..|b| - 1];
      assert (a + b)[..|a + b| - 1] == a + b';
      FromAppend(a, b');
      assert Pow2(|b|) == 2 * Pow2(|b'|);
      DoubleShift(FromBits(a), Pow2(|b'|), FromBits(b'));
    }
  }

  lemma DoubleShift(x: int, p: int, y: int)
    ensures 2 * (x * p + y) == x * (2 * p) + 2 * y
  {
  }

  lemma Halve(a: nat, p: nat, b: nat)
    requires b < 2 * p
    ensures (a * (2 * p) + b) / 2 == a * p + b / 2 && (a * (2 * p) + b) % 2 == b % 2 && b / 2 < p
  {
    assert a * (2 * p) == 2 * (a * p);
  }

  /** A number built from two parts has the bits of both. */
  lemma {:induction false} BitsAppend(a: nat, m: nat, b: nat, n: nat)
    requires b < Pow2(n)
    ensures ToBits(a * Pow2(n) + b, m + n) == ToBits(a, m) + ToBits(b, n)
  {
    if n == 0 {
      assert ToBits(a, m) + [] == ToBits(a, m);
    } else {
      var p := Pow2(n - 1);
      Halve(a, p, b);
      BitsAppend(a, m, b / 2, n - 1);
      var l := [b % 2 == 1];
      assert (ToBits(a, m) + ToBits(b / 2, n - 1)) + l == ToBits(a, m) + (ToBits(b / 2, n - 1) + l);
    }
  }

  lemma BytesLast(s: seq<Byte>)
    requires s != []
    ensures BytesToBits(s) == BytesToBits(s[..|s| - 1]) + ToBits(s[|s| - 1], 8)
  {
  }

  lemma {:induction false} BytesAppend(s: seq<Byte>, t: seq<Byte>)
    ensures BytesToBits(s + t) == BytesToBits(s) + BytesToBits(t)
  {
    hide *;
    if t == [] {
      NoBytes();
      assert s + t == s;
    } else {
      var t', l := t[..|t| - 1], ToBits(t[|t| - 1], 8);
      assert (s + t)[..|s + t| - 1] == s + t';
      BytesAppend(s, t');
      BytesLast(s + t);
      BytesLast(t);
      assert (BytesToBits(s) + BytesToBits(t')) + l == BytesToBits(s) + (BytesToBits(t') + l);
    }
  }

  lemma OneByte(c: Byte)
    ensures BytesToBits([c]) == ToBits(c, 8)
  {
    assert [c][..0] == [] && BytesToBits([]) == [];
    assert [] + ToBits(c, 8) == ToBits(c, 8);
  }

  /* ---- writing ---- */

  /** The bits waiting in a write buffer: its top live bits. */
  ghost function TopBits(buff: nat, live: nat): (r: seq<bool>)
    ensures |r| == live
  {
    ToBits(buff / Pow2(32 - live), live)
  }

  /** Only the top live bits of the buffer are set. */
  ghost predicate TopOnly(buff: nat, live: nat) {
    live <= 32 && buff < Pow2(32) && buff % Pow2(32 - live) == 0
  }

  /** Bitwise or of v, moved up by shift places, into bits of the buffer that are clear. */
  function OrShifted(buff: nat, v: nat, shift: nat): nat {
    buff + v * Pow2(shift)
  }

  lemma WriteFits(buff: nat, live: nat, n: nat, v: nat)
    requires TopOnly(buff, live) && live + n <= 32 && v < Pow2(n)
    ensures TopOnly(OrShifted(buff, v, 32 - live - n), live + n)
    ensures TopBits(OrShifted(buff, v, 32 - live - n), live + n) == TopBits(buff, live) + ToBits(v, n)
  {
    hide *;
    PowersHere();
    TopParts(buff, live);
    var s := 32 - live - n;
    var p, q := Pow2(s), Pow2(n);
    Pow2Add(s, n);
    Pow2Add(live, n);
    Pow2Add(live + n, s);
    var a := buff / Pow2(32 - live);
    Regroup(a, p, q, v);
    OrIs(buff, v, s);
    DivUnique(OrShifted(buff, v, s), p, a * q + v, 0);
    BitsAppend(a, live, v, n);
    RoomLeft(a, Pow2(live), v, q);
    ProductBound(a * q + v, Pow2(live + n), p);
    TopBack(OrShifted(buff, v, s), live + n);
  }

  lemma OrIs(buff: nat, v: nat, shift: nat)
    ensures OrShifted(buff, v, shift) == buff + v * Pow2(shift)
  {
  }

  lemma Regroup(a: int, p: int, q: int, v: int)
    ensures a * (p * q) + v * p == (a * q + v) * p
  {
  }

  lemma RoomLeft(a: nat, m: nat, v: nat, q: nat)
    requires a < m && v < q
    ensures a * q + v < m * q
  {
    ScaleUp2(a + 1, m, q);
    assert (a + 1) * q == a * q + q;
  }

  lemma ProductBound(x: nat, m: nat, p: nat)
    requires x < m && p > 0
    ensures x * p < m * p
  {
    ScaleUp(m, x, p);
  }

  lemma EmitByte(buff: nat, live: nat)
    requires TopOnly(buff, live) && live >= 8
    ensures buff / 0x100_0000 < 256 && TopOnly(buff * 256 % 0x1_0000_0000, live - 8)
    ensures TopBits(buff, live) == ToBits(buff / 0x100_0000, 8) + TopBits(buff * 256 % 0x1_0000_0000, live - 8)
  {
    hide *;
    PowersHere();
    TopParts(buff, live);
    var m := live - 8;
    var p, w := Pow2(32 - live), Pow2(live - 8);
    Pow2Add(m, 32 - live);
    Pow2Add(32 - live, 8);
    var a := buff / p;
    var c, b := a / w, a % w;
    DivMod(a, w);
    Regroup(c, p, w, b);
    ProductBound(b, w, p);
    DivUnique(buff, w * p, c, b * p);
    DivUnique(buff * 256, 0x1_0000_0000, c, b * p * 256);
    Assoc(b, p, 256);
    DivUnique(b * p * 256, p * 256, b, 0);
    Pow2Add(8, m);
    QuotientBound(buff, 0x100_0000, 256);
    QuotientBound(a, w, Pow2(8));
    BitsAppend(c, 8, b, m);
    TopBack(buff * 256 % 0x1_0000_0000, m);
  }

  lemma Assoc(a: int, b: int, c: int)
    ensures a * b * c == a * (b * c)
  {
  }

  lemma TopParts(buff: nat, live: nat)
    requires TopOnly(buff, live)
    ensures live <= 32 && buff < Pow2(32) && buff == (buff / Pow2(32 - live)) * Pow2(32 - live)
    ensures buff / Pow2(32 - live) < Pow2(live)
    ensures TopBits(buff, live) == ToBits(buff / Pow2(32 - live), live)
  {
    DivMod(buff, Pow2(32 - live));
    Pow2Add(live, 32 - live);
    QuotientBound(buff, Pow2(32 - live), Pow2(live));
  }

  lemma TopBack(buff: nat, live: nat)
    requires live <= 32 && buff < 0x1_0000_0000 && buff % Pow2(32 - live) == 0
    ensures TopOnly(buff, live) && TopBits(buff, live) == ToBits(buff / Pow2(32 - live), live)
  {
    PowersHere();
  }

  lemma PowersHere()
    ensures Pow2(8) == 0x100 && Pow2(24) == 0x100_0000 && Pow2(32) == 0x1_0000_0000
  {
    assert Pow2(8) == 0x100;
    assert Pow2(16) == 0x1_0000;
    assert Pow2(24) == 0x100_0000;
    assert Pow2(32) == 0x1_0000_0000;
  }

  /** The bit buffer and the bytes produced so far. */
  class BitWriter {
    var bsBuff: UInt32
    var bsLive: int
    var zbits: seq<Byte>

    ghost predicate Valid()
      reads this
    {
      bsLive >= 0 && TopOnly(bsBuff, bsLive)
    }

    /** All bits written so far. */
    ghost function Bits(): (r: seq<bool>)
      requires Valid()
      reads this
    {
      BytesToBits(zbits) + TopBits(bsBuff, bsLive)
    }

    lemma BitsCover()
      requires Valid()
      ensures |Bits()| >= 8 * |zbits|
    {
    }

    constructor ()
      ensures Valid() && Bits() == [] && bsLive == 0 && zbits == []
    {
      bsBuff, bsLive, zbits := 0, 0, [];
      new;
      PowersHere();
      assert BytesToBits(zbits) == [];
    }

    /** Moves whole bytes out of the buffer. */
    method Drain()
      requires Valid()
      modifies this
      ensures Valid() && Bits() == old(Bits()) && bsLive == old(bsLive) % 8
      ensures old(zbits) <= zbits
    {
      hide *;
      ghost var all := Bits();
      ValidParts();
      while bsLive >= 8
        invariant Valid() && Bits() == all && bsLive >= 0 && bsLive % 8 == old(bsLive) % 8 && old(zbits) <= zbits
      {
        ValidParts();
        EmitByte(bsBuff, bsLive);
        PowersHere();
        ghost var z, buff, live := zbits, bsBuff, bsLive;
        zbits := zbits + [bsBuff / 0x100_0000];
        bsBuff := bsBuff * 256 % 0x1_0000_0000;
        bsLive := bsLive - 8;
        ValidParts();
        BytesAppend(z, [buff / 0x100_0000]);
        OneByte(buff / 0x100_0000);
        assert BytesToBits(z) + (ToBits(buff / 0x100_0000, 8) + TopBits(bsBuff, bsLive)) ==
               (BytesToBits(z) + ToBits(buff / 0x100_0000, 8)) + TopBits(bsBuff, bsLive);
      }
    }

    lemma ValidParts()
      ensures Valid() <==> bsLive >= 0 && TopOnly(bsBuff, bsLive)
      ensures Valid() ==> bsLive <= 32 && Bits() == BytesToBits(zbits) + TopBits(bsBuff, bsLive)
    {
    }

    /** The bytes produced so far have been taken away; bits short of a byte stay. */
    method Reset()
      requires Valid()
      modifies `zbits
      ensures Valid() && zbits == [] && old(Bits()) == BytesToBits(old(zbits)) + Bits() && |Bits()| <= 32
    {
      zbits := [];
      assert BytesToBits([]) == [];
    }

    /** Appends the low n bits of v. */
    method W(n: nat, v: nat)
      requires Valid() && n <= 25 && v < Pow2(n)
      modifies this
      ensures Valid() && Bits() == old(Bits()) + ToBits(v, n) && bsLive <= 32
      ensures old(zbits) <= zbits
    {
      hide *;
      Drain();
      ValidParts();
      WriteFits(bsBuff, bsLive, n, v);
      TopParts(OrShifted(bsBuff, v, 32 - bsLive - n), bsLive + n);
      PowersHere();
      ghost var t := TopBits(bsBuff, bsLive);
      bsBuff := OrShifted(bsBuff, v, 32 - bsLive - n);
      bsLive := bsLive + n;
      ValidParts();
      assert BytesToBits(zbits) + (t + ToBits(v, n)) == (BytesToBits(zbits) + t) + ToBits(v, n);
    }

    /** Writes out everything, padding the last byte with zero bits; the live count may end below zero. */
    method Finish()
      requires Valid()
      modifies this
      ensures bsLive <= 0
      ensures exists pad :: |pad| < 8 && BytesToBits(zbits) == old(Bits()) + pad
      ensures old(zbits) <= zbits
    {
      hide *;
      ghost var all, pad := Bits(), [];
      ValidParts();
      while bsLive > 0
        invariant bsLive >= 0 ==> Valid() && Bits() == all && pad == []
        invariant bsLive < 0 ==> |pad| < 8 && BytesToBits(zbits) == all + pad
        invariant old(zbits) <= zbits
      {
        ValidParts();
        ghost var z, buff, live := zbits, bsBuff, bsLive;
        if live >= 8 { EmitByte(buff, live); } else { PadByte(buff, live); }
        PowersHere();
        zbits := zbits + [bsBuff / 0x100_0000];
        bsBuff := bsBuff * 256 % 0x1_0000_0000;
        bsLive := bsLive - 8;
        BytesAppend(z, [buff / 0x100_0000]);
        OneByte(buff / 0x100_0000);
        ghost var c := ToBits(buff / 0x100_0000, 8);
        if live >= 8 {
          ValidParts();
          assert BytesToBits(z) + (c + TopBits(bsBuff, bsLive)) == (BytesToBits(z) + c) + TopBits(bsBuff, bsLive);
        } else {
          pad := c[live..];
          assert BytesToBits(z) + c == (BytesToBits(z) + c[..live]) + pad;
        }
      }
      if bsLive == 0 {
        ValidParts();
        NoTopBits(bsBuff, 0);
        assert BytesToBits(zbits) == all + pad;
      }
    }
  }

  lemma NoTopBits(buff: nat, live: nat)
    requires live == 0
    ensures TopBits(buff, live) == []
  {
  }

  /** The last, partial byte carries the waiting bits first. */
  lemma PadByte(buff: nat, live: nat)
    requires TopOnly(buff, live) && 0 < live < 8
    ensures buff / 0x100_0000 < 256 && ToBits(buff / 0x100_0000, 8)[..live] == TopBits(buff, live)
  {
    hide *;
    PowersHere();
    TopParts(buff, live);
    var k := 8 - live;
    var a, q := buff / Pow2(32 - live), Pow2(k);
    Pow2Add(k, 24);
    Assoc(a, q, 0x100_0000);
    DivUnique(buff, 0x100_0000, a * q, 0);
    QuotientBound(buff, 0x100_0000, 256);
    BitsAppend(a, live, 0, k);
  }

  /* ---- reading ---- */

  /** The bits waiting in a read buffer: its low live bits, whatever lies above them. */
  ghost function LowBits(buff: nat, live: nat): (r: seq<bool>)
    ensures |r| == live
  {
    ToBits(buff % Pow2(live), live)
  }

  lemma AddByte(buff: nat, live: nat, c: Byte)
    requires live + 8 <= 32
    ensures LowBits((buff * 256 + c) % 0x1_0000_0000, live + 8) == LowBits(buff, live) + ToBits(c, 8)
  {
    hide *;
    PowersHere();
    var p, q := Pow2(live), Pow2(32 - live - 8);
    Pow2Add(live, 8);
    Pow2Add(live + 8, 32 - live - 8);
    var x := buff * 256 + c;
    var d, r := buff / p, buff % p;
    DivMod(buff, p);
    Regroup(d, 256, p, r);
    Assoc(d, p, 256);
    RoomLeft(r, p, c, 256);
    DivUnique(x, p * 256, d, r * 256 + c);
    ModMod(x, p * 256, q);
    LowBitsIs((buff * 256 + c) % 0x1_0000_0000, live + 8);
    LowBitsIs(buff, live);
    BitsAppend(r, live, c, 8);
  }

  lemma LowBitsIs(buff: nat, live: nat)
    ensures LowBits(buff, live) == ToBits(buff % Pow2(live), live)
  {
  }

  /** Reducing modulo a multiple first changes nothing. */
  lemma ModMod(x: nat, p: nat, q: nat)
    requires p > 0 && q > 0
    ensures p * q > 0 && (x % (p * q)) % p == x % p
  {
    ScaleUp(p, 0, q);
    var y, k := x % (p * q), x / (p * q);
    DivMod(x, p * q);
    DivMod(y, p);
    Nested(k, p, q, y / p, y % p);
    DivUnique(x, p, k * q + y / p, y % p);
  }

  lemma Nested(k: int, p: int, q: int, a: int, b: int)
    ensures k * (p * q) + (a * p + b) == (k * q + a) * p + b
  {
  }

  lemma TakeNumbers(buff: nat, p: nat, q: nat)
    requires p > 0 && q > 0
    ensures p * q > 0 && 0 <= buff / p && 0 <= buff / p % q < q
    ensures buff % (p * q) == (buff / p % q) * p + buff % p
  {
    ScaleUp(p, 0, q);
    var a, r := buff / p, buff % p;
    DivMod(buff, p);
    var k, v := a / q, a % q;
    DivMod(a, q);
    Nested(k, p, q, v, r);
    RoomLeft(v, q, r, p);
    DivUnique(buff, p * q, k, v * p + r);
  }

  /** The value the next n bits have, and the bits that stay. */
  lemma TakeBits(buff: nat, live: nat, n: nat)
    requires n <= live
    ensures var v := (buff / Pow2(live - n)) % Pow2(n);
      LowBits(buff, live) == ToBits(v, n) + LowBits(buff, live - n) && v < Pow2(n)
  {
    hide *;
    var m := live - n;
    Pow2Add(m, n);
    TakeNumbers(buff, Pow2(m), Pow2(n));
    LowBitsIs(buff, live);
    LowBitsIs(buff, m);
    DivMod(buff, Pow2(m));
    BitsAppend((buff / Pow2(m)) % Pow2(n), n, buff % Pow2(m), m);
  }

  /** Bits taken from the front of a longer stream. */
  lemma TakeFront(low: seq<bool>, v: seq<bool>, stay: seq<bool>, rest: seq<bool>)
    requires low == v + stay
    ensures (low + rest)[..|v|] == v && (low + rest)[|v|..] == stay + rest
  {
  }

  /** Taking in a byte changes none of the bits to come. */
  lemma NextByte(buff: UInt32, live: nat, s: seq<Byte>)
    requires live <= 24 && s != []
    ensures LowBits(buff, live) + BytesToBits(s)
            == LowBits((buff * 256 + s[0]) % 0x1_0000_0000, live + 8) + BytesToBits(s[1..])
  {
    hide *;
    AddByte(buff, live, s[0]);
    OneByte(s[0]);
    assert s == [s[0]] + s[1..];
    BytesAppend([s[0]], s[1..]);
  }

  /** What a reading step comes to: a value, a pause for more input, or a broken stream. */
  datatype Outcome<T> = Value(v: T) | NeedInput | DataError

  /** All pieces of input, one after the other. */
  ghost function Join(pieces: seq<seq<Byte>>): seq<Byte> {
    if pieces == [] then [] else pieces[0] + Join(pieces[1..])
  }

  lemma JoinNext(pieces: seq<seq<Byte>>)
    requires pieces != []
    ensures Join(pieces) == pieces[0] + Join(pieces[1..])
  {
  }

  lemma JoinNone()
    ensures Join([]) == []
  {
  }

  lemma JoinOne(piece: seq<Byte>)
    ensures Join([piece]) == piece
  {
    assert [piece][1..] == [];
    assert Join([piece]) == piece + Join([]);
  }

  /** The bit buffer of the decompressor and the input it is fed from, piece by piece: when a piece runs out in the
      middle of anything, the source saves where it is, returns to its caller, and goes on from there once it is called
      with the next piece. */
  class BitReader {
    var bsBuff: UInt32
    var bsLive: nat
    var input: seq<Byte>
    var later: seq<seq<Byte>>

    ghost predicate Valid()
      reads this
    {
      bsLive <= 24
    }

    /** All bits still to be read. */
    ghost function Rest(): (r: seq<bool>)
      reads this
    {
      LowBits(bsBuff, bsLive) + BytesToBits(input + Join(later))
    }

    constructor (pieces: seq<seq<Byte>>)
      ensures Valid() && Rest() == BytesToBits(Join(pieces))
    {
      bsBuff, bsLive, input, later := 0, 0, [], pieces;
      new;
      assert LowBits(0, 0) == [];
      assert [] + Join(later) == Join(later);
    }

    lemma RestParts()
      ensures Rest() == LowBits(bsBuff, bsLive) + BytesToBits(input + Join(later))
    {
    }

    /** Reads n bits, going on to the next piece of input as often as it takes; fails only when there is none. */
    method GetBits(n: nat) returns (ok: bool, v: nat)
      requires Valid() && n <= 24
      modifies this
      ensures ok <==> n <= |old(Rest())|
      ensures ok ==> ToBits(v, n) == old(Rest())[..n] && v < Pow2(n) && Rest() == old(Rest())[n..]
      ensures Valid() && (!ok ==> Rest() == old(Rest()) && input == [] && later == [])
    {
      hide *;
      ghost var all := Rest();
      ReaderValid();
      RestParts();
      while true
        invariant Rest() == all && (bsLive <= 24 || bsLive < n + 8)
        decreases |later|, |input|
      {
        RestParts();
        if bsLive >= n {
          TakeBits(bsBuff, bsLive, n);
          TakeFront(LowBits(bsBuff, bsLive), ToBits((bsBuff / Pow2(bsLive - n)) % Pow2(n), n),
                    LowBits(bsBuff, bsLive - n), BytesToBits(input + Join(later)));
          v := (bsBuff / Pow2(bsLive - n)) % Pow2(n);
          bsLive := bsLive - n;
          RestParts();
          ReaderValid();
          return true, v;
        }
        if input == [] {
          if later == [] {
            NoBytes();
            JoinNone();
            ReaderValid();
            return false, 0;
          }
          JoinNext(later);
          assert [] + Join(later) == later[0] + Join(later[1..]);
          input, later := later[0], later[1..];
          RestParts();
          continue;
        }
        NextByte(bsBuff, bsLive, input + Join(later));
        assert (input + Join(later))[1..] == input[1..] + Join(later);
        bsBuff := (bsBuff * 256 + input[0]) % 0x1_0000_0000;
        bsLive := bsLive + 8;
        input := input[1..];
        RestParts();
      }
    }

    lemma ReaderValid()
      ensures Valid() <==> bsLive <= 24
    {
    }
  }

  lemma NoBytes()
    ensures BytesToBits([]) == []
  {
  }
}
