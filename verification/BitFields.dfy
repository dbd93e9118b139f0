/** Numbers and flags of fixed width in the bit stream, and runs of pieces. */
module BitFields {
  import opened SetSums
  import opened BitStream

  /** The pieces from i on, end to end. */
  ghost function Flat(ps: seq<seq<bool>>, i: nat): (r: seq<bool>)
    requires i <= |ps|
    decreases |ps| - i
  {
    if i == |ps| then [] else ps[i] + Flat(ps, i + 1)
  }

  lemma {:induction false} FlatNext(ps: seq<seq<bool>>, i: nat)
    requires i < |ps|
    ensures Flat(ps, i) == ps[i] + Flat(ps, i + 1)
  {
  }

  lemma {:induction false} FlatEnd(ps: seq<seq<bool>>)
    ensures Flat(ps, |ps|) == []
  {
  }

  function BitOf(b: bool): nat {
    if b then 1 else 0
  }

  lemma OneBit(b: bool)
    ensures ToBits(BitOf(b), 1) == [b] && BitOf(b) < Pow2(1)
  {
    assert ToBits(0, 0) == [];
  }

  lemma TwoBits()
    ensures ToBits(2, 2) == [true, false] && ToBits(3, 2) == [true, true] && Pow2(2) == 4
  {
    assert ToBits(1, 1) == ToBits(0, 0) + [true];
  }

  /** Moving a written piece from what is still to come to what has been written. */
  lemma {:induction false} Shift(done: seq<bool>, piece: seq<bool>, rest: seq<bool>)
    ensures done + (piece + rest) == (done + piece) + rest
  {
  }

  method PutBit(w: BitWriter, b: bool)
    requires w.Valid()
    modifies w
    ensures w.Valid() && w.Bits() == old(w.Bits()) + [b] && old(w.zbits) <= w.zbits
  {
    hide *;
    OneBit(b);
    BitOfIs(b);
    w.W(1, if b then 1 else 0);
  }

  lemma BitOfIs(b: bool)
    ensures BitOf(b) == if b then 1 else 0
  {
  }

  lemma SameField(a: nat, b: nat, n: nat)
    requires ToBits(a, n) == ToBits(b, n) && a < Pow2(n) && b < Pow2(n)
    ensures a == b
  {
    FromTo(a, n);
    FromTo(b, n);
  }

  /** Reads an n-bit number. */
  method ReadField(r: BitReader, n: nat) returns (o: Outcome<nat>)
    requires r.Valid() && n <= 24
    modifies r
    ensures r.Valid() && |r.Rest()| <= old(|r.Rest()|) && !o.DataError?
    ensures o.Value? ==> o.v < Pow2(n) && old(r.Rest()) == ToBits(o.v, n) + r.Rest()
    ensures o.NeedInput? <==> |old(r.Rest())| < n
  {
    hide *;
    ghost var all := r.Rest();
    var ok, v := r.GetBits(n);
    if !ok { return NeedInput; }
    assert all == all[..n] + all[n..];
    o := Value(v);
  }

  /** If the stream goes on with the field v, v is what is read. */
  lemma {:induction false} FieldRead(o: Outcome<nat>, n: nat, all: seq<bool>, rest: seq<bool>, v: nat, tail: seq<bool>)
    requires !o.DataError? && (o.NeedInput? <==> |all| < n)
    requires o.Value? ==> o.v < Pow2(n) && all == ToBits(o.v, n) + rest
    requires all == ToBits(v, n) + tail && v < Pow2(n)
    ensures o == Value(v) && rest == tail
  {
    hide *;
    assert all[..n] == ToBits(v, n) && all[n..] == tail;
    assert all[..n] == ToBits(o.v, n) && all[n..] == rest;
    SameField(o.v, v, n);
  }

  method ReadBit(r: BitReader) returns (o: Outcome<bool>)
    requires r.Valid()
    modifies r
    ensures r.Valid() && |r.Rest()| <= old(|r.Rest()|) && !o.DataError?
    ensures o.Value? ==> old(r.Rest()) == [o.v] + r.Rest()
    ensures o.NeedInput? <==> old(r.Rest()) == []
  {
    hide *;
    var f := ReadField(r, 1);
    if f.NeedInput? { return NeedInput; }
    OneBit(f.v == 1);
    BitOfIs(f.v == 1);
    SmallPower();
    o := Value(f.v == 1);
  }

  lemma SmallPower()
    ensures Pow2(1) == 2
  {
  }

  lemma {:induction false} BitRead(o: Outcome<bool>, all: seq<bool>, rest: seq<bool>, b: bool, tail: seq<bool>)
    requires !o.DataError? && (o.NeedInput? <==> all == []) && (o.Value? ==> all == [o.v] + rest)
    requires all == [b] + tail
    ensures o == Value(b) && rest == tail
  {
    assert all[0] == b && all[1..] == tail;
    assert all[0] == o.v && all[1..] == rest;
  }
}
