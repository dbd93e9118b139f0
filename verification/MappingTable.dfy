/** The table of bytes in use: sixteen flags for groups of sixteen bytes, then flags for the bytes of used groups. */
module MappingTable {
  import opened MachineInts
  import opened BitStream
  import opened BitFields
  import opened MtfEncode

  ghost predicate GroupUsed(u: seq<bool>, i: nat)
    requires |u| == 256 && i < 16
  {
    exists j :: 16 * i <= j < 16 * i + 16 && u[j]
  }

  ghost function Marks(u: seq<bool>): (r: seq<bool>)
    requires |u| == 256
    ensures |r| == 16 && forall i :: 0 <= i < 16 ==> (r[i] <==> GroupUsed(u, i))
  {
    seq(16, i requires 0 <= i < 16 => GroupUsed(u, i))
  }

  ghost function Pieces(u: seq<bool>): (r: seq<seq<bool>>)
    requires |u| == 256
    ensures |r| == 16 && forall i :: 0 <= i < 16 ==> r[i] == if GroupUsed(u, i) then u[16 * i..16 * i + 16] else []
  {
    seq(16, i requires 0 <= i < 16 => if GroupUsed(u, i) then u[16 * i..16 * i + 16] else [])
  }

  ghost function MappingBits(u: seq<bool>): seq<bool>
    requires |u| == 256
  {
    Marks(u) + Flat(Pieces(u), 0)
  }

  lemma {:induction false} MappingIs(u: seq<bool>)
    requires |u| == 256
    ensures |Marks(u)| == 16 && |Pieces(u)| == 16 && MappingBits(u) == Marks(u) + Flat(Pieces(u), 0)
  {
  }

  lemma {:induction false} PieceAt(u: seq<bool>, i: nat)
    requires |u| == 256 && i < 16
    ensures |Pieces(u)| == 16 && |Marks(u)| == 16
    ensures Marks(u)[i] ==> Pieces(u)[i] == u[16 * i..16 * i + 16]
    ensures !Marks(u)[i] ==> Pieces(u)[i] == [] && forall j :: 16 * i <= j < 16 * i + 16 ==> !u[j]
  {
  }

  /* ---- sending ---- */

  method MarkGroups(inUse: array<bool>) returns (inUse16: array<bool>)
    requires inUse.Length == 256
    ensures fresh(inUse16) && inUse16[..] == Marks(inUse[..])
  {
    inUse16 := new bool[16];
    for i := 0 to 16
      invariant forall k :: 0 <= k < i ==> (inUse16[k] <==> GroupUsed(inUse[..], k))
    {
      inUse16[i] := false;
      for j := 0 to 16
        invariant inUse16[i] <==> exists l :: 16 * i <= l < 16 * i + j && inUse[..][l]
        invariant forall k :: 0 <= k < i ==> (inUse16[k] <==> GroupUsed(inUse[..], k))
      {
        if inUse[i * 16 + j] {
          inUse16[i] := true;
          assert inUse[..][i * 16 + j];
        }
      }
    }
  }

  method SendMapping(w: BitWriter, inUse: array<bool>)
    requires w.Valid() && inUse.Length == 256
    modifies w
    ensures w.Valid() && w.Bits() == old(w.Bits()) + MappingBits(inUse[..]) && old(w.zbits) <= w.zbits
  {
    hide *;
    ghost var u, start := inUse[..], w.Bits();
    var inUse16 := MarkGroups(inUse);
    ghost var marks, ps := Marks(u), Pieces(u);
    MappingIs(u);
    assert start + marks[..0] == start;
    for i := 0 to 16
      invariant w.Valid() && w.Bits() == start + marks[..i] && inUse16[..] == marks && old(w.zbits) <= w.zbits
    {
      assert inUse16[i] == marks[i] && (start + marks[..i]) + [marks[i]] == start + marks[..i + 1];
      PutBit(w, inUse16[i]);
    }
    ghost var goal := start + MappingBits(u);
    assert marks[..16] == marks;
    Shift(start, marks, Flat(ps, 0));
    for i := 0 to 16
      invariant w.Valid() && w.Bits() + Flat(ps, i) == goal && inUse16[..] == marks && inUse[..] == u
      invariant old(w.zbits) <= w.zbits
    {
      FlatNext(ps, i);
      PieceAt(u, i);
      ghost var here := w.Bits();
      Shift(here, ps[i], Flat(ps, i + 1));
      assert inUse16[i] == marks[i];
      if inUse16[i] {
        ghost var k := 16 * i;
        assert here + u[k..k] == here;
        for j := 0 to 16
          invariant w.Valid() && w.Bits() == here + u[k..k + j] && inUse[..] == u && inUse16[..] == marks
          invariant old(w.zbits) <= w.zbits
        {
          assert inUse[i * 16 + j] == u[k + j] && (here + u[k..k + j]) + [u[k + j]] == here + u[k..k + j + 1];
          PutBit(w, inUse[i * 16 + j]);
        }
      } else {
        assert here + [] == here;
      }
    }
    FlatEnd(ps);
    assert w.Bits() + [] == w.Bits();
  }

  /* ---- receiving ---- */

  /** Groups before i, and bytes before k, are as in u; nothing else is marked yet. */
  ghost predicate Received(s: seq<bool>, u: seq<bool>, k: nat) {
    && |s| == |u| == 256 && (forall c :: 0 <= c < k && c < 256 ==> s[c] == u[c])
    && (forall c :: k <= c < 256 ==> !s[c])
  }

  lemma {:induction false} ReceivedOne(s: seq<bool>, u: seq<bool>, k: nat)
    requires Received(s, u, k) && k < 256
    ensures u[k] ==> Received(s[k := true], u, k + 1)
    ensures !u[k] ==> Received(s, u, k + 1)
  {
  }

  lemma {:induction false} ReceivedSkip(s: seq<bool>, u: seq<bool>, i: nat)
    requires Received(s, u, 16 * i) && i < 16 && forall j :: 16 * i <= j < 16 * i + 16 ==> !u[j]
    ensures Received(s, u, 16 * i + 16)
  {
  }

  lemma {:induction false} ReceivedAll(s: seq<bool>, u: seq<bool>)
    requires Received(s, u, 256)
    ensures s == u
  {
  }

  lemma {:induction false} ReceivedNone(s: seq<bool>, u: seq<bool>)
    requires |s| == |u| == 256 && forall c :: 0 <= c < 256 ==> !s[c]
    ensures Received(s, u, 0)
  {
  }

  method ReadMarks(r: BitReader, ghost marks: seq<bool>, ghost tail: seq<bool>) returns (o: Outcome<seq<bool>>)
    requires r.Valid() && |marks| == 16
    modifies r
    ensures r.Valid() && |r.Rest()| <= old(|r.Rest()|) && (o.Value? ==> |o.v| == 16)
    ensures old(r.Rest()) == marks + tail ==> o == Value(marks) && r.Rest() == tail
  {
    hide *;
    ghost var good := r.Rest() == marks + tail;
    var s: seq<bool> := [];
    for i := 0 to 16
      invariant r.Valid() && |r.Rest()| <= old(|r.Rest()|) && |s| == i
      invariant good ==> s == marks[..i] && r.Rest() == marks[i..] + tail
    {
      ghost var all := r.Rest();
      var b := ReadBit(r);
      if good {
        assert marks[i..] + tail == [marks[i]] + (marks[i + 1..] + tail);
        BitRead(b, all, r.Rest(), marks[i], marks[i + 1..] + tail);
      }
      if b.NeedInput? { return NeedInput; }
      s := s + [b.v];
    }
    if good { assert marks[16..] + tail == tail && marks[..16] == marks; }
    o := Value(s);
  }

  method ReadGroup(r: BitReader, inUse: array<bool>, i: nat, ghost u: seq<bool>, ghost tail: seq<bool>)
    returns (o: Outcome<bool>)
    requires r.Valid() && inUse.Length == 256 && i < 16 && |u| == 256
    modifies r, inUse
    ensures r.Valid() && |r.Rest()| <= old(|r.Rest()|)
    ensures old(r.Rest()) == u[16 * i..16 * i + 16] + tail && old(Received(inUse[..], u, 16 * i)) ==>
      o.Value? && r.Rest() == tail && Received(inUse[..], u, 16 * i + 16)
  {
    hide *;
    ghost var k := 16 * i;
    ghost var good := r.Rest() == u[k..k + 16] + tail && Received(inUse[..], u, k);
    for j := 0 to 16
      invariant r.Valid() && |r.Rest()| <= old(|r.Rest()|)
      invariant good ==> r.Rest() == u[k + j..k + 16] + tail && Received(inUse[..], u, k + j)
    {
      ghost var all, s := r.Rest(), inUse[..];
      var b := ReadBit(r);
      if good {
        assert u[k + j..k + 16] + tail == [u[k + j]] + (u[k + j + 1..k + 16] + tail);
        BitRead(b, all, r.Rest(), u[k + j], u[k + j + 1..k + 16] + tail);
        ReceivedOne(s, u, k + j);
      }
      if b.NeedInput? { return NeedInput; }
      if b.v {
        inUse[i * 16 + j] := true;
        assert inUse[..] == s[k + j := true];
      }
    }
    if good { assert u[k + 16..k + 16] + tail == tail; }
    o := Value(true);
  }

  method ReadMapping(r: BitReader, inUse: array<bool>, ghost u: seq<bool>, ghost tail: seq<bool>)
    returns (o: Outcome<bool>)
    requires r.Valid() && inUse.Length == 256 && |u| == 256
    modifies r, inUse
    ensures r.Valid() && |r.Rest()| <= old(|r.Rest()|)
    ensures old(r.Rest()) == MappingBits(u) + tail ==> o.Value? && r.Rest() == tail && inUse[..] == u
  {
    hide *;
    MappingIs(u);
    ghost var marks, ps := Marks(u), Pieces(u);
    ghost var good := r.Rest() == MappingBits(u) + tail;
    Shift(marks, Flat(ps, 0), tail);
    var m := ReadMarks(r, marks, Flat(ps, 0) + tail);
    if !m.Value? { return if m.NeedInput? then NeedInput else DataError; }
    for i := 0 to 256
      invariant forall c :: 0 <= c < i ==> !inUse[c]
      invariant r.Valid() && |r.Rest()| <= old(|r.Rest()|) && (good ==> r.Rest() == Flat(ps, 0) + tail)
    {
      inUse[i] := false;
    }
    ReceivedNone(inUse[..], u);
    for i := 0 to 16
      invariant r.Valid() && |r.Rest()| <= old(|r.Rest()|)
      invariant good ==> r.Rest() == Flat(ps, i) + tail && Received(inUse[..], u, 16 * i)
    {
      FlatNext(ps, i);
      PieceAt(u, i);
      assert ps[i] + Flat(ps, i + 1) + tail == ps[i] + (Flat(ps, i + 1) + tail);
      if m.v[i] {
        var g := ReadGroup(r, inUse, i, u, Flat(ps, i + 1) + tail);
        if !g.Value? { return g; }
      } else if good {
        assert [] + (Flat(ps, i + 1) + tail) == Flat(ps, i + 1) + tail;
        ReceivedSkip(inUse[..], u, i);
      }
    }
    FlatEnd(ps);
    if good {
      assert [] + tail == tail;
      ReceivedAll(inUse[..], u);
    }
    o := Value(true);
  }

  /* ---- byte numbers back to bytes ---- */

  ghost predicate MapsBack(inUse: seq<bool>, seqToUnseq: seq<Byte>) {
    |inUse| == 256 && forall c :: 0 <= c < 256 && inUse[c] ==>
      Rank(inUse, c) < |seqToUnseq| && seqToUnseq[Rank(inUse, c)] == c
  }

  method MakeMapsBack(inUse: array<bool>, seqToUnseq: array<Byte>) returns (nInUse: nat)
    requires inUse.Length == 256 && seqToUnseq.Length == 256
    modifies seqToUnseq
    ensures nInUse == Rank(inUse[..], 256) && MapsBack(inUse[..], seqToUnseq[..])
  {
    ghost var u := inUse[..];
    nInUse := 0;
    for i := 0 to 256
      invariant nInUse == Rank(u, i)
      invariant forall c :: 0 <= c < i && u[c] ==> Rank(u, c) < nInUse && seqToUnseq[Rank(u, c)] == c
    {
      if inUse[i] {
        seqToUnseq[nInUse] := i;
        nInUse := nInUse + 1;
      }
    }
  }
}
