/** The first-stage run coding: runs as up to four copies and a count, and why expanding undoes it. */
module RunLength {
  import opened MachineInts

  datatype Pair = Pair(ch: Byte, len: nat)

  ghost function Run(c: Byte, n: nat): (r: seq<Byte>)
    ensures |r| == n && forall i :: 0 <= i < n ==> r[i] == c
  {
    seq(n, _ => c)
  }

  /** How one run is stored. */
  ghost function Packed(p: Pair): (r: seq<Byte>)
    requires 1 <= p.len <= 255
    ensures 1 <= |r| <= 5 && r[0] == p.ch
  {
    if p.len < 4 then Run(p.ch, p.len) else Run(p.ch, 4) + [p.len - 4]
  }

  /** Runs of 1 to 255; a run is only followed by one of the same byte if it carries a count. */
  ghost predicate Separated(ps: seq<Pair>) {
    && (forall i :: 0 <= i < |ps| ==> 1 <= ps[i].len <= 255)
    && (forall i :: 1 <= i < |ps| ==> ps[i - 1].ch != ps[i].ch || ps[i - 1].len >= 4)
  }

  ghost function Pack(ps: seq<Pair>): seq<Byte>
    requires Separated(ps)
  {
    if ps == [] then [] else Packed(ps[0]) + Pack(ps[1..])
  }

  /** The bytes the runs stand for. */
  ghost function Expand(ps: seq<Pair>): seq<Byte> {
    if ps == [] then [] else Run(ps[0].ch, ps[0].len) + Expand(ps[1..])
  }

  lemma {:induction false} PackPush(ps: seq<Pair>, p: Pair)
    requires Separated(ps + [p]) && 1 <= p.len <= 255
    ensures Separated(ps) && Pack(ps + [p]) == Pack(ps) + Packed(p)
  {
    hide *;
    var all := ps + [p];
    SeparatedFront(ps, p);
    PackStep(all);
    PackStep(ps);
    if ps == [] {
      PackStep(all[1..]);
      assert Packed(p) + [] == Packed(p) && all[1..] == [];
    } else {
      assert all[1..] == ps[1..] + [p];
      PackPush(ps[1..], p);
      assert Packed(ps[0]) + (Pack(ps[1..]) + Packed(p)) == Packed(ps[0]) + Pack(ps[1..]) + Packed(p);
    }
  }

  lemma SeparatedFront(ps: seq<Pair>, p: Pair)
    requires Separated(ps + [p])
    ensures Separated(ps)
  {
    var all := ps + [p];
    assert forall i :: 0 <= i < |ps| ==> all[i] == ps[i];
  }

  lemma PackStep(ps: seq<Pair>)
    requires Separated(ps)
    ensures ps == [] ==> Pack(ps) == []
    ensures ps != [] ==>
              1 <= ps[0].len <= 255 && Separated(ps[1..]) && Pack(ps) == Packed(ps[0]) + Pack(ps[1..])
  {
    hide Packed;
  }

  lemma {:induction false} ExpandPush(ps: seq<Pair>, p: Pair)
    ensures Expand(ps + [p]) == Expand(ps) + Run(p.ch, p.len)
  {
    var all := ps + [p];
    if ps == [] {
      assert Run(p.ch, p.len) + [] == Run(p.ch, p.len) && all[1..] == [];
    } else {
      assert all[1..] == ps[1..] + [p];
      ExpandPush(ps[1..], p);
      assert Run(ps[0].ch, ps[0].len) + (Expand(ps[1..]) + Run(p.ch, p.len)) ==
        Run(ps[0].ch, ps[0].len) + Expand(ps[1..]) + Run(p.ch, p.len);
    }
  }

  lemma SeparatedPush(ps: seq<Pair>, p: Pair)
    requires Separated(ps) && 1 <= p.len <= 255
    requires ps != [] ==> ps[|ps| - 1].ch != p.ch || ps[|ps| - 1].len >= 4
    ensures Separated(ps + [p])
  {
  }

  /* ---- expanding ---- */

  /** How many of the first four bytes equal the first. */
  ghost function Lead(b: seq<Byte>): (n: nat)
    requires b != []
    ensures 1 <= n <= 4 && n <= |b|
  {
    if |b| < 2 || b[1] != b[0] then 1
    else if |b| < 3 || b[2] != b[0] then 2
    else if |b| < 4 || b[3] != b[0] then 3
    else 4
  }

  /** No run of four is missing its count. */
  ghost predicate Whole(b: seq<Byte>) {
    if b == [] then true
    else if Lead(b) < 4 then Whole(b[Lead(b)..])
    else |b| >= 5 && Whole(b[5..])
  }

  ghost function Unpacked(b: seq<Byte>): seq<Byte>
    requires Whole(b)
  {
    if b == [] then []
    else if Lead(b) < 4 then Run(b[0], Lead(b)) + Unpacked(b[Lead(b)..])
    else
      var more: nat := b[4];
      Run(b[0], 4 + more) + Unpacked(b[5..])
  }

  lemma UnpackOne(p: Pair, rest: seq<Byte>)
    requires 1 <= p.len <= 255 && Whole(rest) && (rest != [] ==> rest[0] != p.ch || p.len >= 4)
    ensures Whole(Packed(p) + rest) && Unpacked(Packed(p) + rest) == Run(p.ch, p.len) + Unpacked(rest)
  {
    if p.len < 4 { UnpackShort(p, rest); } else { UnpackLong(p, rest); }
  }

  lemma UnpackShort(p: Pair, rest: seq<Byte>)
    requires 1 <= p.len < 4 && Whole(rest) && (rest != [] ==> rest[0] != p.ch)
    ensures Whole(Packed(p) + rest) && Unpacked(Packed(p) + rest) == Run(p.ch, p.len) + Unpacked(rest)
  {
    var b := Packed(p) + rest;
    assert b[0] == p.ch;
    assert Lead(b) == p.len;
    assert b[p.len..] == rest;
  }

  lemma UnpackLong(p: Pair, rest: seq<Byte>)
    requires 4 <= p.len <= 255 && Whole(rest)
    ensures Whole(Packed(p) + rest) && Unpacked(Packed(p) + rest) == Run(p.ch, p.len) + Unpacked(rest)
  {
    var b := Packed(p) + rest;
    assert b[0] == p.ch && b[1] == b[0] && b[2] == b[0] && b[3] == b[0] && b[4] == p.len - 4;
    assert Lead(b) == 4;
    hide Packed, Run;
    assert b[5..] == rest;
    assert 4 + (p.len - 4) == p.len;
  }

  /** Expanding what was packed gives back the runs. */
  lemma {:induction false} UnpackPack(ps: seq<Pair>)
    requires Separated(ps)
    ensures Whole(Pack(ps)) && Unpacked(Pack(ps)) == Expand(ps)
  {
    if ps != [] {
      UnpackPack(ps[1..]);
      if |ps| > 1 { assert Pack(ps[1..]) == Packed(ps[1]) + Pack(ps[2..]) by { assert ps[1..][1..] == ps[2..]; } }
      UnpackOne(ps[0], Pack(ps[1..]));
    }
  }
}
