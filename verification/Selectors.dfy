/** The list of table selectors, sent as places in a move-to-front list. */
module Selectors {
  import opened MachineInts
  import opened MtfTheory

  /** The place of each selector at its turn. */
  ghost function Ranks(list: seq<nat>, sel: seq<nat>): (r: seq<nat>)
    requires AllIn(sel, list)
    ensures |r| == |sel|
    decreases |sel|
  {
    if sel == [] then [] else
      var j := IndexOf(list, sel[0]);
      FrontKeeps(list, j);
      [j] + Ranks(ToFront(list, j), sel[1..])
  }

  /** The selectors that places stand for. */
  ghost function Picks(list: seq<nat>, js: seq<nat>): (r: seq<nat>)
    requires forall k :: 0 <= k < |js| ==> js[k] < |list|
    ensures |r| == |js|
    decreases |js|
  {
    if js == [] then [] else [list[js[0]]] + Picks(ToFront(list, js[0]), js[1..])
  }

  lemma {:induction false} PicksOfRanks(list: seq<nat>, sel: seq<nat>)
    requires AllIn(sel, list)
    ensures forall k :: 0 <= k < |sel| ==> Ranks(list, sel)[k] < |list|
    ensures Picks(list, Ranks(list, sel)) == sel
    decreases |sel|
  {
    if sel != [] {
      var j := IndexOf(list, sel[0]);
      FrontKeeps(list, j);
      PicksOfRanks(ToFront(list, j), sel[1..]);
      assert Ranks(list, sel)[1..] == Ranks(ToFront(list, j), sel[1..]);
    }
  }

  /* ---- the compressor's side ---- */

  /** out holds the places of the selectors before i; list is where that leaves the list. */
  ghost predicate Ranking(list: seq<nat>, sel: seq<nat>, i: nat, out: seq<nat>, goal: seq<nat>) {
    && i <= |sel| && |out| == i && AllIn(sel, list) && AllIn(sel[i..], list)
    && out + Ranks(list, sel[i..]) == goal
  }

  lemma RankingStart(list: seq<nat>, sel: seq<nat>)
    requires AllIn(sel, list)
    ensures Ranking(list, sel, 0, [], Ranks(list, sel))
  {
    assert sel[0..] == sel;
    assert [] + Ranks(list, sel) == Ranks(list, sel);
  }

  lemma RankingNext(list: seq<nat>, sel: seq<nat>, i: nat, out: seq<nat>, goal: seq<nat>)
    requires Ranking(list, sel, i, out, goal) && i < |sel|
    ensures sel[i] in list
    ensures Ranking(ToFront(list, IndexOf(list, sel[i])), sel, i + 1, out + [IndexOf(list, sel[i])], goal)
  {
    var j := IndexOf(list, sel[i]);
    FrontKeeps(list, j);
    assert sel[i..][1..] == sel[i + 1..];
    var rest := Ranks(ToFront(list, j), sel[i + 1..]);
    assert out + ([j] + rest) == out + [j] + rest;
  }

  lemma RankingDone(list: seq<nat>, sel: seq<nat>, out: seq<nat>, goal: seq<nat>)
    requires Ranking(list, sel, |sel|, out, goal)
    ensures out == goal
  {
    assert sel[|sel|..] == [];
    assert out + [] == out;
  }

  /** Moves x to the front of the first n entries and tells where it stood. */
  method RankOne(pos: array<Byte>, n: nat, x: Byte) returns (j: nat)
    requires 1 <= n <= pos.Length && x in pos[..n]
    modifies pos
    ensures j == IndexOf(old(pos[..n]), x) && j < n && pos[..n] == ToFront(old(pos[..n]), j)
  {
    hide *;
    ghost var o := pos[..n];
    FoundAt(o, x);
    j := 0;
    var tmp := pos[0];
    ghost var y := o;
    ShiftStarts(o);
    ShiftStays(o, y, j, tmp, x);
    while x != tmp
      invariant 0 <= j <= IndexOf(o, x) < n && pos[..n] == y && |y| == n && Shifted(o, y, j, tmp)
      invariant tmp == x <==> j == IndexOf(o, x)
      invariant tmp != x ==> j + 1 <= IndexOf(o, x)
      decreases n - j
    {
      ShiftMore(o, y, j, tmp);
      j := j + 1;
      var tmp2 := tmp;
      tmp := pos[j];
      pos[j] := tmp2;
      assert pos[..n] == y[j := tmp2];
      y := pos[..n];
      ShiftStays(o, y, j, tmp, x);
    }
    ShiftEnds(o, y, j, tmp);
    pos[0] := tmp;
    assert pos[..n] == y[0 := tmp];
  }

  lemma FoundAt(o: seq<nat>, x: nat)
    requires x in o
    ensures IndexOf(o, x) < |o|
  {
  }

  lemma SelectorsListed(sel: seq<nat>, n: nat)
    requires forall k :: 0 <= k < |sel| ==> sel[k] < n
    ensures AllIn(sel, Ident(n))
  {
    forall k | 0 <= k < |sel| ensures sel[k] in Ident(n) { assert Ident(n)[sel[k]] == sel[k]; }
  }

  /** Turns selectors into the places they are sent as. */
  method RankSelectors(selector: array<Byte>, selectorMtf: array<Byte>, nSelectors: nat, nGroups: nat)
    requires selector != selectorMtf && nSelectors <= selector.Length && nSelectors <= selectorMtf.Length
    requires 1 <= nGroups <= 6 && forall k :: 0 <= k < nSelectors ==> selector[k] < nGroups
    modifies selectorMtf
    ensures AllIn(selector[..nSelectors], Ident(nGroups))
    ensures selectorMtf[..nSelectors] == Ranks(Ident(nGroups), selector[..nSelectors])
  {
    hide *;
    ghost var sel := selector[..nSelectors];
    SelectorsListed(sel, nGroups);
    var pos := new Byte[6];
    StartList(pos, nGroups);
    RankingStart(Ident(nGroups), sel);
    ghost var goal := Ranks(Ident(nGroups), sel);
    for i := 0 to nSelectors
      invariant selector[..nSelectors] == sel
      invariant Ranking(pos[..nGroups], sel, i, selectorMtf[..i], goal)
    {
      ghost var out := selectorMtf[..i];
      RankingNext(pos[..nGroups], sel, i, out, goal);
      assert selector[i] == sel[i];
      var j := RankOne(pos, nGroups, selector[i]);
      selectorMtf[i] := j;
      assert selectorMtf[..i + 1] == out + [j];
    }
    RankingDone(pos[..nGroups], sel, selectorMtf[..nSelectors], goal);
  }

  /* ---- the decompressor's side ---- */

  /** out holds the selectors for the places before i. */
  ghost predicate Picking(list: seq<nat>, js: seq<nat>, i: nat, out: seq<nat>, goal: seq<nat>) {
    && i <= |js| && |out| == i && (forall k :: 0 <= k < |js| ==> js[k] < |list|)
    && out + Picks(list, js[i..]) == goal
  }

  lemma PickingStart(list: seq<nat>, js: seq<nat>)
    requires forall k :: 0 <= k < |js| ==> js[k] < |list|
    ensures Picking(list, js, 0, [], Picks(list, js))
  {
    assert js[0..] == js;
    assert [] + Picks(list, js) == Picks(list, js);
  }

  lemma PickingNext(list: seq<nat>, js: seq<nat>, i: nat, out: seq<nat>, goal: seq<nat>)
    requires Picking(list, js, i, out, goal) && i < |js|
    ensures js[i] < |list|
    ensures Picking(ToFront(list, js[i]), js, i + 1, out + [list[js[i]]], goal)
  {
    assert js[i..][1..] == js[i + 1..];
    var rest := Picks(ToFront(list, js[i]), js[i + 1..]);
    assert out + ([list[js[i]]] + rest) == out + [list[js[i]]] + rest;
  }

  lemma PickingDone(list: seq<nat>, js: seq<nat>, out: seq<nat>, goal: seq<nat>)
    requires Picking(list, js, |js|, out, goal)
    ensures out == goal
  {
    assert js[|js|..] == [];
    assert out + [] == out;
  }

  /** Entries at 1..v, and the hole at v, while entry j moves to the front. */
  ghost predicate Opening(o: seq<nat>, y: seq<nat>, j: nat, v: nat) {
    && v <= j < |o| == |y|
    && (forall k :: 0 <= k <= v ==> y[k] == o[k])
    && (forall k :: v < k <= j ==> y[k] == o[k - 1])
    && (forall k :: j < k < |o| ==> y[k] == o[k])
  }

  lemma OpeningSteps(o: seq<nat>, y: seq<nat>, j: nat, v: nat)
    requires Opening(o, y, j, v)
    ensures v > 0 ==> Opening(o, y[v := y[v - 1]], j, v - 1)
    ensures v == 0 ==> y[0 := o[j]] == ToFront(o, j)
  {
    if v == 0 {
      forall k | 0 <= k < |o| ensures y[0 := o[j]][k] == ToFront(o, j)[k] { }
    }
  }

  lemma OpeningStart(o: seq<nat>, j: nat)
    requires j < |o|
    ensures Opening(o, o, j, j)
  {
  }

  method PickOne(pos: array<Byte>, n: nat, j: nat) returns (tmp: Byte)
    requires j < n <= pos.Length
    modifies pos
    ensures tmp == old(pos[..n])[j] && pos[..n] == ToFront(old(pos[..n]), j)
  {
    hide *;
    ghost var o := pos[..n];
    OpeningStart(o, j);
    tmp := pos[j];
    var v := j;
    while v > 0
      invariant v <= j && Opening(o, pos[..n], j, v)
    {
      ghost var y := pos[..n];
      OpeningSteps(o, y, j, v);
      pos[v] := pos[v - 1];
      assert pos[..n] == y[v := y[v - 1]];
      v := v - 1;
    }
    ghost var y := pos[..n];
    OpeningSteps(o, y, j, 0);
    pos[0] := tmp;
    assert pos[..n] == y[0 := tmp];
  }

  /** Turns received places back into selectors. */
  method PickSelectors(selectorMtf: array<Byte>, selector: array<Byte>, nSelectors: nat, nGroups: nat)
    requires selector != selectorMtf && nSelectors <= selector.Length && nSelectors <= selectorMtf.Length
    requires 1 <= nGroups <= 6 && forall k :: 0 <= k < nSelectors ==> selectorMtf[k] < nGroups
    modifies selector
    ensures selector[..nSelectors] == Picks(Ident(nGroups), selectorMtf[..nSelectors])
  {
    ghost var js := selectorMtf[..nSelectors];
    var pos := new Byte[6];
    StartList(pos, nGroups);
    PickingStart(Ident(nGroups), js);
    ghost var goal := Picks(Ident(nGroups), js);
    for i := 0 to nSelectors
      invariant selectorMtf[..nSelectors] == js
      invariant Picking(pos[..nGroups], js, i, selector[..i], goal)
    {
      ghost var list, out := pos[..nGroups], selector[..i];
      PickingNext(list, js, i, out, goal);
      assert selectorMtf[i] == js[i];
      var tmp := PickOne(pos, nGroups, selectorMtf[i]);
      selector[i] := tmp;
      assert selector[..i + 1] == out + [tmp];
    }
    PickingDone(pos[..nGroups], js, selector[..nSelectors], goal);
  }
}
