/** Choosing, for every fifty symbols, which of up to six code tables to use. */
module TableChoice {
  import opened MachineInts
  import opened BzConstants
  import opened Words
  import opened MtfEncode

  /** How many tables a block of nMTF symbols gets. */
  method TableCount(nMTF: nat) returns (nGroups: nat)
    ensures 2 <= nGroups <= 6
    ensures nMTF >= 2400 <==> nGroups == 6
  {
    if nMTF < 200 { nGroups := 2; }
    else if nMTF < 600 { nGroups := 3; }
    else if nMTF < 1200 { nGroups := 4; }
    else if nMTF < 2400 { nGroups := 5; }
    else { nGroups := 6; }
  }

  /** Six rows of code lengths, one per table. */
  ghost predicate Rows(lens: seq<seq<Byte>>, alphaSize: nat, top: nat) {
    && |lens| == 6
    && forall t :: 0 <= t < 6 ==> |lens[t]| == alphaSize && (forall v :: 0 <= v < alphaSize ==> lens[t][v] <= top)
  }

  lemma RowsParts(lens: seq<seq<Byte>>, alphaSize: nat, top: nat, t: nat)
    requires Rows(lens, alphaSize, top) && t < 6
    ensures |lens| == 6 && |lens[t]| == alphaSize && (forall v :: 0 <= v < alphaSize ==> lens[t][v] <= top)
  {
  }

  /* ---- the initial tables ---- */

  ghost function SumFrom(f: seq<nat>, a: nat, b: nat): (r: nat)
    requires a <= b <= |f|
    decreases b
  {
    if a == b then 0 else SumFrom(f, a, b - 1) + f[b - 1]
  }

  lemma {:induction false} SumSplit(f: seq<nat>, a: nat, m: nat, b: nat)
    requires a <= m <= b <= |f|
    ensures SumFrom(f, a, b) == SumFrom(f, a, m) + SumFrom(f, m, b)
    decreases b
  {
    if m < b { SumSplit(f, a, m, b - 1); }
  }

  /** Each symbol below gs is cheap in exactly the table that owns it, among tables from part up. */
  ghost predicate Owned(lens: seq<seq<Byte>>, owner: seq<nat>, alphaSize: nat, part: nat, nGroups: nat) {
    && Rows(lens, alphaSize, 15) && |owner| <= alphaSize && nGroups <= 6
    && (forall v :: 0 <= v < |owner| ==> part <= owner[v] < nGroups)
    && (forall u, v :: 0 <= u < v < |owner| ==> owner[u] >= owner[v])
    && (forall t :: part <= t < nGroups ==> OwnedRow(lens[t], owner, t))
  }

  ghost predicate OwnedRow(row: seq<Byte>, owner: seq<nat>, t: nat) {
    forall v :: 0 <= v < |row| ==> row[v] == if v < |owner| && owner[v] == t then 0 else 15
  }

  /** The symbols gs..ge go to table t. */
  ghost function Given(owner: seq<nat>, n: nat, t: nat): (r: seq<nat>)
    ensures |r| == |owner| + n && r[..|owner|] == owner
    ensures forall v :: |owner| <= v < |r| ==> r[v] == t
  {
    owner + seq(n, _ => t)
  }

  lemma OwnMore(lens: seq<seq<Byte>>, owner: seq<nat>, alphaSize: nat, t: nat, nGroups: nat, n: nat, row: seq<Byte>)
    requires Owned(lens, owner, alphaSize, t + 1, nGroups) && t + 1 <= nGroups && |owner| + n <= alphaSize
    requires |row| == alphaSize
    requires forall v :: 0 <= v < alphaSize ==> row[v] == if |owner| <= v < |owner| + n then 0 else 15
    ensures Owned(lens[t := row], Given(owner, n, t), alphaSize, t, nGroups)
  {
    var o', l' := Given(owner, n, t), lens[t := row];
    assert forall v :: 0 <= v < |owner| ==> o'[v] == o'[..|owner|][v];
    forall s | t <= s < nGroups ensures OwnedRow(l'[s], o', s) {
      if s > t { assert OwnedRow(lens[s], owner, s); }
    }
  }

  lemma OwnNone(lens: seq<seq<Byte>>, alphaSize: nat, nGroups: nat)
    requires Rows(lens, alphaSize, 15) && nGroups <= 6
    ensures Owned(lens, [], alphaSize, nGroups, nGroups)
  {
  }

  /** Every symbol starts out cheap in exactly one table, and the tables own consecutive symbols, the last table first.
      */
  ghost predicate Partitioned(lens: seq<seq<Byte>>, alphaSize: nat, nGroups: nat) {
    exists owner: seq<nat> :: |owner| == alphaSize && Owned(lens, owner, alphaSize, 0, nGroups)
  }

  /** Takes symbols from gs on until their frequencies reach the share of this part. */
  method TakeShare(mtfFreq: array<nat>, alphaSize: nat, gs: nat, nPart: nat, nGroups: nat, remF: nat)
    returns (ge: int, aFreq: nat)
    requires 0 < nPart <= nGroups && gs <= alphaSize <= mtfFreq.Length && alphaSize > 0
    requires mtfFreq[alphaSize - 1] > 0 && SumFrom(mtfFreq[..], gs, alphaSize) == remF
    ensures gs - 1 <= ge < alphaSize && aFreq == SumFrom(mtfFreq[..], gs, ge + 1) <= remF
    ensures SumFrom(mtfFreq[..], ge + 1, alphaSize) == remF - aFreq
    ensures nPart == 1 ==> ge == alphaSize - 1
  {
    ghost var f := mtfFreq[..];
    var tFreq := remF / nPart;
    ge := gs - 1;
    aFreq := 0;
    while aFreq < tFreq && ge < alphaSize - 1
      invariant gs - 1 <= ge < alphaSize && aFreq == SumFrom(f, gs, ge + 1)
      decreases alphaSize - ge
    {
      ge := ge + 1;
      aFreq := aFreq + mtfFreq[ge];
    }
    SumSplit(f, gs, ge + 1, alphaSize);
    if ge > gs && nPart != nGroups && nPart != 1 && (nGroups - nPart) % 2 == 1 {
      SumSplit(f, gs, ge, ge + 1);
      aFreq := aFreq - mtfFreq[ge];
      ge := ge - 1;
      SumSplit(f, gs, ge + 1, alphaSize);
    }
  }

  method CostRow(alphaSize: nat, gs: nat, ge: int) returns (row: seq<Byte>)
    ensures |row| == alphaSize
    ensures forall v :: 0 <= v < alphaSize ==> row[v] == if gs <= v <= ge then 0 else 15
  {
    row := [];
    for v := 0 to alphaSize
      invariant |row| == v
      invariant forall u :: 0 <= u < v ==> row[u] == if gs <= u <= ge then 0 else 15
    {
      row := row + [if v >= gs && v <= ge then BZ_LESSER_ICOST else BZ_GREATER_ICOST];
    }
  }

  /** Splits the symbols among the tables by frequency. */
  method InitialTables(mtfFreq: array<nat>, alphaSize: nat, nMTF: nat, nGroups: nat) returns (lens: seq<seq<Byte>>)
    requires 2 <= nGroups <= 6 && 0 < alphaSize <= mtfFreq.Length
    requires mtfFreq[alphaSize - 1] > 0 && SumFrom(mtfFreq[..], 0, alphaSize) == nMTF
    ensures Rows(lens, alphaSize, 15) && Partitioned(lens, alphaSize, nGroups)
  {
    hide *;
    GroupSizes();
    var none := CostRow(alphaSize, 1, 0);
    lens := [none, none, none, none, none, none];
    NoOwners(none, lens, alphaSize, nGroups);
    ghost var owner: seq<nat> := [];
    var nPart, remF, gs := nGroups, nMTF, 0;
    while nPart > 0
      invariant 0 <= nPart <= nGroups && gs == |owner| <= alphaSize && Owned(lens, owner, alphaSize, nPart, nGroups)
      invariant remF >= 0 && SumFrom(mtfFreq[..], gs, alphaSize) == remF
      invariant nPart == 0 ==> gs == alphaSize
      invariant |lens| == 6
    {
      var ge, aFreq := TakeShare(mtfFreq, alphaSize, gs, nPart, nGroups, remF);
      var row := CostRow(alphaSize, gs, ge);
      OwnMore(lens, owner, alphaSize, nPart - 1, nGroups, ge + 1 - gs, row);
      lens := lens[nPart - 1 := row];
      owner := Given(owner, ge + 1 - gs, nPart - 1);
      nPart := nPart - 1;
      gs := ge + 1;
      remF := remF - aFreq;
    }
    PartitionDone(lens, owner, alphaSize, nGroups);
  }

  lemma NoOwners(none: seq<Byte>, lens: seq<seq<Byte>>, alphaSize: nat, nGroups: nat)
    requires |none| == alphaSize && (forall v :: 0 <= v < alphaSize ==> none[v] == if 1 <= v <= 0 then 0 else 15)
    requires lens == [none, none, none, none, none, none] && nGroups <= 6
    ensures Owned(lens, [], alphaSize, nGroups, nGroups)
  {
    OwnNone(lens, alphaSize, nGroups);
  }

  lemma PartitionDone(lens: seq<seq<Byte>>, owner: seq<nat>, alphaSize: nat, nGroups: nat)
    requires |owner| == alphaSize && Owned(lens, owner, alphaSize, 0, nGroups)
    ensures Rows(lens, alphaSize, 15) && Partitioned(lens, alphaSize, nGroups)
  {
  }

  /* ---- what a group costs under a table ---- */

  ghost predicate SymsBelow(syms: seq<nat>, n: nat) {
    forall i :: 0 <= i < |syms| ==> syms[i] < n
  }

  /** Bits to code the symbols at a..b-1. */
  ghost function CostOf(len: seq<nat>, syms: seq<nat>, a: nat, b: nat): (r: nat)
    requires b <= |syms| && SymsBelow(syms, |len|)
    decreases b
  {
    if b <= a then 0 else CostOf(len, syms, a, b - 1) + len[syms[b - 1]]
  }

  lemma {:induction false} CostBound(len: seq<nat>, syms: seq<nat>, a: nat, b: nat, top: nat)
    requires a <= b <= |syms| && SymsBelow(syms, |len|) && forall v :: 0 <= v < |len| ==> len[v] <= top
    ensures CostOf(len, syms, a, b) <= top * (b - a)
    decreases b
  {
    if a < b {
      CostBound(len, syms, a, b - 1, top);
      assert top * (b - a) == top * (b - 1 - a) + top;
    }
  }

  /** Two running sums in one 32-bit word. */
  function Pair(lo: nat, hi: nat): nat {
    lo + 0x1_0000 * hi
  }

  ghost predicate Packed(pack: seq<UInt32>, lo: seq<Byte>, hi: seq<Byte>) {
    |pack| == |lo| == |hi| && forall v :: 0 <= v < |pack| ==> pack[v] == Pair(lo[v], hi[v])
  }

  method PackRows(lo: seq<Byte>, hi: seq<Byte>) returns (pack: array<UInt32>)
    requires |lo| == |hi|
    ensures fresh(pack) && pack.Length == |lo| && Packed(pack[..], lo, hi)
  {
    pack := new UInt32[|lo|];
    for v := 0 to |lo|
      invariant forall u :: 0 <= u < v ==> pack[u] == Pair(lo[u], hi[u])
    {
      pack[v] := Pair(lo[v], hi[v]);
    }
  }

  /** Adding packed words adds both sums: neither half ever carries into the other. */
  lemma PackedAdd(pack: seq<UInt32>, lo: seq<Byte>, hi: seq<Byte>, syms: seq<nat>, a: nat, k: nat, top: nat)
    requires Packed(pack, lo, hi) && SymsBelow(syms, |lo|) && a + k < |syms| && k < 50 && top <= 20
    requires (forall v :: 0 <= v < |lo| ==> lo[v] <= top) && (forall v :: 0 <= v < |hi| ==> hi[v] <= top)
    ensures syms[a + k] < |pack|
    ensures Pair(CostOf(lo, syms, a, a + k), CostOf(hi, syms, a, a + k)) + pack[syms[a + k]]
         == Pair(CostOf(lo, syms, a, a + k + 1), CostOf(hi, syms, a, a + k + 1)) < 0x1_0000_0000
  {
    CostBound(lo, syms, a, a + k + 1, 20);
    CostBound(hi, syms, a, a + k + 1, 20);
  }

  lemma Unpack(lo: seq<Byte>, hi: seq<Byte>, syms: seq<nat>, a: nat)
    requires |lo| == |hi| && SymsBelow(syms, |lo|) && a + 50 <= |syms|
    requires (forall v :: 0 <= v < |lo| ==> lo[v] <= 20) && (forall v :: 0 <= v < |hi| ==> hi[v] <= 20)
    ensures var c := Pair(CostOf(lo, syms, a, a + 50), CostOf(hi, syms, a, a + 50));
      c % 0x1_0000 == CostOf(lo, syms, a, a + 50) && c / 0x1_0000 == CostOf(hi, syms, a, a + 50) < 0x1_0000
  {
    CostBound(lo, syms, a, a + 50, 20);
    CostBound(hi, syms, a, a + 50, 20);
  }

  lemma CostNone(lo: seq<nat>, hi: seq<nat>, syms: seq<nat>, a: nat)
    requires SymsBelow(syms, |lo|) && SymsBelow(syms, |hi|) && a <= |syms|
    ensures CostOf(lo, syms, a, a) == 0 && Pair(CostOf(lo, syms, a, a), CostOf(hi, syms, a, a)) == 0
  {
  }

  /** The costs of fifty symbols under two tables at once. */
  method PairCost(pack: array<UInt32>, arr1: array<UInt32>, nMTF: nat, gs: nat,
                  ghost lo: seq<Byte>, ghost hi: seq<Byte>, ghost syms: seq<nat>)
    returns (costLo: UInt16, costHi: UInt16)
    requires Packed(pack[..], lo, hi) && nMTF <= 2 * arr1.Length && syms == HalfView(arr1[..], nMTF)
    requires SymsBelow(syms, |lo|) && |lo| == |hi| && gs + 50 <= nMTF
    requires (forall v :: 0 <= v < |lo| ==> lo[v] <= 20) && (forall v :: 0 <= v < |hi| ==> hi[v] <= 20)
    ensures costLo == CostOf(lo, syms, gs, gs + 50) && costHi == CostOf(hi, syms, gs, gs + 50)
  {
    hide *;
    CostNone(lo, hi, syms, gs);
    var c: UInt32 := 0;
    for nn := 0 to 50
      invariant c == Pair(CostOf(lo, syms, gs, gs + nn), CostOf(hi, syms, gs, gs + nn))
    {
      PackedAdd(pack[..], lo, hi, syms, gs, nn, 20);
      var icv := GetHalf(arr1, gs + nn, nMTF);
      c := c + pack[icv];
    }
    Unpack(lo, hi, syms, gs);
    costLo, costHi := c % 0x1_0000, c / 0x1_0000;
  }

  ghost predicate CostsAre(cost: seq<UInt16>, lens: seq<seq<Byte>>, nGroups: nat, syms: seq<nat>, a: nat, b: nat) {
    && |cost| == 6 && |lens| == 6 && nGroups <= 6 && b <= |syms|
    && (forall t :: 0 <= t < nGroups ==> SymsBelow(syms, |lens[t]|) && cost[t] == CostOf(lens[t], syms, a, b))
  }

  lemma CostsFrom(cost: seq<UInt16>, lens: seq<seq<Byte>>, syms: seq<nat>, a: nat, b: nat, alphaSize: nat)
    requires |cost| == 6 && Rows(lens, alphaSize, 20) && SymsBelow(syms, alphaSize) && b <= |syms|
    requires forall t :: 0 <= t < 6 ==> cost[t] == CostOf(lens[t], syms, a, b)
    ensures CostsAre(cost, lens, 6, syms, a, b)
  {
  }

  lemma SixTables(cost: seq<UInt16>, lens: seq<seq<Byte>>, syms: seq<nat>, a: nat, b: nat, alphaSize: nat)
    requires |cost| == 6 && Rows(lens, alphaSize, 20) && SymsBelow(syms, alphaSize) && b <= |syms|
    requires cost[0] == CostOf(lens[0], syms, a, b) && cost[1] == CostOf(lens[1], syms, a, b)
    requires cost[2] == CostOf(lens[2], syms, a, b) && cost[3] == CostOf(lens[3], syms, a, b)
    requires cost[4] == CostOf(lens[4], syms, a, b) && cost[5] == CostOf(lens[5], syms, a, b)
    ensures CostsAre(cost, lens, 6, syms, a, b)
  {
    CostsFrom(cost, lens, syms, a, b, alphaSize);
  }

  datatype Packs = Packs(p0: array<UInt32>, p1: array<UInt32>, p2: array<UInt32>)

  ghost predicate AllPacked(p: Packs, lens: seq<seq<Byte>>)
    reads p.p0, p.p1, p.p2
  {
    |lens| ==
      6 && Packed(p.p0[..], lens[0], lens[1]) && Packed(p.p1[..], lens[2], lens[3]) && Packed(p.p2[..], lens[4],
            lens[5])
  }

  lemma PacksParts(p: Packs, lens: seq<seq<Byte>>)
    requires |lens| == 6
    ensures AllPacked(p, lens) <==>
      Packed(p.p0[..], lens[0], lens[1]) && Packed(p.p1[..], lens[2], lens[3]) && Packed(p.p2[..], lens[4], lens[5])
  {
  }

  method PackLengths(lens: seq<seq<Byte>>, alphaSize: nat) returns (p: Packs)
    requires Rows(lens, alphaSize, 20)
    ensures AllPacked(p, lens) && fresh(p.p0) && fresh(p.p1) && fresh(p.p2)
  {
    var p0 := PackRows(lens[0], lens[1]);
    var p1 := PackRows(lens[2], lens[3]);
    var p2 := PackRows(lens[4], lens[5]);
    p := Packs(p0, p1, p2);
  }

  /** The usual case: six tables and a full group, three packed sums. */
  method FastCosts(p: Packs, lens: seq<seq<Byte>>, alphaSize: nat, arr1: array<UInt32>, nMTF: nat, gs: nat,
                   ghost syms: seq<nat>)
    returns (cost: array<UInt16>)
    requires AllPacked(p, lens) && Rows(lens, alphaSize, 20) && SymsBelow(syms, alphaSize)
    requires nMTF <= 2 * arr1.Length && syms == HalfView(arr1[..], nMTF) && gs + 50 <= nMTF
    ensures fresh(cost) && CostsAre(cost[..], lens, 6, syms, gs, gs + 50)
  {
    hide *;
    RowsParts(lens, alphaSize, 20, 0);
    RowsParts(lens, alphaSize, 20, 1);
    RowsParts(lens, alphaSize, 20, 2);
    RowsParts(lens, alphaSize, 20, 3);
    RowsParts(lens, alphaSize, 20, 4);
    RowsParts(lens, alphaSize, 20, 5);
    PacksParts(p, lens);
    var c0, c1 := PairCost(p.p0, arr1, nMTF, gs, lens[0], lens[1], syms);
    var c2, c3 := PairCost(p.p1, arr1, nMTF, gs, lens[2], lens[3], syms);
    var c4, c5 := PairCost(p.p2, arr1, nMTF, gs, lens[4], lens[5], syms);
    cost := new UInt16[6];
    cost[0], cost[1], cost[2], cost[3], cost[4], cost[5] := c0, c1, c2, c3, c4, c5;
    SixTables(cost[..], lens, syms, gs, gs + 50, alphaSize);
  }

  lemma CostStart(cost: seq<UInt16>, lens: seq<seq<Byte>>, nGroups: nat, syms: seq<nat>, a: nat, alphaSize: nat)
    requires |cost| == 6 && Rows(lens, alphaSize, 20) && SymsBelow(syms, alphaSize) && a <= |syms| && nGroups <= 6
    requires forall t :: 0 <= t < 6 ==> cost[t] == 0
    ensures CostsAre(cost, lens, nGroups, syms, a, a)
  {
  }

  /** Tables below t have this symbol counted. */
  ghost predicate CostsPartly(cost: seq<UInt16>, lens: seq<seq<Byte>>, nGroups: nat, syms: seq<nat>, a: nat, b: nat,
                              done: nat)
  {
    && |cost| == 6 && |lens| == 6 && nGroups <= 6 && b < |syms|
    && (forall t :: 0 <= t < nGroups ==> SymsBelow(syms, |lens[t]|))
    && (forall t :: 0 <= t < nGroups ==> cost[t] == CostOf(lens[t], syms, a, if t < done then b + 1 else b))
  }

  lemma CostsEnter(cost: seq<UInt16>, lens: seq<seq<Byte>>, nGroups: nat, syms: seq<nat>, a: nat, b: nat)
    requires CostsAre(cost, lens, nGroups, syms, a, b) && b < |syms|
    ensures CostsPartly(cost, lens, nGroups, syms, a, b, 0)
  {
  }

  lemma CostsLeave(cost: seq<UInt16>, lens: seq<seq<Byte>>, nGroups: nat, syms: seq<nat>, a: nat, b: nat)
    requires CostsPartly(cost, lens, nGroups, syms, a, b, nGroups)
    ensures CostsAre(cost, lens, nGroups, syms, a, b + 1)
  {
  }

  lemma CostsStep(cost: seq<UInt16>, lens: seq<seq<Byte>>, nGroups: nat, syms: seq<nat>, a: nat, b: nat, t: nat,
                  alphaSize: nat)
    requires CostsPartly(cost, lens, nGroups, syms, a, b, t) && t < nGroups && a <= b < a + 50
    requires Rows(lens, alphaSize, 20)
    ensures syms[b] < alphaSize && cost[t] + lens[t][syms[b]] < 0x1_0000
    ensures CostsPartly(cost[t := cost[t] + lens[t][syms[b]]], lens, nGroups, syms, a, b, t + 1)
  {
    CostBound(lens[t], syms, a, b, 20);
  }

  /** The general case, one symbol and one table at a time. */
  method SlowCosts(lens: seq<seq<Byte>>, nGroups: nat, alphaSize: nat, arr1: array<UInt32>, nMTF: nat, gs: nat, ge: nat,
                   ghost syms: seq<nat>)
    returns (cost: array<UInt16>)
    requires nGroups <= 6 && Rows(lens, alphaSize, 20) && SymsBelow(syms, alphaSize)
    requires nMTF <= 2 * arr1.Length && syms == HalfView(arr1[..], nMTF) && gs <= ge < nMTF && ge < gs + 50
    ensures fresh(cost) && CostsAre(cost[..], lens, nGroups, syms, gs, ge + 1)
  {
    hide *;
    HalfSize(arr1[..], nMTF);
    cost := new UInt16[6](_ => 0);
    CostStart(cost[..], lens, nGroups, syms, gs, alphaSize);
    for i := gs to ge + 1
      invariant CostsAre(cost[..], lens, nGroups, syms, gs, i)
    {
      var icv := GetHalf(arr1, i, nMTF);
      CostsEnter(cost[..], lens, nGroups, syms, gs, i);
      for t := 0 to nGroups
        invariant CostsPartly(cost[..], lens, nGroups, syms, gs, i, t)
      {
        ghost var c := cost[..];
        CostsStep(c, lens, nGroups, syms, gs, i, t, alphaSize);
        RowsParts(lens, alphaSize, 20, t);
        cost[t] := cost[t] + lens[t][icv];
        assert cost[..] == c[t := c[t] + lens[t][syms[i]]];
      }
      CostsLeave(cost[..], lens, nGroups, syms, gs, i);
    }
  }

  lemma HalfSize(words: seq<UInt32>, n: nat)
    requires n <= 2 * |words|
    ensures |HalfView(words, n)| == n
  {
  }

  /** The first of the cheapest tables. */
  ghost predicate Cheapest(lens: seq<seq<Byte>>, nGroups: nat, syms: seq<nat>, a: nat, b: nat, bt: int) {
    && 0 <= bt < nGroups <= |lens| && b <= |syms| && (forall t :: 0 <= t < nGroups ==> SymsBelow(syms, |lens[t]|))
    && (forall t :: 0 <= t < nGroups ==> CostOf(lens[bt], syms, a, b) <= CostOf(lens[t], syms, a, b))
    && (forall t :: 0 <= t < bt ==> CostOf(lens[bt], syms, a, b) < CostOf(lens[t], syms, a, b))
  }

  method PickCheapest(cost: array<UInt16>, nGroups: nat, ghost lens: seq<seq<Byte>>, ghost syms: seq<nat>,
                      ghost a: nat, ghost b: nat)
    returns (bt: int)
    requires 1 <= nGroups <= 6 && CostsAre(cost[..], lens, nGroups, syms, a, b)
    ensures Cheapest(lens, nGroups, syms, a, b, bt)
  {
    assert forall t :: 0 <= t < nGroups ==> cost[..][t] == cost[t];
    var bc := 999999999;
    bt := -1;
    for t := 0 to nGroups
      invariant t == 0 ==> bc == 999999999
      invariant t > 0 ==> 0 <= bt < t && bc == cost[bt]
      invariant forall u :: 0 <= u < t ==> bc <= cost[u]
      invariant forall u :: 0 <= u < bt && u < t ==> bc < cost[u]
    {
      if cost[t] < bc { bc := cost[t]; bt := t; }
    }
  }

  /* ---- one pass over all groups ---- */

  /** Group g: fifty symbols, or what is left of them. */
  ghost function GroupEnd(n: nat, g: nat): nat {
    if 50 * g + 50 <= n then 50 * g + 50 else n
  }

  ghost function GroupCount(n: nat): (r: nat)
    ensures 50 * r >= n && (n > 0 ==> 50 * (r - 1) < n)
  {
    (n + 49) / 50
  }

  /** The symbols of the groups that were given to table t. */
  ghost function CodedBy(syms: seq<nat>, selector: seq<nat>, t: nat): (r: seq<nat>) {
    if selector == [] then [] else
      var g := |selector| - 1;
      CodedBy(syms, selector[..g], t) +
      if selector[g] == t && 50 * g <= GroupEnd(|syms|, g) then syms[50 * g..GroupEnd(|syms|, g)] else []
  }

  ghost predicate Selected(lens: seq<seq<Byte>>, nGroups: nat, syms: seq<nat>, selector: seq<nat>) {
    forall g :: 0 <= g < |selector| ==> Cheapest(lens, nGroups, syms, 50 * g, GroupEnd(|syms|, g), selector[g])
  }

  /** Row t counts the symbols coded with table t. */
  ghost predicate Counted(rfreq: seq<seq<nat>>, alphaSize: nat, syms: seq<nat>, selector: seq<nat>) {
    && |rfreq| == 6 && alphaSize > 0
    && forall t :: 0 <= t < 6 ==>
         |rfreq[t]| == alphaSize && Tallied(rfreq[t], CodedBy(syms, selector, t), alphaSize - 1)
  }

  lemma CountedParts(rfreq: seq<seq<nat>>, alphaSize: nat, syms: seq<nat>, selector: seq<nat>, t: nat)
    requires Counted(rfreq, alphaSize, syms, selector) && t < 6
    ensures |rfreq| == 6 && |rfreq[t]| == alphaSize && Tallied(rfreq[t], CodedBy(syms, selector, t), alphaSize - 1)
  {
  }

  lemma CountedNone(rfreq: seq<seq<nat>>, alphaSize: nat, syms: seq<nat>)
    requires |rfreq| == 6 && alphaSize > 0
    requires forall t :: 0 <= t < 6 ==> rfreq[t] == seq(alphaSize, _ => 0)
    ensures Counted(rfreq, alphaSize, syms, [])
  {
  }

  /** Counting the symbols a..b-1 in one row. */
  method CountGroup(row0: seq<nat>, arr1: array<UInt32>, nMTF: nat, gs: nat, ge: nat, alphaSize: nat,
                    ghost syms: seq<nat>, ghost before: seq<nat>)
    returns (row: seq<nat>)
    requires nMTF <= 2 * arr1.Length && syms == HalfView(arr1[..], nMTF) && SymsBelow(syms, alphaSize)
    requires gs <= ge < nMTF && |row0| == alphaSize > 0 && Tallied(row0, before, alphaSize - 1)
    ensures |row| == alphaSize && Tallied(row, before + syms[gs..ge + 1], alphaSize - 1)
  {
    hide *;
    row := row0;
    HalfSize(arr1[..], nMTF);
    SymsAt(syms, alphaSize);
    assert before + syms[gs..gs] == before;
    for i := gs to ge + 1
      invariant |row| == alphaSize && Tallied(row, before + syms[gs..i], alphaSize - 1)
    {
      var v := GetHalf(arr1, i, nMTF);
      TallyOne(row, before + syms[gs..i], alphaSize - 1, v);
      assert before + syms[gs..i] + [v] == before + syms[gs..i + 1];
      row := row[v := row[v] + 1];
    }
  }

  lemma SymsAt(syms: seq<nat>, n: nat)
    requires SymsBelow(syms, n)
    ensures forall i :: 0 <= i < |syms| ==> syms[i] < n
  {
  }

  lemma CountedNext(rfreq: seq<seq<nat>>, alphaSize: nat, syms: seq<nat>, selector: seq<nat>, bt: nat, row: seq<nat>)
    requires Counted(rfreq, alphaSize, syms, selector) && bt < 6 && |row| == alphaSize && 50 * |selector| < |syms|
    requires Tallied(row, CodedBy(syms, selector, bt) + syms[50 * |selector|..GroupEnd(|syms|, |selector|)],
                     alphaSize - 1)
    ensures Counted(rfreq[bt := row], alphaSize, syms, selector + [bt])
  {
    var s' := selector + [bt];
    assert s'[..|s'| - 1] == selector;
    forall t | 0 <= t < 6 ensures Tallied(rfreq[bt := row][t], CodedBy(syms, s', t), alphaSize - 1) {
      if t != bt { assert CodedBy(syms, s', t) == CodedBy(syms, selector, t); }
    }
  }

  lemma SelectedNext(lens: seq<seq<Byte>>, nGroups: nat, syms: seq<nat>, selector: seq<nat>, bt: nat)
    requires Selected(lens, nGroups, syms, selector)
    requires Cheapest(lens, nGroups, syms, 50 * |selector|, GroupEnd(|syms|, |selector|), bt)
    ensures Selected(lens, nGroups, syms, selector + [bt])
  {
    var s' := selector + [bt];
    forall g | 0 <= g < |s'| ensures Cheapest(lens, nGroups, syms, 50 * g, GroupEnd(|syms|, g), s'[g]) {
      if g < |selector| { assert s'[g] == selector[g]; }
    }
  }

  lemma SelectedStart(lens: seq<seq<Byte>>, nGroups: nat, syms: seq<nat>)
    ensures Selected(lens, nGroups, syms, [])
  {
  }

  lemma CheapestInRange(lens: seq<seq<Byte>>, nGroups: nat, syms: seq<nat>, a: nat, b: nat, bt: int)
    requires Cheapest(lens, nGroups, syms, a, b, bt)
    ensures 0 <= bt < nGroups
  {
  }

  method NoCounts(alphaSize: nat, ghost syms: seq<nat>) returns (rfreq: seq<seq<nat>>)
    requires alphaSize > 0
    ensures |rfreq| == 6 && Counted(rfreq, alphaSize, syms, [])
  {
    rfreq := seq(6, _ => seq(alphaSize, _ => 0));
    CountedNone(rfreq, alphaSize, syms);
  }

  lemma GroupAt(n: nat, g: nat, gs: nat, ge: nat)
    requires gs == 50 * g < n && ge == if gs + 49 >= n then n - 1 else gs + 49
    ensures GroupEnd(n, g) == ge + 1 && g + 1 <= GroupCount(n) && (ge + 1 >= n ==> g + 1 == GroupCount(n))
    ensures ge + 1 < n ==> ge + 1 == 50 * (g + 1)
  {
  }

  lemma CountFits(n: nat)
    requires n <= 900_050
    ensures GroupCount(n) <= 18002
  {
  }

  /** Costs of one group, by whichever way applies. */
  method GroupCosts(p: Packs, lens: seq<seq<Byte>>, nGroups: nat, alphaSize: nat, arr1: array<UInt32>, nMTF: nat,
                    gs: nat, ge: nat, ghost syms: seq<nat>)
    returns (cost: array<UInt16>)
    requires nGroups <= 6 && AllPacked(p, lens) && Rows(lens, alphaSize, 20) && SymsBelow(syms, alphaSize)
    requires nMTF <= 2 * arr1.Length && syms == HalfView(arr1[..], nMTF) && gs <= ge < nMTF && ge < gs + 50
    ensures fresh(cost) && CostsAre(cost[..], lens, nGroups, syms, gs, ge + 1)
  {
    hide *;
    if nGroups == 6 && 50 == ge - gs + 1 {
      cost := FastCosts(p, lens, alphaSize, arr1, nMTF, gs, syms);
    } else {
      cost := SlowCosts(lens, nGroups, alphaSize, arr1, nMTF, gs, ge, syms);
    }
  }

  /** Gives each group the table that codes it in the fewest bits, and counts what each table then codes. */
  method ChooseTables(lens: seq<seq<Byte>>, nGroups: nat, alphaSize: nat, arr1: array<UInt32>, nMTF: nat,
                      selector: array<Byte>, ghost syms: seq<nat>)
    returns (nSelectors: nat, rfreq: seq<seq<nat>>)
    requires 2 <= nGroups <= 6 && alphaSize > 0 && Rows(lens, alphaSize, 20) && SymsBelow(syms, alphaSize)
    requires nMTF <= 2 * arr1.Length && syms == HalfView(arr1[..], nMTF)
    requires 0 < nMTF <= 900_050 && selector.Length == 18002
    modifies selector
    ensures nSelectors == GroupCount(nMTF) <= 18002
    ensures forall g :: 0 <= g < nSelectors ==> selector[g] < nGroups
    ensures Selected(lens, nGroups, syms, selector[..nSelectors])
    ensures Counted(rfreq, alphaSize, syms, selector[..nSelectors])
  {
    hide *;
    GroupSizes();
    HalfSize(arr1[..], nMTF);
    CountFits(nMTF);
    var p := PackLengths(lens, alphaSize);
    rfreq := NoCounts(alphaSize, syms);
    SelectedStart(lens, nGroups, syms);
    nSelectors := 0;
    var gs := 0;
    assert selector[..0] == [];
    while gs < nMTF
      invariant gs < nMTF ==> gs == 50 * nSelectors
      invariant gs >= nMTF ==> nSelectors == GroupCount(nMTF)
      invariant 0 <= gs && 0 <= nSelectors <= GroupCount(nMTF)
      invariant |rfreq| == 6 && syms == HalfView(arr1[..], nMTF) && AllPacked(p, lens)
      invariant forall g :: 0 <= g < nSelectors ==> selector[g] < nGroups
      invariant Selected(lens, nGroups, syms, selector[..nSelectors])
      invariant Counted(rfreq, alphaSize, syms, selector[..nSelectors])
      decreases nMTF - gs
    {
      var ge := gs + BZ_G_SIZE - 1;
      if ge >= nMTF { ge := nMTF - 1; }
      GroupAt(nMTF, nSelectors, gs, ge);
      var cost := GroupCosts(p, lens, nGroups, alphaSize, arr1, nMTF, gs, ge, syms);
      var bt := PickCheapest(cost, nGroups, lens, syms, gs, ge + 1);
      CheapestInRange(lens, nGroups, syms, gs, ge + 1, bt);
      ghost var sel := selector[..nSelectors];
      SelectedNext(lens, nGroups, syms, sel, bt);
      CountedParts(rfreq, alphaSize, syms, sel, bt);
      selector[nSelectors] := bt;
      nSelectors := nSelectors + 1;
      assert selector[..nSelectors] == sel + [bt];
      var row := CountGroup(rfreq[bt], arr1, nMTF, gs, ge, alphaSize, syms, CodedBy(syms, sel, bt));
      CountedNext(rfreq, alphaSize, syms, sel, bt, row);
      rfreq := rfreq[bt := row];
      gs := ge + 1;
    }
  }
}
