/** Gathering the positions in front of a sorted run: how scanning one big bucket sorts small ones. */
module BucketScan {
  import opened MachineInts
  import opened Arithmetic
  import opened Permutations
  import opened Rotations
  import opened Counting
  import opened Bwt
  import opened MainCompare
  import opened PairBuckets

  /* ---- the positions in front of a list of positions ---- */

  /** The positions just before those of w that hold the byte c, in the order of w. */
  ghost function Gather(b: seq<Byte>, w: seq<nat>, c: int): (r: seq<nat>)
    requires Below(w, |b|)
  {
    if w == [] then []
    else
      var x := Prev(|b|, w[|w| - 1]);
      Gather(b, w[..|w| - 1], c) + if b[x] == c then [x] else []
  }

  lemma GatherPush(b: seq<Byte>, w: seq<nat>, y: nat, c: int)
    requires Below(w, |b|) && y < |b|
    ensures Below(w + [y], |b|)
    ensures Gather(b, w + [y], c) == Gather(b, w, c) + if b[Prev(|b|, y)] == c then [Prev(|b|, y)] else []
  {
    assert (w + [y])[..|w|] == w;
  }

  lemma {:induction false} GatherAdd(b: seq<Byte>, v: seq<nat>, w: seq<nat>, c: int)
    requires Below(v, |b|) && Below(w, |b|)
    ensures Below(v + w, |b|) && Gather(b, v + w, c) == Gather(b, v, c) + Gather(b, w, c)
  {
    if w == [] {
      assert v + w == v;
    } else {
      var k := |w| - 1;
      GatherAdd(b, v, w[..k], c);
      GatherPush(b, v + w[..k], w[k], c);
      assert v + w == v + w[..k] + [w[k]];
    }
  }

  lemma GatherFront(b: seq<Byte>, y: nat, w: seq<nat>, c: int)
    requires y < |b| && Below(w, |b|)
    ensures Below([y] + w, |b|)
    ensures Gather(b, [y] + w, c) == (if b[Prev(|b|, y)] == c then [Prev(|b|, y)] else []) + Gather(b, w, c)
  {
    GatherAdd(b, [y], w, c);
    GatherPush(b, [], y, c);
    assert [] + [y] == [y];
  }

  /** Entry k of the gathered list stands before entry t of w; at least k entries of w lie in front of it. */
  lemma {:induction false} GatherFrom(b: seq<Byte>, w: seq<nat>, c: int, k: nat) returns (t: nat)
    requires Below(w, |b|) && k < |Gather(b, w, c)|
    ensures k <= t < |w| && |Gather(b, w, c)| - k <= |w| - t
    ensures Gather(b, w, c)[k] < |b| && b[Gather(b, w, c)[k]] == c && Next(|b|, Gather(b, w, c)[k]) == w[t]
  {
    var m := |w| - 1;
    if k < |Gather(b, w[..m], c)| {
      t := GatherFrom(b, w[..m], c, k);
    } else {
      t := m;
      GatherSize(b, w[..m], c);
    }
  }

  lemma {:induction false} GatherSize(b: seq<Byte>, w: seq<nat>, c: int)
    requires Below(w, |b|)
    ensures |Gather(b, w, c)| <= |w|
  {
    if w != [] { GatherSize(b, w[..|w| - 1], c); }
  }

  /** The gathered list keeps the order of w. */
  lemma {:induction false} GatherPair(b: seq<Byte>, w: seq<nat>, c: int, k: nat, l: nat) returns (t: nat, u: nat)
    requires Below(w, |b|) && k < l < |Gather(b, w, c)|
    ensures t < u < |w|
    ensures var g := Gather(b, w, c);
      && g[k] < |b| && b[g[k]] == c && Next(|b|, g[k]) == w[t]
      && g[l] < |b| && b[g[l]] == c && Next(|b|, g[l]) == w[u]
  {
    var m := |w| - 1;
    if l < |Gather(b, w[..m], c)| {
      t, u := GatherPair(b, w[..m], c, k, l);
    } else {
      t := GatherFrom(b, w[..m], c, k);
      u := m;
    }
  }

  lemma {:induction false} GatherHas(b: seq<Byte>, w: seq<nat>, c: int, x: nat)
    requires Below(w, |b|) && x < |b| && b[x] == c && Next(|b|, x) in w
    ensures x in Gather(b, w, c)
  {
    var m := |w| - 1;
    var y := Prev(|b|, w[m]);
    if Next(|b|, x) == w[m] {
      assert x == y;
    } else {
      assert w == w[..m] + [w[m]];
      GatherHas(b, w[..m], c, x);
    }
  }

  lemma GatherInjective(b: seq<Byte>, w: seq<nat>, c: int)
    requires Below(w, |b|) && Injective(w)
    ensures Injective(Gather(b, w, c))
  {
    var g := Gather(b, w, c);
    forall k, l | 0 <= k < l < |g| ensures g[k] != g[l] {
      var t, u := GatherPair(b, w, c, k, l);
    }
  }

  lemma GatherBelow(b: seq<Byte>, w: seq<nat>, c: int)
    requires Below(w, |b|)
    ensures Below(Gather(b, w, c), |b|)
  {
    forall k | 0 <= k < |Gather(b, w, c)| ensures Gather(b, w, c)[k] < |b| {
      var t := GatherFrom(b, w, c, k);
    }
  }

  /** Of two rotations that begin with the same byte, the rest decides. */
  lemma TailDecides(b: seq<Byte>, x: nat, y: nat)
    requires x < |b| && y < |b| && b[x] == b[y] && NotAfter(b, Next(|b|, x), Next(|b|, y))
    ensures NotAfter(b, x, y)
  {
    OneKey(b, x);
    OneKey(b, y);
    assert Advance(|b|, x, 1) == Next(|b|, x) && Advance(|b|, y, 1) == Next(|b|, y);
    OrderBack(b, x, y, 1);
  }

  /** What stands before a sorted list, by equal bytes, is sorted. */
  lemma GatherSorted(b: seq<Byte>, w: seq<nat>, c: int)
    requires Below(w, |b|) && SortedKeys(b, w, |b|)
    ensures Below(Gather(b, w, c), |b|) && SortedKeys(b, Gather(b, w, c), |b|)
  {
    var g := Gather(b, w, c);
    GatherBelow(b, w, c);
    forall k, l | 0 <= k < l < |g| ensures Key(b, g[k], |b|) <= Key(b, g[l], |b|) {
      var t, u := GatherPair(b, w, c, k, l);
      TailDecides(b, g[k], g[l]);
    }
  }

  /* ---- all positions with a given pair ---- */

  ghost function Holders(d: seq<nat>, c: int): (r: set<nat>) {
    set x: nat | x < |d| && d[x] == c
  }

  lemma {:induction false} HoldersSize(d: seq<nat>, c: int)
    ensures |Holders(d, c)| == Count(d, c)
  {
    if d == [] {
      assert Holders(d, c) == {};
    } else {
      var k: nat := |d| - 1;
      HoldersSize(d[..k], c);
      assert Holders(d, c) == Holders(d[..k], c) + if d[k] == c then {k} else {};
    }
  }

  /** All entries of w begin with the byte s. */
  ghost predicate Begin(b: seq<Byte>, w: seq<nat>, s: Byte)
  {
    Below(w, |b|) && forall k :: 0 <= k < |w| ==> b[w[k]] == s
  }

  lemma GatherHolders(b: seq<Byte>, w: seq<nat>, c: int, s: Byte)
    requires Begin(b, w, s)
    ensures Elements(Gather(b, w, c)) <= Holders(Pairs(b), 256 * c + s)
  {
    var g := Gather(b, w, c);
    forall x: nat | x in Elements(g) ensures x in Holders(Pairs(b), 256 * c + s) {
      var k :| 0 <= k < |g| && g[k] == x;
      var t := GatherFrom(b, w, c, k);
      PairIs(b, x);
    }
  }

  /** No more can be gathered than there are positions with that pair. */
  lemma GatherFits(b: seq<Byte>, w: seq<nat>, c: int, s: Byte)
    requires Begin(b, w, s) && Injective(w)
    ensures |Gather(b, w, c)| <= Count(Pairs(b), 256 * c + s)
    ensures |Gather(b, w, c)| == Count(Pairs(b), 256 * c + s) ==>
      Elements(Gather(b, w, c)) == Holders(Pairs(b), 256 * c + s)
  {
    GatherInjective(b, w, c);
    ElementsSize(Gather(b, w, c));
    GatherHolders(b, w, c, s);
    HoldersSize(Pairs(b), 256 * c + s);
    SubsetSize(Elements(Gather(b, w, c)), Holders(Pairs(b), 256 * c + s));
  }

  /** If w has every position with the byte s, every position with the pair (c, s) is gathered. */
  lemma GatherAll(b: seq<Byte>, w: seq<nat>, c: int, s: Byte)
    requires Begin(b, w, s) && Injective(w) && forall y: nat :: y < |b| && b[y] == s ==> y in w
    ensures |Gather(b, w, c)| == Count(Pairs(b), 256 * c + s)
  {
    var g, h := Gather(b, w, c), Holders(Pairs(b), 256 * c + s);
    GatherFits(b, w, c, s);
    GatherInjective(b, w, c);
    ElementsSize(g);
    HoldersSize(Pairs(b), 256 * c + s);
    forall x: nat | x in h ensures x in Elements(g) {
      PairIs(b, x);
      PairBytes(b, x, c, s, w);
      GatherHas(b, w, c, x);
    }
    SubsetSize(h, Elements(g));
  }

  lemma PairBytes(b: seq<Byte>, x: nat, c: int, s: Byte, w: seq<nat>)
    requires x < |b| && Pairs(b)[x] == 256 * c + s && forall y: nat :: y < |b| && b[y] == s ==> y in w
    requires Begin(b, w, s)
    ensures b[x] == c && Next(|b|, x) in w
  {
    PairIs(b, x);
    DivUnique(Pairs(b)[x], 256, c, s);
  }
}
