/** Step 2 of the main sort as a whole: it sorts the small buckets (c, s) for every byte c not yet done. */
module BucketResult {
  import opened MachineInts
  import opened Arithmetic
  import opened Permutations
  import opened Rotations
  import opened Counting
  import opened FallbackQuickSort
  import opened MainSimpleSort
  import opened PairBuckets
  import opened BucketScan
  import opened SameRun
  import opened BucketFill
  import opened BucketSweep
  import opened BucketComplete

  /* ---- the ends of the two scans have met ---- */

  lemma SliceOrdered(b: seq<Byte>, p: seq<nat>, lo: nat, hi: nat)
    requires lo <= hi <= |p| && Below(Slice(p, lo, hi), |b|) && SortedKeys(b, Slice(p, lo, hi), |b|)
    ensures Ordered(p, Keys(b), lo, hi - 1)
  {
    var w := Slice(p, lo, hi);
    forall k, l | lo <= k < l <= hi - 1 ensures ClassOf(p, Keys(b), k) <= ClassOf(p, Keys(b), l) {
      assert w[k - lo] == p[k] && w[l - lo] == p[l];
      ClassIsKey(b, p, k);
      ClassIsKey(b, p, l);
    }
  }

  lemma {:induction false} MetSorted(b: seq<Byte>, done: seq<bool>, p0: seq<nat>, p: seq<nat>, s: Byte, cs: seq<int>,
                                     ce: seq<int>, c: Byte)
    requires |cs| == |ce| == 256 && Sweep(b, done, p0, p, s, cs, ce, cs[s], ce[s]) && cs[s] == ce[s] + 1 && !done[c]
    ensures SmallSorted(b, p, c, s)
  {
    hide *;
    var d := Pairs(b);
    SweepBounds(b, done, p0, p, s, cs, ce, cs[s], ce[s]);
    EndBucket(b, done, p0, p, s, cs, ce, c);
    var w := Slice(p, BigStart(d, s), cs[s]) + Slice(p, ce[s] + 1, BigEnd(d, s));
    BeginBelow(b, w, s);
    GatherSorted(b, w, c);
    Layout(d, c, s);
    SliceOrdered(b, p, SmallStart(d, c, s), SmallEnd(d, c, s));
    SmallSortedIs(b, p, c, s);
  }

  lemma BeginBelow(b: seq<Byte>, w: seq<nat>, s: Byte)
    requires Begin(b, w, s)
    ensures Below(w, |b|)
  {
  }

  lemma SmallSortedIs(b: seq<Byte>, p: seq<nat>, c: int, s: int)
    ensures SmallSorted(b, p, c, s) <==> Ordered(p, Keys(b), SmallStart(Pairs(b), c, s), SmallEnd(Pairs(b), c, s) - 1)
  {
  }

  lemma {:induction false} KeptIs(d: seq<nat>, done: seq<bool>, p0: seq<nat>, p: seq<nat>, s: Byte, k: nat)
    requires Bucketed(d, p0) && Untouched(d, done, p0, p, s) && k < |d|
    ensures |done| == 256 && Below(d, 65536) && k < |p0| && p0[k] < |d| && InSlot(d, d[p0[k]], k)
    ensures d[p0[k]] / 256 < 256
    ensures Kept(d, done, p0, s, k) ==> p[k] == p0[k]
    ensures !Kept(d, done, p0, s, k) ==>
      d[p0[k]] == 256 * (d[p0[k]] / 256) + s && !done[d[p0[k]] / 256] &&
      SmallStart(d, d[p0[k]] / 256, s) <= k < SmallEnd(d, d[p0[k]] / 256, s)
  {
    hide Less;
    DivMod(d[p0[k]], 256);
  }

  /** After the scans every slot still holds a position with the slot's own pair. */
  lemma {:induction false} MetPair(b: seq<Byte>, done: seq<bool>, p0: seq<nat>, p: seq<nat>, s: Byte, cs: seq<int>,
                                   ce: seq<int>, k: nat)
    requires |cs| == |ce| == 256 && Sweep(b, done, p0, p, s, cs, ce, cs[s], ce[s]) && cs[s] == ce[s] + 1 && k < |b|
    ensures k < |p| && k < |p0| && p[k] < |b| && p0[k] < |b| && Pairs(b)[p[k]] == Pairs(b)[p0[k]]
  {
    hide *;
    var d := Pairs(b);
    SweepBounds(b, done, p0, p, s, cs, ce, cs[s], ce[s]);
    SweepBase(b, done, p0, p, s, cs, ce, cs[s], ce[s]);
    KeptIs(d, done, p0, p, s, k);
    if !Kept(d, done, p0, s, k) {
      var c: Byte := d[p0[k]] / 256;
      EndBucket(b, done, p0, p, s, cs, ce, c);
      var w := Slice(p, BigStart(d, s), cs[s]) + Slice(p, ce[s] + 1, BigEnd(d, s));
      Layout(d, c, s);
      SliceAt(p, SmallStart(d, c, s), SmallEnd(d, c, s), k);
      BeginBelow(b, w, s);
      GatheredPair(b, w, c, s, k - SmallStart(d, c, s));
    }
  }

  lemma SliceAt(p: seq<nat>, lo: nat, hi: nat, k: nat)
    requires lo <= k < hi <= |p|
    ensures |Slice(p, lo, hi)| == hi - lo && Slice(p, lo, hi)[k - lo] == p[k]
  {
  }

  lemma GatheredPair(b: seq<Byte>, w: seq<nat>, c: Byte, s: Byte, i: nat)
    requires Begin(b, w, s) && Below(w, |b|) && i < |Gather(b, w, c)|
    ensures Gather(b, w, c)[i] < |b| && Pairs(b)[Gather(b, w, c)[i]] == 256 * (c as int) + s
  {
    var t := GatherFrom(b, w, c, i);
    PairIs(b, Gather(b, w, c)[i]);
  }

  lemma {:induction false} MetDistinct(b: seq<Byte>, done: seq<bool>, p0: seq<nat>, p: seq<nat>, s: Byte, cs: seq<int>,
                                       ce: seq<int>, k: nat, l: nat)
    requires |cs| == |ce| == 256 && Sweep(b, done, p0, p, s, cs, ce, cs[s], ce[s]) && cs[s] == ce[s] + 1 && k < l < |b|
    ensures l < |p| && p[k] != p[l]
  {
    hide *;
    var d := Pairs(b);
    SweepBounds(b, done, p0, p, s, cs, ce, cs[s], ce[s]);
    SweepBase(b, done, p0, p, s, cs, ce, cs[s], ce[s]);
    KeptIs(d, done, p0, p, s, k);
    KeptIs(d, done, p0, p, s, l);
    MetPair(b, done, p0, p, s, cs, ce, k);
    MetPair(b, done, p0, p, s, cs, ce, l);
    if p[k] == p[l] {
      KeptByPair(d, done, p0, s, k, l);
      if Kept(d, done, p0, s, k) {
        BucketedDistinct(d, p0, k, l);
      } else {
        var c: Byte := d[p0[k]] / 256;
        EndBucket(b, done, p0, p, s, cs, ce, c);
        var w := Slice(p, BigStart(d, s), cs[s]) + Slice(p, ce[s] + 1, BigEnd(d, s));
        BeginBelow(b, w, s);
        Layout(d, c, s);
        SliceAt(p, SmallStart(d, c, s), SmallEnd(d, c, s), k);
        SliceAt(p, SmallStart(d, c, s), SmallEnd(d, c, s), l);
        GatherInjective(b, w, c);
      }
    }
  }

  lemma {:induction false} KeptByPair(d: seq<nat>, done: seq<bool>, p0: seq<nat>, s: Byte, k: nat, l: nat)
    requires |done| == 256 && Below(d, 65536) && k < |p0| && l < |p0| && p0[k] < |d| && p0[l] < |d|
    requires d[p0[k]] == d[p0[l]]
    ensures Kept(d, done, p0, s, k) <==> Kept(d, done, p0, s, l)
  {
  }

  lemma BucketedDistinct(d: seq<nat>, p: seq<nat>, k: nat, l: nat)
    requires Bucketed(d, p) && k < l < |d|
    ensures |p| == |d| && p[k] != p[l]
  {
  }

  lemma {:induction false} MetBucketed(b: seq<Byte>, done: seq<bool>, p0: seq<nat>, p: seq<nat>, s: Byte, cs: seq<int>,
                                       ce: seq<int>)
    requires |cs| == |ce| == 256 && Sweep(b, done, p0, p, s, cs, ce, cs[s], ce[s]) && cs[s] == ce[s] + 1
    ensures Bucketed(Pairs(b), p)
  {
    hide *;
    var d := Pairs(b);
    SweepBounds(b, done, p0, p, s, cs, ce, cs[s], ce[s]);
    SweepBase(b, done, p0, p, s, cs, ce, cs[s], ce[s]);
    forall k: nat | k < |p| ensures p[k] < |b| && InSlot(d, d[p[k]], k) {
      MetPair(b, done, p0, p, s, cs, ce, k);
      KeptIs(d, done, p0, p, s, k);
    }
    forall k: nat, l: nat | k < l < |p| ensures p[k] != p[l] {
      MetDistinct(b, done, p0, p, s, cs, ce, k, l);
    }
    BucketedFrom(d, p);
  }

  lemma BucketedFrom(d: seq<nat>, p: seq<nat>)
    requires |p| == |d| && (forall k: nat :: k < |p| ==> p[k] < |d| && InSlot(d, d[p[k]], k))
    requires forall k: nat, l: nat :: k < l < |p| ==> p[k] != p[l]
    ensures Bucketed(d, p)
  {
  }

  /* ---- the ends have not met: the block is one byte over and over ---- */

  /** x has the pair (s, s) but has not been gathered. */
  ghost predicate Missing(b: seq<Byte>, w: seq<nat>, s: Byte, x: nat) {
    && x < |b| && b[x] == s && b[Next(|b|, x)] == s
    && Below(w, |b|) && x !in Gather(b, w, s)
  }

  ghost function FlankSeq(b: seq<Byte>, p: seq<nat>, s: Byte, lo: int, hi: int): seq<nat> {
    Slice(p, BigStart(Pairs(b), s), lo) + Slice(p, hi + 1, BigEnd(Pairs(b), s))
  }

  lemma {:induction false} MissingNext(b: seq<Byte>, done: seq<bool>, p0: seq<nat>, p: seq<nat>, s: Byte, cs: seq<int>,
                                       ce: seq<int>, x: nat)
    requires |cs| == |ce| == 256 && Sweep(b, done, p0, p, s, cs, ce, cs[s], ce[s])
    requires Missing(b, FlankSeq(b, p, s, cs[s], ce[s]), s, x)
    ensures x < |b| && Missing(b, FlankSeq(b, p, s, cs[s], ce[s]), s, Next(|b|, x))
  {
    hide *;
    var w := FlankSeq(b, p, s, cs[s], ce[s]);
    MissingBelow(b, w, s, x);
    var y := Next(|b|, x);
    MissingIs(b, w, s, x);
    FlankSeqIs(b, p, s, cs[s], ce[s]);
    SweepBounds(b, done, p0, p, s, cs, ce, cs[s], ce[s]);
    SweepBase(b, done, p0, p, s, cs, ce, cs[s], ce[s]);
    EndFill(b, done, p0, p, s, cs, ce, s);
    if y in w { GatherHas(b, w, s, x); }
    if b[Next(|b|, y)] != s {
      FlankHas(b, done, p0, p, s, cs[s], ce[s], y);
    }
    if y in Gather(b, w, s) {
      GatheredInFlanks(b, done, p0, p, s, cs, ce, y);
    }
    MissingIs(b, w, s, y);
  }

  lemma MissingIs(b: seq<Byte>, w: seq<nat>, s: Byte, x: nat)
    requires x < |b|
    ensures Missing(b, w, s, x) <==>
      b[x] == s && b[Next(|b|, x)] == s && Below(w, |b|) && x !in Gather(b, w, s)
  {
    hide Gather, Below;
  }

  lemma MissingBelow(b: seq<Byte>, w: seq<nat>, s: Byte, x: nat)
    requires Missing(b, w, s, x)
    ensures x < |b|
  {
  }

  lemma {:induction false} MissingOn(b: seq<Byte>, done: seq<bool>, p0: seq<nat>, p: seq<nat>, s: Byte, cs: seq<int>,
                                     ce: seq<int>, x: nat, k: nat)
    requires |cs| == |ce| == 256 && Sweep(b, done, p0, p, s, cs, ce, cs[s], ce[s])
    requires Missing(b, FlankSeq(b, p, s, cs[s], ce[s]), s, x)
    ensures x < |b| && b[Advance(|b|, x, k)] == s
    decreases k
  {
    hide Sweep, FlankSeq;
    if k > 0 {
      MissingNext(b, done, p0, p, s, cs, ce, x);
      MissingOn(b, done, p0, p, s, cs, ce, Next(|b|, x), k - 1);
    }
  }

  lemma {:induction false} MissingEverywhere(b: seq<Byte>, done: seq<bool>, p0: seq<nat>, p: seq<nat>, s: Byte,
                                             cs: seq<int>, ce: seq<int>, x: nat)
    requires |cs| == |ce| == 256 && Sweep(b, done, p0, p, s, cs, ce, cs[s], ce[s])
    requires Missing(b, FlankSeq(b, p, s, cs[s], ce[s]), s, x)
    ensures forall i :: 0 <= i < |b| ==> b[i] == s
  {
    hide Sweep, FlankSeq, Missing;
    MissingOn(b, done, p0, p, s, cs, ce, x, 0);
    forall i | 0 <= i < |b| ensures b[i] == s {
      var k := if i >= x then i - x else i + |b| - x;
      MissingOn(b, done, p0, p, s, cs, ce, x, k);
      AdvanceIs(|b|, x, k);
    }
  }

  lemma NotAllGathered(b: seq<Byte>, w: seq<nat>, s: Byte) returns (x: nat)
    requires Begin(b, w, s) && Injective(w) && |Gather(b, w, s)| < Count(Pairs(b), 256 * (s as int) + s)
    ensures Missing(b, w, s, x)
  {
    var g, h := Gather(b, w, s), Holders(Pairs(b), 256 * (s as int) + s);
    HoldersSize(Pairs(b), 256 * (s as int) + s);
    GatherInjective(b, w, s);
    ElementsSize(g);
    if h <= Elements(g) { SubsetSize(h, Elements(g)); }
    x :| x in h && x !in Elements(g);
    PairIs(b, x);
    DivUnique(Pairs(b)[x], 256, s, s);
  }

  lemma {:induction false} NotMet(b: seq<Byte>, done: seq<bool>, p0: seq<nat>, p: seq<nat>, s: Byte, cs: seq<int>,
                                  ce: seq<int>)
    requires |cs| == |ce| == 256 && Sweep(b, done, p0, p, s, cs, ce, cs[s], ce[s]) && cs[s] != ce[s] + 1
    ensures forall i :: 0 <= i < |b| ==> b[i] == s
  {
    hide *;
    SweepBounds(b, done, p0, p, s, cs, ce, cs[s], ce[s]);
    SweepBase(b, done, p0, p, s, cs, ce, cs[s], ce[s]);
    var w := FlankSeq(b, p, s, cs[s], ce[s]);
    FlankSeqIs(b, p, s, cs[s], ce[s]);
    FlanksAre(b, Slice(p, BigStart(Pairs(b), s), cs[s]), Slice(p, ce[s] + 1, BigEnd(Pairs(b), s)), s);
    EndFill(b, done, p0, p, s, cs, ce, s);
    Layout(Pairs(b), s, s);
    var x := NotAllGathered(b, w, s);
    MissingEverywhere(b, done, p0, p, s, cs, ce, x);
  }

  lemma FlankSeqIs(b: seq<Byte>, p: seq<nat>, s: Byte, lo: int, hi: int)
    ensures FlankSeq(b, p, s, lo, hi) == Slice(p, BigStart(Pairs(b), s), lo) + Slice(p, hi + 1, BigEnd(Pairs(b), s))
  {
  }

  lemma NothingGathered(b: seq<Byte>, w: seq<nat>, s: Byte)
    requires |b| > 1 && Below(w, |b|) && Gather(b, w, s) == w
    ensures w == []
  {
    if w != [] {
      var t := GatherFrom(b, w, s, |w| - 1);
    }
  }

  lemma SameLayout(b: seq<Byte>, s: Byte)
    requires forall i :: 0 <= i < |b| ==> b[i] == s
    ensures BigStart(Pairs(b), s) == SmallStart(Pairs(b), s, s) == 0
    ensures BigEnd(Pairs(b), s) == SmallEnd(Pairs(b), s, s) == |b|
  {
    var d, S := Pairs(b), s as int;
    AllSamePairs(b, s);
    LessOfSame(d, 257 * S, 256 * S);
    LessOfSame(d, 257 * S, 256 * S + S);
    LessOfSame(d, 257 * S, 256 * S + S + 1);
    LessOfSame(d, 257 * S, 256 * S + 256);
    hide Less;
  }

  /** In such a block nothing has been moved at all. */
  lemma {:induction false} NotMetEnds(b: seq<Byte>, done: seq<bool>, p0: seq<nat>, p: seq<nat>, s: Byte, cs: seq<int>,
                                      ce: seq<int>)
    requires |cs| == |ce| == 256 && Sweep(b, done, p0, p, s, cs, ce, cs[s], ce[s]) && |b| > 1
    requires forall i :: 0 <= i < |b| ==> b[i] == s
    ensures cs[s] == 0 && ce[s] == |b| - 1
  {
    hide *;
    var d := Pairs(b);
    SameLayout(b, s);
    var fw, bw := Slice(p, BigStart(d, s), cs[s]), Slice(p, ce[s] + 1, BigEnd(d, s));
    SweepBounds(b, done, p0, p, s, cs, ce, cs[s], ce[s]);
    SweepFill(b, done, p0, p, s, cs, ce, cs[s], ce[s], s);
    FillParts(b, p, s, cs[s], ce[s], s, fw, bw);
    NothingGathered(b, fw, s);
    NothingGathered(b, bw, s);
    SlicePart(p, BigStart(d, s), cs[s], cs[s]);
    SlicePart(p, ce[s] + 1, BigEnd(d, s), BigEnd(d, s));
  }

  lemma AllSamePairs(b: seq<Byte>, s: Byte)
    requires forall i :: 0 <= i < |b| ==> b[i] == s
    ensures forall i :: 0 <= i < |b| ==> Pairs(b)[i] == 257 * (s as int)
  {
    forall i | 0 <= i < |b| ensures Pairs(b)[i] == 257 * (s as int) { PairIs(b, i); }
  }

  lemma SameSorted(b: seq<Byte>, p: seq<nat>, s: Byte, lo: int, hi: int)
    requires Below(p, |b|) && |p| == |b| && 0 <= lo && hi < |b| && forall i :: 0 <= i < |b| ==> b[i] == s
    ensures Ordered(p, Keys(b), lo, hi)
  {
    forall k, l | lo <= k < l <= hi ensures ClassOf(p, Keys(b), k) <= ClassOf(p, Keys(b), l) {
      ClassIsKey(b, p, k);
      ClassIsKey(b, p, l);
      KeyOfSame(b, p[k], p[l], |b|);
    }
  }

  /** The slots of bucket (s, s) not yet written keep what they held. */
  ghost predicate MiddleKept(p0: seq<nat>, p: seq<nat>, lo: int, hi: int) {
    |p| == |p0| && forall k :: 0 <= k < |p| && lo <= k <= hi ==> p[k] == p0[k]
  }

  lemma MiddleMoves(p0: seq<nat>, p: seq<nat>, lo: int, hi: int, lo': int, hi': int, k: nat, v: nat)
    requires MiddleKept(p0, p, lo, hi) && k < |p| && lo <= lo' && hi' <= hi && (k < lo' || hi' < k)
    ensures MiddleKept(p0, p[k := v], lo', hi')
  {
  }

  lemma MiddleIs(p0: seq<nat>, p: seq<nat>)
    requires MiddleKept(p0, p, 0, |p| - 1)
    ensures p == p0
  {
  }

  /** What the source asserts after the scans. */
  ghost predicate EndsMeet(n: nat, lo: int, hi: int) {
    lo - 1 == hi || (lo == 0 && hi == n - 1)
  }

  /** The scans leave all positions in their buckets, and every bucket in front of s in order. */
  lemma {:induction false} SweepEnds(b: seq<Byte>, done: seq<bool>, p0: seq<nat>, p: seq<nat>, s: Byte, cs: seq<int>,
                                     ce: seq<int>)
    requires |cs| == |ce| == 256 && Sweep(b, done, p0, p, s, cs, ce, cs[s], ce[s]) && |b| > 1
    requires MiddleKept(p0, p, cs[s], ce[s])
    ensures |done| == 256 && Bucketed(Pairs(b), p) && EndsMeet(|b|, cs[s], ce[s])
    ensures forall c: Byte :: !done[c] ==> SmallSorted(b, p, c, s)
    ensures Untouched(Pairs(b), done, p0, p, s)
  {
    hide *;
    SweepBounds(b, done, p0, p, s, cs, ce, cs[s], ce[s]);
    SweepBase(b, done, p0, p, s, cs, ce, cs[s], ce[s]);
    MeetIs(|b|, cs[s], ce[s]);
    if cs[s] == ce[s] + 1 {
      MetBucketed(b, done, p0, p, s, cs, ce);
      forall c: Byte | !done[c] ensures SmallSorted(b, p, c, s) { MetSorted(b, done, p0, p, s, cs, ce, c); }
    } else {
      NotMet(b, done, p0, p, s, cs, ce);
      NotMetEnds(b, done, p0, p, s, cs, ce);
      MiddleIs(p0, p);
      BucketedIs(Pairs(b), p);
      forall c: Byte | !done[c] ensures SmallSorted(b, p, c, s) {
        Layout(Pairs(b), c, s);
        SameSorted(b, p, s, SmallStart(Pairs(b), c, s), SmallEnd(Pairs(b), c, s) - 1);
        SmallSortedIs(b, p, c, s);
      }
    }
  }

  lemma MeetIs(n: nat, lo: int, hi: int)
    ensures EndsMeet(n, lo, hi) <==> lo - 1 == hi || (lo == 0 && hi == n - 1)
  {
  }
}
