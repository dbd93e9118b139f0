/** When both scans of a big bucket have ended, the small buckets in front of it are complete. */
module BucketComplete {
  import opened MachineInts
  import opened Arithmetic
  import opened Permutations
  import opened Rotations
  import opened Counting
  import opened MainCompare
  import opened FallbackQuickSort
  import opened MainSimpleSort
  import opened PairBuckets
  import opened BucketScan
  import opened SameRun
  import opened BucketFill
  import opened BucketSweep

  /** The small bucket (c, s) is in order. */
  ghost predicate SmallSorted(b: seq<Byte>, p: seq<nat>, c: int, s: int) {
    Ordered(p, Keys(b), SmallStart(Pairs(b), c, s), SmallEnd(Pairs(b), c, s) - 1)
  }

  /* ---- the scans start ---- */

  lemma BigSlot(b: seq<Byte>, p: seq<nat>, s: Byte, k: nat)
    requires Bucketed(Pairs(b), p) && BigStart(Pairs(b), s) <= k < BigEnd(Pairs(b), s)
    ensures k < |b| == |p| && p[k] < |b| && b[p[k]] == s && InSlot(Pairs(b), Pairs(b)[p[k]], k)
    ensures Pairs(b)[p[k]] == 256 * (s as int) + b[Next(|b|, p[k])]
  {
    var d, S := Pairs(b), s as int;
    Layout(d, S, s);
    BucketedAt(d, p, k);
    hide Less, Bucketed, InSlot;
    SlotBounds(d, d[p[k]], k, 256 * S);
    SlotBounds(d, d[p[k]], k, 256 * S + 256);
    PairIs(b, p[k]);
    DivUnique(d[p[k]], 256, S, d[p[k]] - 256 * S);
  }

  /** Two entries of a big bucket are in order if the small bucket of the first is. */
  lemma BigOrder(b: seq<Byte>, p: seq<nat>, s: Byte, k: nat, l: nat)
    requires Bucketed(Pairs(b), p) && BigStart(Pairs(b), s) <= k < l < BigEnd(Pairs(b), s)
    requires forall t: Byte :: SmallStart(Pairs(b), s, t) <= k < SmallEnd(Pairs(b), s, t) ==> SmallSorted(b, p, s, t)
    ensures k < |p| && l < |p| && p[k] < |b| && p[l] < |b| && NotAfter(b, p[k], p[l])
  {
    var d := Pairs(b);
    BigSlot(b, p, s, k);
    BigSlot(b, p, s, l);
    var t := b[Next(|b|, p[k])];
    SlotBounds(d, d[p[l]], l, d[p[k]]);
    if d[p[k]] < d[p[l]] {
      PairDecides(b, p[k], p[l]);
    } else {
      assert SmallSorted(b, p, s, t);
      ClassIsKey(b, p, k);
      ClassIsKey(b, p, l);
    }
  }

  lemma PermutationSlices(p: seq<nat>, n: nat, lo: nat, m: nat, m': nat, hi: nat)
    requires IsPermutation(p, n) && lo <= m <= m' <= hi <= n
    ensures Injective(Slice(p, lo, m) + Slice(p, m', hi))
  {
    var u, v := Slice(p, lo, m), Slice(p, m', hi);
    forall j, k | 0 <= j < k < |u + v| ensures (u + v)[j] != (u + v)[k] {
      var j', k' := if j < |u| then lo + j else m' + j - |u|, if k < |u| then lo + k else m' + k - |u|;
      assert (u + v)[j] == p[j'] && (u + v)[k] == p[k'];
    }
  }

  lemma PartSorted(b: seq<Byte>, p: seq<nat>, s: Byte, lo: nat, hi: nat)
    requires Bucketed(Pairs(b), p) && BigStart(Pairs(b), s) <= lo <= hi <= BigEnd(Pairs(b), s) <= |p|
    requires forall t: Byte :: t != s ==> SmallSorted(b, p, s, t)
    requires hi <= SmallStart(Pairs(b), s, s) || SmallEnd(Pairs(b), s, s) <= lo
    ensures Begin(b, Slice(p, lo, hi), s) && SortedKeys(b, Slice(p, lo, hi), |b|)
  {
    hide Bucketed, BigStart, BigEnd, SmallStart, SmallEnd, Less, SmallSorted;
    var w := Slice(p, lo, hi);
    forall k | 0 <= k < |w| ensures w[k] < |b| && b[w[k]] == s {
      BigSlot(b, p, s, lo + k);
      assert w[k] == p[lo + k];
    }
    forall k, l | 0 <= k < l < |w| ensures Key(b, w[k], |b|) <= Key(b, w[l], |b|) {
      BigOrder(b, p, s, lo + k, lo + l);
      assert w[k] == p[lo + k] && w[l] == p[lo + l];
    }
  }

  /** Before the scans, the flanks are the two parts of the big bucket that are in order. */
  lemma FlanksStart(b: seq<Byte>, p: seq<nat>, s: Byte)
    requires Bucketed(Pairs(b), p) && forall t: Byte :: t != s ==> SmallSorted(b, p, s, t)
    ensures var d := Pairs(b);
      Flanks(b, Slice(p, BigStart(d, s), SmallStart(d, s, s)), Slice(p, SmallEnd(d, s, s), BigEnd(d, s)), s)
  {
    var d := Pairs(b);
    Layout(d, s, s);
    var fw, bw := Slice(p, BigStart(d, s), SmallStart(d, s, s)), Slice(p, SmallEnd(d, s, s), BigEnd(d, s));
    hide Less, SmallSorted;
    PartSorted(b, p, s, BigStart(d, s), SmallStart(d, s, s));
    PartSorted(b, p, s, SmallEnd(d, s, s), BigEnd(d, s));
    PermutationSlices(p, |b|, BigStart(d, s), SmallStart(d, s, s), SmallEnd(d, s, s), BigEnd(d, s));
    forall k | 0 <= k < |fw| ensures Key(b, fw[k], |b|) <= RunKey(s, |b|) {
      OutsideRun(b, p, s, BigStart(d, s) + k);
      assert fw[k] == p[BigStart(d, s) + k];
    }
    forall k | 0 <= k < |bw| ensures RunKey(s, |b|) <= Key(b, bw[k], |b|) {
      OutsideRun(b, p, s, SmallEnd(d, s, s) + k);
      assert bw[k] == p[SmallEnd(d, s, s) + k];
    }
  }

  lemma OutsideRun(b: seq<Byte>, p: seq<nat>, s: Byte, k: nat)
    requires Bucketed(Pairs(b), p) && BigStart(Pairs(b), s) <= k < BigEnd(Pairs(b), s)
    ensures k < |p| && p[k] < |b|
    ensures k < SmallStart(Pairs(b), s, s) ==> Key(b, p[k], |b|) <= RunKey(s, |b|)
    ensures SmallEnd(Pairs(b), s, s) <= k ==> RunKey(s, |b|) <= Key(b, p[k], |b|)
  {
    hide *;
    BigSlot(b, p, s, k);
    SlotSide(Pairs(b), Pairs(b)[p[k]], s, b[Next(|b|, p[k])], k);
    PairAgainstRun(b, p[k]);
  }

  lemma SlotSide(d: seq<nat>, e: nat, s: int, t: int, k: nat)
    requires InSlot(d, e, k) && e == 256 * s + t
    ensures k < SmallStart(d, s, s) ==> t < s
    ensures SmallEnd(d, s, s) <= k ==> s < t
  {
    SlotBounds(d, e, k, 256 * s + s);
    SlotBounds(d, e, k, 256 * s + s + 1);
  }

  lemma {:induction false} SweepStarts(b: seq<Byte>, done: seq<bool>, p: seq<nat>, s: Byte, cs: seq<int>, ce: seq<int>)
    requires |done| == |cs| == |ce| == 256 && !done[s] && Bucketed(Pairs(b), p)
    requires forall c: Byte :: cs[c] == SmallStart(Pairs(b), c, s) && ce[c] == SmallEnd(Pairs(b), c, s) - 1
    requires forall t: Byte :: t != s ==> SmallSorted(b, p, s, t)
    ensures Sweep(b, done, p, p, s, cs, ce, BigStart(Pairs(b), s), BigEnd(Pairs(b), s) - 1)
  {
    hide *;
    var d := Pairs(b);
    BucketedIs(d, p);
    PairsBelow(b);
    FlanksStart(b, p, s);
    Layout(d, s, s);
    UntouchedRefl(d, done, p, s);
    forall c: Byte | !done[c]
      ensures FillAt(b, p, s, cs[c], ce[c], c,
                     Slice(p, BigStart(d, s), BigStart(d, s)), Slice(p, BigEnd(d, s), BigEnd(d, s)))
    {
      FillStart(b, p, s, c);
      SliceEmpty(p, BigStart(d, s));
      SliceEmpty(p, BigEnd(d, s));
    }
    SweepIs(b, done, p, p, s, cs, ce, BigStart(d, s), BigEnd(d, s) - 1);
  }

  lemma BucketedIs(d: seq<nat>, p: seq<nat>)
    requires Bucketed(d, p)
    ensures |p| == |d| && Below(p, |d|) && IsPermutation(p, |d|)
  {
  }

  lemma SliceEmpty(p: seq<nat>, k: int)
    ensures Slice(p, k, k) == []
  {
  }

  lemma {:induction false} UntouchedRefl(d: seq<nat>, done: seq<bool>, p: seq<nat>, s: Byte)
    requires |done| == 256 && Below(d, 65536) && |p| == |d| && Below(p, |d|)
    ensures Untouched(d, done, p, p, s)
  {
  }

  /* ---- the scans have ended ---- */

  /** Every position with the byte s, unless it is missing from the bucket (s, s), stands in the flanks. */
  lemma {:induction false} FlankHas(b: seq<Byte>, done: seq<bool>, p0: seq<nat>, p: seq<nat>, s: Byte, lo: nat,
                                    hi: int, y: nat)
    requires Bucketed(Pairs(b), p0) && Untouched(Pairs(b), done, p0, p, s)
    requires SmallStart(Pairs(b), s, s) <= lo <= hi + 1 <= SmallEnd(Pairs(b), s, s)
    requires y < |b| && b[y] == s && b[Next(|b|, y)] != s
    ensures y in Slice(p, BigStart(Pairs(b), s), lo) + Slice(p, hi + 1, BigEnd(Pairs(b), s))
  {
    var d, S := Pairs(b), s as int;
    Layout(d, S, s);
    PairIs(b, y);
    var k := Find(p0, |b|, y);
    BucketedAt(d, p0, k);
    FlankSlotOf(d, s, d[y], k);
    assert Kept(d, done, p0, s, k) && p[k] == y;
    var u, v := Slice(p, BigStart(d, s), lo), Slice(p, hi + 1, BigEnd(d, s));
    if k < SmallStart(d, S, s) {
      assert u[k - BigStart(d, s)] == y;
    } else {
      assert v[k - hi - 1] == y;
    }
    InConcat(u, v, y);
  }

  lemma FlankSlotOf(d: seq<nat>, s: Byte, e: nat, k: nat)
    requires InSlot(d, e, k) && e / 256 == s && e % 256 != s
    ensures BigStart(d, s) <= k < SmallStart(d, s, s) || SmallEnd(d, s, s) <= k < BigEnd(d, s)
  {
    var S: int := s;
    if e < 257 * S {
      LessGrows(d, 256 * S, e);
      LessGrows(d, e + 1, 256 * S + S);
    } else {
      LessGrows(d, 256 * S + S + 1, e);
      LessGrows(d, e + 1, 256 * S + 256);
    }
  }

  /** What the ended scans have gathered in front of byte c. */
  lemma {:induction false} EndFill(b: seq<Byte>, done: seq<bool>, p0: seq<nat>, p: seq<nat>, s: Byte, cs: seq<int>,
                                   ce: seq<int>, c: Byte)
    requires |cs| == |ce| == 256 && Sweep(b, done, p0, p, s, cs, ce, cs[s], ce[s]) && !done[c]
    ensures var d := Pairs(b); var fw, bw := Slice(p, BigStart(d, s), cs[s]), Slice(p, ce[s] + 1, BigEnd(d, s));
      && Below(fw + bw, |b|) && SmallStart(d, c, s) <= cs[c] <= ce[c] + 1 <= SmallEnd(d, c, s) <= |p|
      && Gather(b, fw + bw, c) == Slice(p, SmallStart(d, c, s), cs[c]) + Slice(p, ce[c] + 1, SmallEnd(d, c, s))
      && |Gather(b, fw + bw, c)| == (SmallEnd(d, c, s) - SmallStart(d, c, s)) - (ce[c] + 1 - cs[c])
  {
    var d := Pairs(b);
    var fw, bw := Slice(p, BigStart(d, s), cs[s]), Slice(p, ce[s] + 1, BigEnd(d, s));
    hide *;
    SweepBounds(b, done, p0, p, s, cs, ce, cs[s], ce[s]);
    SweepFill(b, done, p0, p, s, cs, ce, cs[s], ce[s], c);
    FillBounds(b, p, s, cs[c], ce[c], c, fw, bw);
    FillParts(b, p, s, cs[c], ce[c], c, fw, bw);
    GatherAdd(b, fw, bw, c);
    SlicePart(p, SmallStart(d, c, s), cs[c], cs[c]);
    SlicePart(p, ce[c] + 1, SmallEnd(d, c, s), SmallEnd(d, c, s));
  }

  lemma FillParts(b: seq<Byte>, p: seq<nat>, s: Byte, lo: int, hi: int, c: int, fs: seq<nat>, bs: seq<nat>)
    requires FillAt(b, p, s, lo, hi, c, fs, bs)
    ensures Below(fs, |b|) && Below(bs, |b|)
    ensures Slice(p, SmallStart(Pairs(b), c, s), lo) == Gather(b, fs, c)
    ensures Slice(p, hi + 1, SmallEnd(Pairs(b), c, s)) == Gather(b, bs, c)
  {
    hide Slice, Gather, SmallStart, SmallEnd, Pairs;
  }

  /** If the ends have met, the flanks are the whole big bucket. */
  lemma {:induction false} EndHas(b: seq<Byte>, done: seq<bool>, p0: seq<nat>, p: seq<nat>, s: Byte, cs: seq<int>,
                                  ce: seq<int>, y: nat)
    requires |cs| == |ce| == 256 && Sweep(b, done, p0, p, s, cs, ce, cs[s], ce[s]) && cs[s] == ce[s] + 1
    requires y < |b| && b[y] == s
    ensures y in Slice(p, BigStart(Pairs(b), s), cs[s]) + Slice(p, ce[s] + 1, BigEnd(Pairs(b), s))
  {
    hide *;
    var d := Pairs(b);
    SweepBounds(b, done, p0, p, s, cs, ce, cs[s], ce[s]);
    SweepBase(b, done, p0, p, s, cs, ce, cs[s], ce[s]);
    EndFill(b, done, p0, p, s, cs, ce, s);
    if b[Next(|b|, y)] != s {
      FlankHas(b, done, p0, p, s, cs[s], ce[s], y);
    } else {
      var fw, bw := Slice(p, BigStart(d, s), cs[s]), Slice(p, ce[s] + 1, BigEnd(d, s));
      FlanksAre(b, fw, bw, s);
      Layout(d, s, s);
      GatherFits(b, fw + bw, s, s);
      HasPair(b, y, s, Gather(b, fw + bw, s));
      GatheredInFlanks(b, done, p0, p, s, cs, ce, y);
    }
  }

  lemma HasPair(b: seq<Byte>, y: nat, s: Byte, g: seq<nat>)
    requires y < |b| && b[y] == s && b[Next(|b|, y)] == s && Elements(g) == Holders(Pairs(b), 256 * (s as int) + s)
    ensures y in g
  {
    PairIs(b, y);
    assert y in Holders(Pairs(b), 256 * (s as int) + s);
  }

  lemma {:induction false} GatheredInFlanks(b: seq<Byte>, done: seq<bool>, p0: seq<nat>, p: seq<nat>, s: Byte,
                                            cs: seq<int>, ce: seq<int>, y: nat)
    requires |cs| == |ce| == 256 && Sweep(b, done, p0, p, s, cs, ce, cs[s], ce[s])
    requires var d := Pairs(b); var fw, bw := Slice(p, BigStart(d, s), cs[s]), Slice(p, ce[s] + 1, BigEnd(d, s));
      Below(fw + bw, |b|) && y in Gather(b, fw + bw, s)
    ensures y in Slice(p, BigStart(Pairs(b), s), cs[s]) + Slice(p, ce[s] + 1, BigEnd(Pairs(b), s))
  {
    hide *;
    var d := Pairs(b);
    SweepBounds(b, done, p0, p, s, cs, ce, cs[s], ce[s]);
    EndFill(b, done, p0, p, s, cs, ce, s);
    Layout(d, s, s);
    SliceJoin(p, BigStart(d, s), SmallStart(d, s, s), cs[s]);
    SliceJoin(p, ce[s] + 1, SmallEnd(d, s, s), BigEnd(d, s));
    var u, v := Slice(p, SmallStart(d, s, s), cs[s]), Slice(p, ce[s] + 1, SmallEnd(d, s, s));
    InConcat(u, v, y);
    InConcat(Slice(p, BigStart(d, s), SmallStart(d, s, s)), u, y);
    InConcat(v, Slice(p, SmallEnd(d, s, s), BigEnd(d, s)), y);
    InConcat(Slice(p, BigStart(d, s), cs[s]), Slice(p, ce[s] + 1, BigEnd(d, s)), y);
  }

  /** If the ends have met, every small bucket in front of s is exactly what has been gathered. */
  lemma {:induction false} EndBucket(b: seq<Byte>, done: seq<bool>, p0: seq<nat>, p: seq<nat>, s: Byte, cs: seq<int>,
                                     ce: seq<int>, c: Byte)
    requires |cs| == |ce| == 256 && Sweep(b, done, p0, p, s, cs, ce, cs[s], ce[s]) && cs[s] == ce[s] + 1 && !done[c]
    ensures var d := Pairs(b); var w := Slice(p, BigStart(d, s), cs[s]) + Slice(p, ce[s] + 1, BigEnd(d, s));
      && Begin(b, w, s) && Injective(w) && SortedKeys(b, w, |b|)
      && Slice(p, SmallStart(d, c, s), SmallEnd(d, c, s)) == Gather(b, w, c)
  {
    hide *;
    var d := Pairs(b);
    var fw, bw := Slice(p, BigStart(d, s), cs[s]), Slice(p, ce[s] + 1, BigEnd(d, s));
    SweepBase(b, done, p0, p, s, cs, ce, cs[s], ce[s]);
    FlanksAre(b, fw, bw, s);
    FlanksSorted(b, fw, bw, s);
    forall y: nat | y < |b| && b[y] == s ensures y in fw + bw { EndHas(b, done, p0, p, s, cs, ce, y); }
    GatherAll(b, fw + bw, c, s);
    Layout(d, c, s);
    EndFill(b, done, p0, p, s, cs, ce, c);
    SliceJoin(p, SmallStart(d, c, s), cs[c], SmallEnd(d, c, s));
  }
}
