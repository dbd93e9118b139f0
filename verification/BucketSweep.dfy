/** The two scans of a big bucket, and why together they leave every small bucket in front of it full and sorted. */
module BucketSweep {
  import opened MachineInts
  import opened Arithmetic
  import opened Permutations
  import opened Counting
  import opened Bwt
  import opened PairBuckets
  import opened BucketScan
  import opened BucketFill

  /** Slot k is not in a small bucket (c, s) that the scan of s still has to fill. */
  ghost predicate Kept(d: seq<nat>, done: seq<bool>, p0: seq<nat>, s: Byte, k: nat)
    requires |done| == 256 && Below(d, 65536) && k < |p0| && p0[k] < |d|
  {
    d[p0[k]] % 256 != s || done[d[p0[k]] / 256]
  }

  ghost predicate Untouched(d: seq<nat>, done: seq<bool>, p0: seq<nat>, p: seq<nat>, s: Byte) {
    && |done| == 256 && Below(d, 65536) && |p| == |p0| == |d| && Below(p0, |d|)
    && forall k :: 0 <= k < |d| && Kept(d, done, p0, s, k) ==> p[k] == p0[k]
  }

  /** The state of the scans: forward up to j, backward down to jb. */
  ghost predicate Sweep(b: seq<Byte>, done: seq<bool>, p0: seq<nat>, p: seq<nat>, s: Byte, cs: seq<int>, ce: seq<int>,
                        j: int, jb: int)
  {
    && |done| == |cs| == |ce| == 256 && !done[s]
    && Bucketed(Pairs(b), p0) && Untouched(Pairs(b), done, p0, p, s)
    && BigStart(Pairs(b), s) <= j <= cs[s] && ce[s] <= jb < BigEnd(Pairs(b), s)
    && Flanks(b, Slice(p, BigStart(Pairs(b), s), cs[s]), Slice(p, ce[s] + 1, BigEnd(Pairs(b), s)), s)
    && forall c: Byte :: !done[c] ==>
      FillAt(b, p, s, cs[c], ce[c], c, Slice(p, BigStart(Pairs(b), s), j), Slice(p, jb + 1, BigEnd(Pairs(b), s)))
  }

  lemma SlotBounds(d: seq<nat>, c: int, k: int, e: int)
    requires InSlot(d, c, k)
    ensures k < Less(d, e) ==> c < e
    ensures Less(d, e) <= k ==> e <= c
  {
    if e <= c { LessGrows(d, e, c); }
    if c < e { LessGrows(d, c + 1, e); }
  }

  /** A slot of the big bucket in front of its own small bucket (s, s), or behind it, stays as it was. */
  lemma {:induction false} FlankSlot(b: seq<Byte>, done: seq<bool>, p0: seq<nat>, p: seq<nat>, s: Byte, k: nat)
    requires Bucketed(Pairs(b), p0) && Untouched(Pairs(b), done, p0, p, s)
    requires BigStart(Pairs(b), s) <= k < SmallStart(Pairs(b), s, s) || SmallEnd(Pairs(b), s,
          s) <= k < BigEnd(Pairs(b), s)
    ensures k < |b| == |p| == |p0| && p[k] == p0[k] < |b|
    ensures k < SmallStart(Pairs(b), s, s) ==> Pairs(b)[p[k]] < 257 * (s as int)
    ensures SmallEnd(Pairs(b), s, s) <= k ==> Pairs(b)[p[k]] > 257 * (s as int)
  {
    var d, S := Pairs(b), s as int;
    Layout(d, S, s);
    BucketedAt(d, p0, k);
    hide Less, Bucketed, InSlot, Pairs;
    SlotBounds(d, d[p0[k]], k, 256 * S);
    SlotBounds(d, d[p0[k]], k, 256 * S + S);
    SlotBounds(d, d[p0[k]], k, 256 * S + S + 1);
    SlotBounds(d, d[p0[k]], k, 256 * S + 256);
    DivUnique(d[p0[k]], 256, S, d[p0[k]] - 256 * S);
    assert Kept(d, done, p0, s, k);
  }

  lemma UnderIs(b: seq<Byte>, p: seq<nat>, lo: nat, hi: nat, v: int)
    requires lo <= hi <= |p| && forall k :: lo <= k < hi ==> p[k] < |b| && Pairs(b)[p[k]] < v
    ensures PairsUnder(b, Slice(p, lo, hi), v)
  {
    forall k | 0 <= k < hi - lo ensures Slice(p, lo, hi)[k] == p[lo + k] {}
  }

  lemma OverIs(b: seq<Byte>, p: seq<nat>, lo: nat, hi: nat, v: int)
    requires lo <= hi <= |p| && forall k :: lo <= k < hi ==> p[k] < |b| && Pairs(b)[p[k]] > v
    ensures PairsOver(b, Slice(p, lo, hi), v)
  {
    forall k | 0 <= k < hi - lo ensures Slice(p, lo, hi)[k] == p[lo + k] {}
  }

  /** The parts of the big bucket outside its own small bucket have smaller and larger pairs. */
  lemma {:induction false} FlankEnds(b: seq<Byte>, done: seq<bool>, p0: seq<nat>, p: seq<nat>, s: Byte)
    requires Bucketed(Pairs(b), p0) && Untouched(Pairs(b), done, p0, p, s) && |p| == |b|
    ensures PairsUnder(b, Slice(p, BigStart(Pairs(b), s), SmallStart(Pairs(b), s, s)), 257 * (s as int))
    ensures PairsOver(b, Slice(p, SmallEnd(Pairs(b), s, s), BigEnd(Pairs(b), s)), 257 * (s as int))
  {
    hide *;
    var d := Pairs(b);
    Layout(d, s, s);
    PairsBelow(b);
    forall k: nat | BigStart(d, s) <= k < SmallStart(d, s, s)
      ensures k < |p| && p[k] < |b| && d[p[k]] < 257 * (s as int)
    {
      FlankSlot(b, done, p0, p, s, k);
    }
    UnderIs(b, p, BigStart(d, s), SmallStart(d, s, s), 257 * (s as int));
    forall k: nat | SmallEnd(d, s, s) <= k < BigEnd(d, s) ensures k < |p| && p[k] < |b| && d[p[k]] > 257 * (s as int) {
      FlankSlot(b, done, p0, p, s, k);
    }
    OverIs(b, p, SmallEnd(d, s, s), BigEnd(d, s), 257 * (s as int));
  }

  lemma SliceJoin(p: seq<nat>, lo: nat, m: nat, hi: nat)
    requires lo <= m <= hi <= |p|
    ensures Slice(p, lo, hi) == Slice(p, lo, m) + Slice(p, m, hi)
  {
  }

  lemma SlicePart(p: seq<nat>, lo: nat, m: nat, hi: nat)
    requires lo <= m <= hi <= |p|
    ensures Slice(p, lo, m) == Slice(p, lo, hi)[..m - lo] && Slice(p, m, hi) == Slice(p, lo, hi)[m - lo..]
    ensures |Slice(p, lo, hi)| == hi - lo
  {
  }

  lemma {:induction false} SweepIs(b: seq<Byte>, done: seq<bool>, p0: seq<nat>, p: seq<nat>, s: Byte, cs: seq<int>,
                                   ce: seq<int>, j: int, jb: int)
    requires |done| == |cs| == |ce| == 256 && !done[s]
    requires Bucketed(Pairs(b), p0) && Untouched(Pairs(b), done, p0, p, s)
    requires BigStart(Pairs(b), s) <= j <= cs[s] && ce[s] <= jb < BigEnd(Pairs(b), s)
    requires Flanks(b, Slice(p, BigStart(Pairs(b), s), cs[s]), Slice(p, ce[s] + 1, BigEnd(Pairs(b), s)), s)
    requires forall c: Byte :: !done[c] ==>
      FillAt(b, p, s, cs[c], ce[c], c, Slice(p, BigStart(Pairs(b), s), j), Slice(p, jb + 1, BigEnd(Pairs(b), s)))
    ensures Sweep(b, done, p0, p, s, cs, ce, j, jb)
  {
    hide Bucketed, Untouched, Flanks, FillAt, Slice, BigStart, BigEnd;
  }

  lemma {:induction false} SweepBase(b: seq<Byte>, done: seq<bool>, p0: seq<nat>, p: seq<nat>, s: Byte, cs: seq<int>,
                                     ce: seq<int>, j: int, jb: int)
    requires Sweep(b, done, p0, p, s, cs, ce, j, jb)
    ensures Bucketed(Pairs(b), p0) && Untouched(Pairs(b), done, p0, p, s)
    ensures |done| == |cs| == |ce| == 256
    ensures Flanks(b, Slice(p, BigStart(Pairs(b), s), cs[s]), Slice(p, ce[s] + 1, BigEnd(Pairs(b), s)), s)
  {
    hide Bucketed, Untouched, Flanks, FillAt, Slice, BigStart, BigEnd;
  }

  lemma {:induction false} SweepBounds(b: seq<Byte>, done: seq<bool>, p0: seq<nat>, p: seq<nat>, s: Byte, cs: seq<int>,
                                       ce: seq<int>, j: int, jb: int)
    requires Sweep(b, done, p0, p, s, cs, ce, j, jb)
    ensures |done| == |cs| == |ce| == 256 && |p| == |b| == |p0| && !done[s]
    ensures 0 <= BigStart(Pairs(b), s) <= j <= cs[s] <= ce[s] + 1 <= jb + 1 <= BigEnd(Pairs(b), s) <= |b|
  {
    FillBounds(b, p, s, cs[s], ce[s], s, Slice(p, BigStart(Pairs(b), s), j), Slice(p, jb + 1, BigEnd(Pairs(b), s)));
    Layout(Pairs(b), s, s);
  }

  lemma {:induction false} SweepFill(b: seq<Byte>, done: seq<bool>, p0: seq<nat>, p: seq<nat>, s: Byte, cs: seq<int>,
                                     ce: seq<int>, j: int, jb: int, c: Byte)
    requires Sweep(b, done, p0, p, s, cs, ce, j, jb) && !done[c]
    ensures FillAt(b, p, s, cs[c], ce[c], c, Slice(p, BigStart(Pairs(b), s), j), Slice(p, jb + 1, BigEnd(Pairs(b), s)))
  {
  }

  /** The next position of the forward scan: where it points, and what it leaves to be gathered. */
  lemma {:induction false} ForwardReads(b: seq<Byte>, done: seq<bool>, p0: seq<nat>, p: seq<nat>, s: Byte,
                                        cs: seq<int>, ce: seq<int>, j: int, jb: int)
    requires Sweep(b, done, p0, p, s, cs, ce, j, jb) && j < cs[s]
    ensures 0 <= j < |p| && p[j] < |b| && b[p[j]] == s
    ensures var d := Pairs(b); var fs, bs := Slice(p, BigStart(d, s), j), Slice(p, jb + 1, BigEnd(d, s));
      Flanks(b, fs + [p[j]], bs, s) && Slice(p, BigStart(d, s), j + 1) == fs + [p[j]]
  {
    var d := Pairs(b);
    hide FillAt, Untouched, Flanks, Bucketed;
    SweepBounds(b, done, p0, p, s, cs, ce, j, jb);
    var fw, bw := Slice(p, BigStart(d, s), cs[s]), Slice(p, ce[s] + 1, BigEnd(d, s));
    SlicePart(p, BigStart(d, s), j + 1, cs[s]);
    SlicePart(p, ce[s] + 1, jb + 1, BigEnd(d, s));
    FlanksParts(b, fw, bw, s, j + 1 - BigStart(d, s), jb - ce[s]);
    SliceMore(p, BigStart(d, s), j);
    FlanksAre(b, Slice(p, BigStart(d, s), j + 1), Slice(p, jb + 1, BigEnd(d, s)), s);
    assert Slice(p, BigStart(d, s), j + 1)[j - BigStart(d, s)] == p[j];
  }

  lemma {:induction false} BackwardReads(b: seq<Byte>, done: seq<bool>, p0: seq<nat>, p: seq<nat>, s: Byte,
                                         cs: seq<int>, ce: seq<int>, j: int, jb: int)
    requires Sweep(b, done, p0, p, s, cs, ce, j, jb) && ce[s] < jb
    ensures 0 <= jb < |p| && p[jb] < |b| && b[p[jb]] == s
    ensures var d := Pairs(b); var fs, bs := Slice(p, BigStart(d, s), j), Slice(p, jb + 1, BigEnd(d, s));
      Flanks(b, fs, [p[jb]] + bs, s) && Slice(p, jb, BigEnd(d, s)) == [p[jb]] + bs
  {
    var d := Pairs(b);
    hide FillAt, Untouched, Flanks, Bucketed;
    SweepBounds(b, done, p0, p, s, cs, ce, j, jb);
    var fw, bw := Slice(p, BigStart(d, s), cs[s]), Slice(p, ce[s] + 1, BigEnd(d, s));
    SlicePart(p, BigStart(d, s), j, cs[s]);
    SlicePart(p, ce[s] + 1, jb, BigEnd(d, s));
    FlanksParts(b, fw, bw, s, j - BigStart(d, s), jb - ce[s] - 1);
    SliceLess(p, jb, BigEnd(d, s));
    FlanksAre(b, Slice(p, BigStart(d, s), j), Slice(p, jb, BigEnd(d, s)), s);
    assert Slice(p, jb, BigEnd(d, s))[0] == p[jb];
  }

  /** Slot k is in the small bucket (c, s): it lies outside every other one, and outside the big bucket s unless c is
      s. */
  lemma SlotApart(d: seq<nat>, c: Byte, s: Byte, k: nat, c': Byte)
    requires SmallStart(d, c, s) <= k < SmallEnd(d, c, s) && c' != c
    ensures k < BigStart(d, c') || BigEnd(d, c') <= k
    ensures k < SmallStart(d, c', s) || SmallEnd(d, c', s) <= k
  {
    Layout(d, c, s);
    Layout(d, c', s);
    if c < c' { BigApart(d, c, c'); } else { BigApart(d, c', c); }
  }

  lemma {:induction false} WriteUntouched(d: seq<nat>, done: seq<bool>, p0: seq<nat>, p: seq<nat>, s: Byte, c: Byte,
                                          k: nat, v: nat)
    requires Bucketed(d, p0) && Untouched(d, done, p0, p, s) && !done[c]
    requires k < |d| && SmallStart(d, c, s) <= k < SmallEnd(d, c, s)
    ensures Untouched(d, done, p0, p[k := v], s)
  {
    BucketedAt(d, p0, k);
    SlotUnique(d, d[p0[k]], 256 * (c as int) + s, k);
    DivUnique(d[p0[k]], 256, c, s);
  }

  /** Writing x in front of the forward scan keeps the flanks. */
  lemma {:induction false} ForwardFlanks(b: seq<Byte>, done: seq<bool>, p0: seq<nat>, p: seq<nat>, s: Byte,
                                         cs: seq<int>, ce: seq<int>, j: int, jb: int, c: Byte)
    requires Sweep(b, done, p0, p, s, cs, ce, j, jb) && j < cs[s] && 0 <= j < |p| && p[j] < |b|
    requires c == b[Prev(|b|, p[j])] && !done[c] && 0 <= cs[c] < |p| && cs[c] <= ce[c]
    ensures var d := Pairs(b); var p', cs' := p[cs[c] := Prev(|b|, p[j])], cs[c := cs[c] + 1];
      && Flanks(b, Slice(p', BigStart(d, s), cs'[s]), Slice(p', ce[s] + 1, BigEnd(d, s)), s)
      && Slice(p', BigStart(d, s), j + 1) == Slice(p, BigStart(d, s), j + 1)
      && Slice(p', jb + 1, BigEnd(d, s)) == Slice(p, jb + 1, BigEnd(d, s))
  {
    hide *;
    SweepBounds(b, done, p0, p, s, cs, ce, j, jb);
    SweepBase(b, done, p0, p, s, cs, ce, j, jb);
    var d, y := Pairs(b), p[j];
    var x, k := Prev(|b|, y), cs[c];
    var fs, bs := Slice(p, BigStart(d, s), j), Slice(p, jb + 1, BigEnd(d, s));
    SweepFill(b, done, p0, p, s, cs, ce, j, jb, c);
    FillBounds(b, p, s, cs[c], ce[c], c, fs, bs);
    if c != s {
      SlotApart(d, c, s, k, s);
      SliceSame(p, k, x, BigStart(d, s), cs[s]);
      SliceSame(p, k, x, ce[s] + 1, BigEnd(d, s));
      SliceSame(p, k, x, BigStart(d, s), j + 1);
      SliceSame(p, k, x, jb + 1, BigEnd(d, s));
    } else {
      SliceSame(p, k, x, ce[s] + 1, BigEnd(d, s));
      SliceSame(p, k, x, BigStart(d, s), j + 1);
      SliceSame(p, k, x, jb + 1, BigEnd(d, s));
      SlicePush(p, k, x, BigStart(d, s));
      ForwardReads(b, done, p0, p, s, cs, ce, j, jb);
        FlankEnds(b, done, p0, p, s);
      SweepWindows(b, done, p0, p, s, cs, ce, j, jb);
      FlanksGrowForward(b, Slice(p, BigStart(d, s), SmallStart(d, s, s)), Slice(p, SmallEnd(d, s, s), BigEnd(d, s)),
                        fs, bs, y, s);
    }
  }

  /** The flanks are made of what was there before and of what has been gathered. */
  lemma {:induction false} SweepWindows(b: seq<Byte>, done: seq<bool>, p0: seq<nat>, p: seq<nat>, s: Byte,
                                        cs: seq<int>, ce: seq<int>, j: int, jb: int)
    requires Sweep(b, done, p0, p, s, cs, ce, j, jb)
    ensures var d := Pairs(b); var fs, bs := Slice(p, BigStart(d, s), j), Slice(p, jb + 1, BigEnd(d, s));
      && Below(fs, |b|) && Below(bs, |b|)
      && Slice(p, BigStart(d, s), cs[s]) == Slice(p, BigStart(d, s), SmallStart(d, s, s)) + Gather(b, fs, s)
      && Slice(p, ce[s] + 1, BigEnd(d, s)) == Gather(b, bs, s) + Slice(p, SmallEnd(d, s, s), BigEnd(d, s))
  {
    hide *;
    SweepBounds(b, done, p0, p, s, cs, ce, j, jb);
    var d := Pairs(b);
    var fs, bs := Slice(p, BigStart(d, s), j), Slice(p, jb + 1, BigEnd(d, s));
    SweepFill(b, done, p0, p, s, cs, ce, j, jb, s);
    FillBounds(b, p, s, cs[s], ce[s], s, fs, bs);
    SliceJoin(p, BigStart(d, s), SmallStart(d, s, s), cs[s]);
    SliceJoin(p, ce[s] + 1, SmallEnd(d, s, s), BigEnd(d, s));
  }

  lemma {:induction false} ForwardRoom(b: seq<Byte>, done: seq<bool>, p0: seq<nat>, p: seq<nat>, s: Byte, cs: seq<int>,
                                       ce: seq<int>, j: int, jb: int, c: Byte)
    requires Sweep(b, done, p0, p, s, cs, ce, j, jb) && j < cs[s] && 0 <= j < |p| && p[j] < |b|
    requires c == b[Prev(|b|, p[j])] && !done[c]
    ensures 0 <= cs[c] < |p| && cs[c] <= ce[c]
    ensures SmallStart(Pairs(b), c, s) <= cs[c] < SmallEnd(Pairs(b), c, s)
  {
    hide *;
    SweepBounds(b, done, p0, p, s, cs, ce, j, jb);
    var d, y := Pairs(b), p[j];
    var fs, bs := Slice(p, BigStart(d, s), j), Slice(p, jb + 1, BigEnd(d, s));
    SweepFill(b, done, p0, p, s, cs, ce, j, jb, c);
    FillBounds(b, p, s, cs[c], ce[c], c, fs, bs);
    ForwardReads(b, done, p0, p, s, cs, ce, j, jb);
    FlanksAre(b, fs + [y], bs, s);
    FillRoom(b, p, s, cs[c], ce[c], c, fs, bs, y);
  }

  lemma {:induction false} ForwardStep(b: seq<Byte>, done: seq<bool>, p0: seq<nat>, p: seq<nat>, s: Byte, cs: seq<int>,
                                       ce: seq<int>, j: int, jb: int, c: Byte)
    requires Sweep(b, done, p0, p, s, cs, ce, j, jb) && j < cs[s] && 0 <= j < |p| && p[j] < |b|
    requires c == b[Prev(|b|, p[j])] && !done[c] && 0 <= cs[c] < |p| && cs[c] <= ce[c]
    requires SmallStart(Pairs(b), c, s) <= cs[c] < SmallEnd(Pairs(b), c, s)
    ensures Sweep(b, done, p0, p[cs[c] := Prev(|b|, p[j])], s, cs[c := cs[c] + 1], ce, j + 1, jb)
  {
    hide *;
    SweepBounds(b, done, p0, p, s, cs, ce, j, jb);
    SweepBase(b, done, p0, p, s, cs, ce, j, jb);
    var d, y := Pairs(b), p[j];
    var x, k := Prev(|b|, y), cs[c];
    var p', cs' := p[k := x], cs[c := k + 1];
    var fs, bs := Slice(p, BigStart(d, s), j), Slice(p, jb + 1, BigEnd(d, s));
    WriteUntouched(d, done, p0, p, s, c, k, x);
    ForwardReads(b, done, p0, p, s, cs, ce, j, jb);
    ForwardFlanks(b, done, p0, p, s, cs, ce, j, jb, c);
    forall e: Byte | !done[e] ensures FillAt(b, p', s, cs'[e], ce[e], e, fs + [y], bs) {
      SweepFill(b, done, p0, p, s, cs, ce, j, jb, e);
      if e == c {
        FillForward(b, p, s, cs[c], ce[c], c, fs, bs, y);
      } else {
        SlotApart(d, c, s, k, e);
        FillSkipForward(b, p, s, cs[e], ce[e], e, fs, bs, y);
        FillElsewhere(b, p, s, cs[e], ce[e], e, fs + [y], bs, k, x);
      }
    }
    SweepIs(b, done, p0, p', s, cs', ce, j + 1, jb);
  }

  lemma {:induction false} ForwardSkip(b: seq<Byte>, done: seq<bool>, p0: seq<nat>, p: seq<nat>, s: Byte, cs: seq<int>,
                                       ce: seq<int>, j: int, jb: int)
    requires Sweep(b, done, p0, p, s, cs, ce, j, jb) && j < cs[s] && 0 <= j < |p| && p[j] < |b|
    requires done[b[Prev(|b|, p[j])]]
    ensures Sweep(b, done, p0, p, s, cs, ce, j + 1, jb)
  {
    hide *;
    SweepBounds(b, done, p0, p, s, cs, ce, j, jb);
    SweepBase(b, done, p0, p, s, cs, ce, j, jb);
    var d, y := Pairs(b), p[j];
    var fs, bs := Slice(p, BigStart(d, s), j), Slice(p, jb + 1, BigEnd(d, s));
    ForwardReads(b, done, p0, p, s, cs, ce, j, jb);
    forall e: Byte | !done[e] ensures FillAt(b, p, s, cs[e], ce[e], e, fs + [y], bs) {
      SweepFill(b, done, p0, p, s, cs, ce, j, jb, e);
      FillSkipForward(b, p, s, cs[e], ce[e], e, fs, bs, y);
    }
    SweepIs(b, done, p0, p, s, cs, ce, j + 1, jb);
  }

  lemma {:induction false} BackwardFlanks(b: seq<Byte>, done: seq<bool>, p0: seq<nat>, p: seq<nat>, s: Byte,
                                          cs: seq<int>, ce: seq<int>, j: int, jb: int, c: Byte)
    requires Sweep(b, done, p0, p, s, cs, ce, j, jb) && ce[s] < jb && 0 <= jb < |p| && p[jb] < |b|
    requires c == b[Prev(|b|, p[jb])] && !done[c] && 0 <= ce[c] < |p| && cs[c] <= ce[c]
    ensures var d := Pairs(b); var p', ce' := p[ce[c] := Prev(|b|, p[jb])], ce[c := ce[c] - 1];
      && Flanks(b, Slice(p', BigStart(d, s), cs[s]), Slice(p', ce'[s] + 1, BigEnd(d, s)), s)
      && Slice(p', BigStart(d, s), j) == Slice(p, BigStart(d, s), j)
      && Slice(p', jb, BigEnd(d, s)) == Slice(p, jb, BigEnd(d, s))
  {
    hide *;
    SweepBounds(b, done, p0, p, s, cs, ce, j, jb);
    SweepBase(b, done, p0, p, s, cs, ce, j, jb);
    var d, y := Pairs(b), p[jb];
    var x, k := Prev(|b|, y), ce[c];
    var fs, bs := Slice(p, BigStart(d, s), j), Slice(p, jb + 1, BigEnd(d, s));
    SweepFill(b, done, p0, p, s, cs, ce, j, jb, c);
    FillBounds(b, p, s, cs[c], ce[c], c, fs, bs);
    if c != s {
      SlotApart(d, c, s, k, s);
      SliceSame(p, k, x, BigStart(d, s), cs[s]);
      SliceSame(p, k, x, ce[s] + 1, BigEnd(d, s));
      SliceSame(p, k, x, BigStart(d, s), j);
      SliceSame(p, k, x, jb, BigEnd(d, s));
    } else {
      SliceSame(p, k, x, BigStart(d, s), cs[s]);
      SliceSame(p, k, x, BigStart(d, s), j);
      SliceSame(p, k, x, jb, BigEnd(d, s));
      SliceFront(p, k, x, BigEnd(d, s));
      BackwardReads(b, done, p0, p, s, cs, ce, j, jb);
        FlankEnds(b, done, p0, p, s);
      SweepWindows(b, done, p0, p, s, cs, ce, j, jb);
      FlanksGrowBackward(b, Slice(p, BigStart(d, s), SmallStart(d, s, s)), Slice(p, SmallEnd(d, s, s), BigEnd(d, s)),
                         fs, bs, y, s);
    }
  }

  lemma {:induction false} BackwardRoom(b: seq<Byte>, done: seq<bool>, p0: seq<nat>, p: seq<nat>, s: Byte,
                                        cs: seq<int>, ce: seq<int>, j: int, jb: int, c: Byte)
    requires Sweep(b, done, p0, p, s, cs, ce, j, jb) && ce[s] < jb && 0 <= jb < |p| && p[jb] < |b|
    requires c == b[Prev(|b|, p[jb])] && !done[c]
    ensures 0 <= ce[c] < |p| && cs[c] <= ce[c]
    ensures SmallStart(Pairs(b), c, s) <= ce[c] < SmallEnd(Pairs(b), c, s)
  {
    hide *;
    SweepBounds(b, done, p0, p, s, cs, ce, j, jb);
    var d, y := Pairs(b), p[jb];
    var fs, bs := Slice(p, BigStart(d, s), j), Slice(p, jb + 1, BigEnd(d, s));
    SweepFill(b, done, p0, p, s, cs, ce, j, jb, c);
    FillBounds(b, p, s, cs[c], ce[c], c, fs, bs);
    BackwardReads(b, done, p0, p, s, cs, ce, j, jb);
    FlanksAre(b, fs, [y] + bs, s);
    assert fs + ([y] + bs) == fs + [y] + bs;
    FillRoom(b, p, s, cs[c], ce[c], c, fs, bs, y);
  }

  lemma {:induction false} BackwardStep(b: seq<Byte>, done: seq<bool>, p0: seq<nat>, p: seq<nat>, s: Byte,
                                        cs: seq<int>, ce: seq<int>, j: int, jb: int, c: Byte)
    requires Sweep(b, done, p0, p, s, cs, ce, j, jb) && ce[s] < jb && 0 <= jb < |p| && p[jb] < |b|
    requires c == b[Prev(|b|, p[jb])] && !done[c] && 0 <= ce[c] < |p| && cs[c] <= ce[c]
    requires SmallStart(Pairs(b), c, s) <= ce[c] < SmallEnd(Pairs(b), c, s)
    ensures Sweep(b, done, p0, p[ce[c] := Prev(|b|, p[jb])], s, cs, ce[c := ce[c] - 1], j, jb - 1)
  {
    hide *;
    SweepBounds(b, done, p0, p, s, cs, ce, j, jb);
    SweepBase(b, done, p0, p, s, cs, ce, j, jb);
    var d, y := Pairs(b), p[jb];
    var x, k := Prev(|b|, y), ce[c];
    var p', ce' := p[k := x], ce[c := k - 1];
    var fs, bs := Slice(p, BigStart(d, s), j), Slice(p, jb + 1, BigEnd(d, s));
    WriteUntouched(d, done, p0, p, s, c, k, x);
    BackwardReads(b, done, p0, p, s, cs, ce, j, jb);
    BackwardFlanks(b, done, p0, p, s, cs, ce, j, jb, c);
    forall e: Byte | !done[e] ensures FillAt(b, p', s, cs[e], ce'[e], e, fs, [y] + bs) {
      SweepFill(b, done, p0, p, s, cs, ce, j, jb, e);
      if e == c {
        FillBackward(b, p, s, cs[c], ce[c], c, fs, bs, y);
      } else {
        SlotApart(d, c, s, k, e);
        FillSkipBackward(b, p, s, cs[e], ce[e], e, fs, bs, y);
        FillElsewhere(b, p, s, cs[e], ce[e], e, fs, [y] + bs, k, x);
      }
    }
    SweepIs(b, done, p0, p', s, cs, ce', j, jb - 1);
  }

  lemma {:induction false} BackwardSkip(b: seq<Byte>, done: seq<bool>, p0: seq<nat>, p: seq<nat>, s: Byte,
                                        cs: seq<int>, ce: seq<int>, j: int, jb: int)
    requires Sweep(b, done, p0, p, s, cs, ce, j, jb) && ce[s] < jb && 0 <= jb < |p| && p[jb] < |b|
    requires done[b[Prev(|b|, p[jb])]]
    ensures Sweep(b, done, p0, p, s, cs, ce, j, jb - 1)
  {
    hide *;
    SweepBounds(b, done, p0, p, s, cs, ce, j, jb);
    SweepBase(b, done, p0, p, s, cs, ce, j, jb);
    var d, y := Pairs(b), p[jb];
    var fs, bs := Slice(p, BigStart(d, s), j), Slice(p, jb + 1, BigEnd(d, s));
    BackwardReads(b, done, p0, p, s, cs, ce, j, jb);
    forall e: Byte | !done[e] ensures FillAt(b, p, s, cs[e], ce[e], e, fs, [y] + bs) {
      SweepFill(b, done, p0, p, s, cs, ce, j, jb, e);
      FillSkipBackward(b, p, s, cs[e], ce[e], e, fs, bs, y);
    }
    SweepIs(b, done, p0, p, s, cs, ce, j, jb - 1);
  }
}
