/** Step 2 of the main sort: scanning a sorted big bucket from both ends fills the small buckets in front of it. */
module BucketFill {
  import opened MachineInts
  import opened Permutations
  import opened Rotations
  import opened Counting
  import opened Bwt
  import opened MainCompare
  import opened PairBuckets
  import opened BucketScan
  import opened SameRun

  /* ---- where the buckets lie ---- */

  ghost function SmallStart(d: seq<nat>, c: int, s: int): nat {
    Less(d, 256 * c + s)
  }

  ghost function SmallEnd(d: seq<nat>, c: int, s: int): nat {
    Less(d, 256 * c + s + 1)
  }

  ghost function BigStart(d: seq<nat>, s: int): nat {
    Less(d, 256 * s)
  }

  ghost function BigEnd(d: seq<nat>, s: int): nat {
    Less(d, 256 * s + 256)
  }

  lemma Layout(d: seq<nat>, c: int, s: Byte)
    ensures BigStart(d, c) <= SmallStart(d, c, s) <= SmallEnd(d, c, s) <= BigEnd(d, c) <= |d|
    ensures SmallEnd(d, c, s) == SmallStart(d, c, s) + Count(d, 256 * c + s)
  {
    LessGrows(d, 256 * c, 256 * c + s);
    LessNext(d, 256 * c + s);
    LessGrows(d, 256 * c + s + 1, 256 * c + 256);
  }

  lemma BigApart(d: seq<nat>, c: int, c': int)
    requires c < c'
    ensures BigEnd(d, c) <= BigStart(d, c')
  {
    LessGrows(d, 256 * c + 256, 256 * c');
  }

  /* ---- slices under one write ---- */

  ghost function Slice(p: seq<nat>, lo: int, hi: int): seq<nat> {
    if 0 <= lo <= hi <= |p| then p[lo..hi] else []
  }

  lemma SliceSame(p: seq<nat>, k: nat, v: nat, lo: int, hi: int)
    requires k < |p| && (k < lo || hi <= k)
    ensures Slice(p[k := v], lo, hi) == Slice(p, lo, hi)
  {
  }

  lemma SlicePush(p: seq<nat>, k: nat, v: nat, lo: nat)
    requires lo <= k < |p|
    ensures Slice(p[k := v], lo, k + 1) == Slice(p, lo, k) + [v]
  {
  }

  lemma SliceFront(p: seq<nat>, k: nat, v: nat, hi: nat)
    requires k < hi <= |p|
    ensures Slice(p[k := v], k, hi) == [v] + Slice(p, k + 1, hi)
  {
  }

  lemma SliceMore(p: seq<nat>, lo: nat, k: nat)
    requires lo <= k < |p|
    ensures Slice(p, lo, k + 1) == Slice(p, lo, k) + [p[k]]
  {
  }

  lemma SliceLess(p: seq<nat>, k: nat, hi: nat)
    requires k < hi <= |p|
    ensures Slice(p, k, hi) == [p[k]] + Slice(p, k + 1, hi)
  {
  }

  /* ---- one small bucket while it is being filled from both ends ---- */

  /** Bucket (c, s) holds from its two ends what stands before the scanned positions fs and bs. */
  ghost predicate FillAt(b: seq<Byte>, p: seq<nat>, s: Byte, lo: int, hi: int, c: int, fs: seq<nat>, bs: seq<nat>) {
    && Below(fs, |b|) && Below(bs, |b|)
    && SmallStart(Pairs(b), c, s) <= lo <= hi + 1 <= SmallEnd(Pairs(b), c, s)
    && Slice(p, SmallStart(Pairs(b), c, s), lo) == Gather(b, fs, c)
    && Slice(p, hi + 1, SmallEnd(Pairs(b), c, s)) == Gather(b, bs, c)
  }

  lemma FillStart(b: seq<Byte>, p: seq<nat>, s: Byte, c: int)
    requires |p| == |b|
    ensures FillAt(b, p, s, SmallStart(Pairs(b), c, s), SmallEnd(Pairs(b), c, s) - 1, c, [], [])
  {
    Layout(Pairs(b), c, s);
  }

  lemma FillBounds(b: seq<Byte>, p: seq<nat>, s: Byte, lo: int, hi: int, c: int, fs: seq<nat>, bs: seq<nat>)
    requires FillAt(b, p, s, lo, hi, c, fs, bs)
    ensures SmallStart(Pairs(b), c, s) <= lo <= hi + 1 <= SmallEnd(Pairs(b), c, s) <= |b|
    ensures BigStart(Pairs(b), c) <= SmallStart(Pairs(b), c, s) && SmallEnd(Pairs(b), c, s) <= BigEnd(Pairs(b), c)
  {
    Layout(Pairs(b), c, s);
  }

  /** There is room for one more position while the scanned ones are distinct. */
  lemma FillRoom(b: seq<Byte>, p: seq<nat>, s: Byte, lo: int, hi: int, c: int, fs: seq<nat>, bs: seq<nat>, y: nat)
    requires FillAt(b, p, s, lo, hi, c, fs, bs) && |p| == |b|
    requires Begin(b, fs + [y] + bs, s) && Injective(fs + [y] + bs) && y < |b| && b[Prev(|b|, y)] == c
    ensures lo <= hi
  {
    var d := Pairs(b);
    Layout(d, c, s);
    GatherFits(b, fs + [y] + bs, c, s);
    GatherPush(b, fs, y, c);
    GatherAdd(b, fs + [y], bs, c);
    assert |Slice(p, SmallStart(d, c, s), lo)| == lo - SmallStart(d, c, s);
    assert |Slice(p, hi + 1, SmallEnd(d, c, s))| == SmallEnd(d, c, s) - hi - 1;
  }

  /** A write elsewhere, for a position not in front of byte c, changes nothing here. */
  lemma FillElsewhere(b: seq<Byte>, p: seq<nat>, s: Byte, lo: int, hi: int, c: int, fs: seq<nat>, bs: seq<nat>, k: nat,
                      v: nat)
    requires FillAt(b, p, s, lo, hi, c, fs, bs) && k < |p|
    requires k < SmallStart(Pairs(b), c, s) || SmallEnd(Pairs(b), c, s) <= k
    ensures FillAt(b, p[k := v], s, lo, hi, c, fs, bs)
  {
    SliceSame(p, k, v, SmallStart(Pairs(b), c, s), lo);
    SliceSame(p, k, v, hi + 1, SmallEnd(Pairs(b), c, s));
  }

  lemma FillSkipForward(b: seq<Byte>, p: seq<nat>, s: Byte, lo: int, hi: int, c: int, fs: seq<nat>, bs: seq<nat>,
                        y: nat)
    requires FillAt(b, p, s, lo, hi, c, fs, bs) && y < |b| && b[Prev(|b|, y)] != c
    ensures FillAt(b, p, s, lo, hi, c, fs + [y], bs)
  {
    GatherPush(b, fs, y, c);
  }

  lemma FillSkipBackward(b: seq<Byte>, p: seq<nat>, s: Byte, lo: int, hi: int, c: int, fs: seq<nat>, bs: seq<nat>,
                         y: nat)
    requires FillAt(b, p, s, lo, hi, c, fs, bs) && y < |b| && b[Prev(|b|, y)] != c
    ensures FillAt(b, p, s, lo, hi, c, fs, [y] + bs)
  {
    GatherFront(b, y, bs, c);
  }

  lemma FillForward(b: seq<Byte>, p: seq<nat>, s: Byte, lo: int, hi: int, c: int, fs: seq<nat>, bs: seq<nat>, y: nat)
    requires FillAt(b, p, s, lo, hi, c, fs, bs) && |p| == |b| && lo <= hi && y < |b| && b[Prev(|b|, y)] == c
    ensures 0 <= lo < |p| && FillAt(b, p[lo := Prev(|b|, y)], s, lo + 1, hi, c, fs + [y], bs)
  {
    Layout(Pairs(b), c, s);
    GatherPush(b, fs, y, c);
    SlicePush(p, lo, Prev(|b|, y), SmallStart(Pairs(b), c, s));
    SliceSame(p, lo, Prev(|b|, y), hi + 1, SmallEnd(Pairs(b), c, s));
  }

  lemma FillBackward(b: seq<Byte>, p: seq<nat>, s: Byte, lo: int, hi: int, c: int, fs: seq<nat>, bs: seq<nat>, y: nat)
    requires FillAt(b, p, s, lo, hi, c, fs, bs) && |p| == |b| && lo <= hi && y < |b| && b[Prev(|b|, y)] == c
    ensures 0 <= hi < |p| && FillAt(b, p[hi := Prev(|b|, y)], s, lo, hi - 1, c, fs, [y] + bs)
  {
    Layout(Pairs(b), c, s);
    GatherFront(b, y, bs, c);
    SliceFront(p, hi, Prev(|b|, y), SmallEnd(Pairs(b), c, s));
    SliceSame(p, hi, Prev(|b|, y), SmallStart(Pairs(b), c, s), lo);
  }

  /* ---- the part of the big bucket that is in order already ---- */

  ghost predicate NotAboveRun(b: seq<Byte>, w: seq<nat>, s: Byte)
    requires Below(w, |b|)
  {
    forall k :: 0 <= k < |w| ==> Key(b, w[k], |b|) <= RunKey(s, |b|)
  }

  ghost predicate NotBelowRun(b: seq<Byte>, w: seq<nat>, s: Byte)
    requires Below(w, |b|)
  {
    forall k :: 0 <= k < |w| ==> RunKey(s, |b|) <= Key(b, w[k], |b|)
  }

  /** fw and bw are sorted lists of rotations that begin with s, on either side of the run of s, with no repetition. */
  ghost predicate Flanks(b: seq<Byte>, fw: seq<nat>, bw: seq<nat>, s: Byte) {
    && Begin(b, fw, s) && Begin(b, bw, s) && Injective(fw + bw)
    && SortedKeys(b, fw, |b|) && SortedKeys(b, bw, |b|)
    && NotAboveRun(b, fw, s) && NotBelowRun(b, bw, s)
  }

  lemma FlanksSorted(b: seq<Byte>, fw: seq<nat>, bw: seq<nat>, s: Byte)
    requires Flanks(b, fw, bw, s)
    ensures Begin(b, fw + bw, s) && SortedKeys(b, fw + bw, |b|)
  {
    var w := fw + bw;
    forall k, l | 0 <= k < l < |w| ensures Key(b, w[k], |b|) <= Key(b, w[l], |b|) {
      if l < |fw| {
        assert w[k] == fw[k] && w[l] == fw[l];
      } else if k < |fw| {
        assert w[k] == fw[k] && w[l] == bw[l - |fw|];
      } else {
        assert w[k] == bw[k - |fw|] && w[l] == bw[l - |fw|];
      }
    }
  }

  lemma FlanksParts(b: seq<Byte>, fw: seq<nat>, bw: seq<nat>, s: Byte, i: nat, l: nat)
    requires Flanks(b, fw, bw, s) && i <= |fw| && l <= |bw|
    ensures Flanks(b, fw[..i], bw[l..], s)
  {
    var w, v := fw + bw, fw[..i] + bw[l..];
    forall j, k | 0 <= j < k < |v| ensures v[j] != v[k] {
      var j', k' := if j < i then j else j - i + l + |fw|, if k < i then k else k - i + l + |fw|;
      assert v[j] == w[j'] && v[k] == w[k'];
    }
    assert forall j :: 0 <= j < i ==> fw[..i][j] == fw[j];
    assert forall j :: 0 <= j < |bw| - l ==> bw[l..][j] == bw[j + l];
  }

  /** The next gathered rotation goes to the end of fw. */
  lemma FlankForward(b: seq<Byte>, fw: seq<nat>, bw: seq<nat>, s: Byte, x: nat)
    requires Flanks(b, fw, bw, s) && x < |b| && b[x] == s && x !in fw && x !in bw
    requires forall k :: 0 <= k < |fw| ==> NotAfter(b, fw[k], x)
    requires Key(b, x, |b|) <= RunKey(s, |b|)
    ensures Flanks(b, fw + [x], bw, s)
  {
    var w, v := fw + bw, fw + [x] + bw;
    forall j, k | 0 <= j < k < |v| ensures v[j] != v[k] {
      if j != |fw| && k != |fw| {
        var j', k' := if j < |fw| then j else j - 1, if k < |fw| then k else k - 1;
        assert v[j] == w[j'] && v[k] == w[k'];
      } else if j == |fw| {
        assert v[k] == bw[k - |fw| - 1];
      } else {
        assert v[j] == fw[j];
      }
    }
    assert (fw + [x]) + bw == v;
  }

  lemma FlankBackward(b: seq<Byte>, fw: seq<nat>, bw: seq<nat>, s: Byte, x: nat)
    requires Flanks(b, fw, bw, s) && x < |b| && b[x] == s && x !in fw && x !in bw
    requires forall k :: 0 <= k < |bw| ==> NotAfter(b, x, bw[k])
    requires RunKey(s, |b|) <= Key(b, x, |b|)
    ensures Flanks(b, fw, [x] + bw, s)
  {
    var w, v := fw + bw, fw + ([x] + bw);
    forall j, k | 0 <= j < k < |v| ensures v[j] != v[k] {
      if j != |fw| && k != |fw| {
        var j', k' := if j < |fw| then j else j - 1, if k < |fw| then k else k - 1;
        assert v[j] == w[j'] && v[k] == w[k'];
      } else if j == |fw| {
        assert v[k] == bw[k - |fw| - 1];
      } else {
        assert v[j] == fw[j];
      }
    }
    forall k, l | 0 <= k < l < |[x] + bw| ensures Key(b, ([x] + bw)[k], |b|) <= Key(b, ([x] + bw)[l], |b|) {
      if k > 0 { assert ([x] + bw)[k] == bw[k - 1] && ([x] + bw)[l] == bw[l - 1]; }
    }
  }

  ghost predicate PairsUnder(b: seq<Byte>, w: seq<nat>, v: int) {
    Below(w, |b|) && forall k :: 0 <= k < |w| ==> Pairs(b)[w[k]] < v
  }

  ghost predicate PairsOver(b: seq<Byte>, w: seq<nat>, v: int) {
    Below(w, |b|) && forall k :: 0 <= k < |w| ==> Pairs(b)[w[k]] > v
  }

  lemma InConcat(u: seq<nat>, v: seq<nat>, x: nat)
    ensures x in u + v <==> x in u || x in v
  {
  }

  lemma NotTwice(u: seq<nat>, x: nat, v: seq<nat>)
    requires Injective(u + [x] + v)
    ensures x !in u && x !in v
  {
    var w := u + [x] + v;
    assert w[|u|] == x;
    forall k | 0 <= k < |u| ensures u[k] != x { assert w[k] == u[k]; }
    forall k | 0 <= k < |v| ensures v[k] != x { assert w[|u| + 1 + k] == v[k]; }
  }

  /** What stands before the next scanned position is new, for either end. */
  lemma GatheredIsNew(b: seq<Byte>, low: seq<nat>, high: seq<nat>, fs: seq<nat>, bs: seq<nat>, y: nat, s: Byte)
    requires Begin(b, fs + [y] + bs, s) && Injective(fs + [y] + bs) && Below(fs, |b|) && Below(bs, |b|) && y < |b|
    requires b[y] == s && b[Prev(|b|, y)] == s
    requires PairsUnder(b, low, 257 * (s as int)) && PairsOver(b, high, 257 * (s as int))
    ensures Prev(|b|, y) !in low + Gather(b, fs, s) && Prev(|b|, y) !in Gather(b, bs, s) + high
  {
    var x := Prev(|b|, y);
    PairIs(b, x);
    GatherPush(b, fs, y, s);
    GatherAdd(b, fs + [y], bs, s);
    GatherInjective(b, fs + [y] + bs, s);
    NotTwice(Gather(b, fs, s), x, Gather(b, bs, s));
    InConcat(low, Gather(b, fs, s), x);
    InConcat(Gather(b, bs, s), high, x);
  }

  lemma FlanksAre(b: seq<Byte>, fw: seq<nat>, bw: seq<nat>, s: Byte)
    requires Flanks(b, fw, bw, s)
    ensures Begin(b, fw, s) && Begin(b, bw, s) && Injective(fw + bw) && SortedKeys(b, fw, |b|) && SortedKeys(b, bw, |b|)
    ensures NotAboveRun(b, fw, s) && NotBelowRun(b, bw, s) && Begin(b, fw + bw, s)
  {
  }

  lemma LastOfForward(b: seq<Byte>, low: seq<nat>, fs: seq<nat>, y: nat, s: Byte, e: nat)
    requires Below(fs + [y], |b|) && Below(fs, |b|) && y < |b| && SortedKeys(b, fs + [y], |b|) && b[y] == s
    requires b[Prev(|b|, y)] == s
    requires PairsUnder(b, low, 257 * (s as int)) && e in low + Gather(b, fs, s)
    ensures e < |b| && NotAfter(b, e, Prev(|b|, y))
  {
    var x := Prev(|b|, y);
    PairIs(b, x);
    InConcat(low, Gather(b, fs, s), e);
    if e in low {
      PairDecides(b, e, x);
    } else {
      GatherPush(b, fs, y, s);
      GatherSorted(b, fs + [y], s);
      var g := Gather(b, fs + [y], s);
      var k :| 0 <= k < |Gather(b, fs, s)| && Gather(b, fs, s)[k] == e;
      assert g[k] == e && g[|g| - 1] == x;
    }
  }

  lemma FirstOfBackward(b: seq<Byte>, high: seq<nat>, bs: seq<nat>, y: nat, s: Byte, e: nat)
    requires Below([y] + bs, |b|) && Below(bs, |b|) && y < |b| && SortedKeys(b, [y] + bs, |b|) && b[y] == s
    requires b[Prev(|b|, y)] == s
    requires PairsOver(b, high, 257 * (s as int)) && e in Gather(b, bs, s) + high
    ensures e < |b| && NotAfter(b, Prev(|b|, y), e)
  {
    var x := Prev(|b|, y);
    PairIs(b, x);
    InConcat(Gather(b, bs, s), high, e);
    if e in high {
      PairDecides(b, x, e);
    } else {
      GatherFront(b, y, bs, s);
      GatherSorted(b, [y] + bs, s);
      var g := Gather(b, [y] + bs, s);
      var k :| 0 <= k < |Gather(b, bs, s)| && Gather(b, bs, s)[k] == e;
      assert g[k + 1] == e && g[0] == x;
    }
  }

  lemma FlanksGrowForward(b: seq<Byte>, low: seq<nat>, high: seq<nat>, fs: seq<nat>, bs: seq<nat>, y: nat, s: Byte)
    requires Below(fs, |b|) && Below(bs, |b|) && y < |b| && b[Prev(|b|, y)] == s
    requires Flanks(b, fs + [y], bs, s) && Flanks(b, low + Gather(b, fs, s), Gather(b, bs, s) + high, s)
    requires PairsUnder(b, low, 257 * (s as int)) && PairsOver(b, high, 257 * (s as int))
    ensures Flanks(b, low + Gather(b, fs, s) + [Prev(|b|, y)], Gather(b, bs, s) + high, s)
  {
    var x, fw := Prev(|b|, y), low + Gather(b, fs, s);
    FlanksAre(b, fs + [y], bs, s);
    assert (fs + [y])[|fs|] == y;
    GatheredIsNew(b, low, high, fs, bs, y, s);
    forall k | 0 <= k < |fw| ensures fw[k] < |b| && NotAfter(b, fw[k], x) {
      LastOfForward(b, low, fs, y, s, fw[k]);
    }
    RunAbove(b, x);
    FlankForward(b, fw, Gather(b, bs, s) + high, s, x);
  }

  lemma FlanksGrowBackward(b: seq<Byte>, low: seq<nat>, high: seq<nat>, fs: seq<nat>, bs: seq<nat>, y: nat, s: Byte)
    requires Below(fs, |b|) && Below(bs, |b|) && y < |b| && b[Prev(|b|, y)] == s
    requires Flanks(b, fs, [y] + bs, s) && Flanks(b, low + Gather(b, fs, s), Gather(b, bs, s) + high, s)
    requires PairsUnder(b, low, 257 * (s as int)) && PairsOver(b, high, 257 * (s as int))
    ensures Flanks(b, low + Gather(b, fs, s), [Prev(|b|, y)] + (Gather(b, bs, s) + high), s)
  {
    var x, bw := Prev(|b|, y), Gather(b, bs, s) + high;
    FlanksAre(b, fs, [y] + bs, s);
    assert ([y] + bs)[0] == y && fs + ([y] + bs) == fs + [y] + bs;
    GatheredIsNew(b, low, high, fs, bs, y, s);
    forall k | 0 <= k < |bw| ensures bw[k] < |b| && NotAfter(b, x, bw[k]) {
      FirstOfBackward(b, high, bs, y, s, bw[k]);
    }
    RunBelow(b, x);
    FlankBackward(b, low + Gather(b, fs, s), bw, s, x);
  }
}
