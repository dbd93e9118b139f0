/** The multikey quicksort of a bucket of rotations, driven by an explicit stack. */
module MainQuickSort {
  import opened MachineInts
  import opened Arithmetic
  import opened Permutations
  import opened SetSums
  import opened Rotations
  import opened MainCompare
  import opened FallbackQuickSort
  import opened MainSimpleSort
  import opened MainPartition

  const MAIN_QSORT_SMALL_THRESH := 20
  const MAIN_QSORT_DEPTH_THRESH := 14
  const MAIN_QSORT_STACK_SIZE := 100

  lemma MainThresholds()
    ensures MAIN_QSORT_SMALL_THRESH == 20 && MAIN_QSORT_DEPTH_THRESH == 14 && MAIN_QSORT_STACK_SIZE == 100
  {
  }

  /* ---- the waiting ranges, each with the number of bytes its entries share ---- */

  ghost predicate Deep(b: seq<Byte>, s: seq<nat>, stack: seq<Range>, depth: seq<nat>) {
    && |depth| == |stack|
    && forall i :: 0 <= i < |stack| ==> depth[i] <= 15 && Sharing(b, s, stack[i].lo, stack[i].hi, depth[i])
  }

  lemma DeepLast(b: seq<Byte>, s: seq<nat>, rest: seq<Range>, depths: seq<nat>, r: Range, d: nat)
    requires |rest| == |depths|
    ensures Deep(b, s, rest + [r], depths + [d]) <==>
      Deep(b, s, rest, depths) && d <= 15 && Sharing(b, s, r.lo, r.hi, d)
  {
    var stack, depth := rest + [r], depths + [d];
    assert stack[|rest|] == r && depth[|rest|] == d;
    assert forall i :: 0 <= i < |rest| ==> stack[i] == rest[i] && depth[i] == depths[i];
  }

  lemma DeepEmpty(b: seq<Byte>, s: seq<nat>)
    ensures Deep(b, s, [], [])
  {
  }

  lemma SharingElsewhere(b: seq<Byte>, s: seq<nat>, t: seq<nat>, lo: int, hi: int, d: nat, lo': int, hi': int)
    requires Sharing(b, s, lo, hi, d) && Permuted(s, t, lo', hi') && (hi < lo' || hi' < lo)
    ensures Sharing(b, t, lo, hi, d)
  {
  }

  lemma StackApart(rest: seq<Range>, r: Range, lo: int, hi: int, i: nat)
    requires StackOk(rest + [r], lo, hi) && i < |rest|
    ensures rest[i].hi < r.lo || r.hi < rest[i].lo
  {
    var stack := rest + [r];
    assert stack[i] == rest[i] && stack[|rest|] == r;
  }

  lemma DeepRearranged(b: seq<Byte>, s: seq<nat>, t: seq<nat>, lo: nat, hi: int, rest: seq<Range>, depths: seq<nat>,
                       r: Range, d: nat)
    requires |rest| == |depths| && StackOk(rest + [r], lo, hi) && 0 <= r.lo && r.hi < |s|
    requires Deep(b, s, rest + [r], depths + [d]) && Permuted(s, t, r.lo, r.hi)
    ensures Deep(b, t, rest + [r], depths + [d])
  {
    hide StackOk, Permuted, Sharing;
    DeepLast(b, s, rest, depths, r, d);
    SharingPermuted(b, s, t, r.lo, r.hi, d);
    forall i | 0 <= i < |rest| ensures Sharing(b, t, rest[i].lo, rest[i].hi, depths[i]) {
      StackApart(rest, r, lo, hi, i);
      SharingElsewhere(b, s, t, rest[i].lo, rest[i].hi, depths[i], r.lo, r.hi);
    }
    DeepLast(b, t, rest, depths, r, d);
  }

  /** What remains to be done: a range may be split, or compared one byte deeper. */
  ghost function Weight(r: Range, d: nat): (w: nat)
    ensures w > 0
  {
    if d <= 17 then 4 * Size(r) * (17 - d) + 1 else 1
  }

  ghost function Load(stack: seq<Range>, depth: seq<nat>): nat
    requires |stack| == |depth|
  {
    if stack == [] then 0
    else Load(stack[..|stack| - 1], depth[..|stack| - 1]) + Weight(stack[|stack| - 1], depth[|stack| - 1])
  }

  lemma LoadLast(rest: seq<Range>, depths: seq<nat>, r: Range, d: nat)
    requires |rest| == |depths|
    ensures Load(rest + [r], depths + [d]) == Load(rest, depths) + Weight(r, d)
  {
    assert (rest + [r])[..|rest|] == rest && (depths + [d])[..|rest|] == depths;
  }

  /** Counted from the bottom, every second range of the stack is at most half as large. */
  ghost predicate Tapering(stack: seq<Range>, total: nat) {
    forall i :: 0 <= i < |stack| ==> Tapered(stack[i], i, total)
  }

  ghost predicate Tapered(r: Range, i: nat, total: nat) {
    Size(r) * Pow2(i / 2) <= total
  }

  lemma TaperLast(rest: seq<Range>, r: Range, total: nat)
    ensures Tapering(rest + [r], total) <==> Tapering(rest, total) && Tapered(r, |rest|, total)
  {
    hide Tapered;
    var stack := rest + [r];
    assert stack[|rest|] == r;
    assert forall i :: 0 <= i < |rest| ==> stack[i] == rest[i];
  }

  lemma TaperBound(stack: seq<Range>, total: nat)
    requires stack != [] && Tapering(stack, total) && total < 0x8000_0000
    requires Size(stack[|stack| - 1]) > MAIN_QSORT_SMALL_THRESH
    ensures |stack| <= 56
  {
    var i := |stack| - 1;
    var p := Pow2(i / 2);
    assert Tapered(stack[i], i, total);
    ScaleUp2(21, Size(stack[i]), p);
    if i / 2 >= 28 {
      Pow2Grows(28, i / 2);
      PowersOfTwo();
    }
  }

  /* ---- the three parts of a split range, in any order ---- */

  ghost predicate Parts(r: Range, n: int, m: int, d: nat, x: Range, e: nat, y: Range, f: nat, z: Range, g: nat) {
    && r.lo - 1 <= n && n + 1 < m <= r.hi + 1
    && Arranged(Range(r.lo, n), d, Range(m, r.hi), d, Range(n + 1, m - 1), d + 1, x, e, y, f, z, g)
  }

  ghost predicate Arranged(a: Range, d0: nat, c: Range, d1: nat, k: Range, d2: nat, x: Range, e: nat, y: Range, f: nat,
                           z: Range, g: nat)
  {
    || (x == a && e == d0 && y == c && f == d1 && z == k && g == d2)
    || (x == a && e == d0 && z == c && g == d1 && y == k && f == d2)
    || (y == a && f == d0 && x == c && e == d1 && z == k && g == d2)
    || (y == a && f == d0 && z == c && g == d1 && x == k && e == d2)
    || (z == a && g == d0 && x == c && e == d1 && y == k && f == d2)
    || (z == a && g == d0 && y == c && f == d1 && x == k && e == d2)
  }

  /** Names three ranges in order of decreasing size. */
  method LargestFirst(a: Range, d0: nat, c: Range, d1: nat, k: Range, d2: nat)
    returns (x: Range, e: nat, y: Range, f: nat, z: Range, g: nat)
    requires a.lo <= a.hi + 1 && c.lo <= c.hi + 1 && k.lo <= k.hi + 1
    ensures Arranged(a, d0, c, d1, k, d2, x, e, y, f, z, g)
    ensures Size(x) >= Size(y) >= Size(z)
  {
    x, e, y, f, z, g := a, d0, c, d1, k, d2;
    if x.hi - x.lo < y.hi - y.lo { x, e, y, f := y, f, x, e; }
    if y.hi - y.lo < z.hi - z.lo { y, f, z, g := z, g, y, f; }
    if x.hi - x.lo < y.hi - y.lo { x, e, y, f := y, f, x, e; }
  }

  lemma PartsOrdered(b: seq<Byte>, s: seq<nat>, lo: nat, hi: int, rest: seq<Range>, r: Range, d: nat, med: nat, n: int,
                     m: int,
                     x: Range, e: nat, y: Range, f: nat, z: Range, g: nat)
    requires d < |b| && 0 <= r.lo <= r.hi < |s| && OrderedBut(s, Keys(b), lo, hi, rest + [r])
    requires Sharing(b, s, r.lo, r.hi, d) && Split(s, BytesAhead(b, d), r.lo, r.hi, med, n, m)
    requires Parts(r, n, m, d, x, e, y, f, z, g)
    ensures OrderedBut(s, Keys(b), lo, hi, rest + [x] + [y] + [z])
  {
    hide Together, Sharing, Keys, BytesAhead, ClassOf;
    forall p, q | lo <= p < q <= hi && !Together(rest + [x] + [y] + [z], p, q)
      ensures ClassOf(s, Keys(b), p) <= ClassOf(s, Keys(b), q)
    {
      TogetherLast(rest, r, p, q);
      TogetherLast(rest, x, p, q);
      TogetherLast(rest + [x], y, p, q);
      TogetherLast(rest + [x] + [y], z, p, q);
      if r.lo <= p && q <= r.hi {
        assert !(r.lo <= p && q <= n) && !(m <= p && q <= r.hi) && !(n + 1 <= p && q <= m - 1);
        ByteAheadDecides(b, s, r.lo, r.hi, d, p, q);
      }
    }
  }

  lemma PartsStack(rest: seq<Range>, r: Range, lo: int, hi: int, n: int, m: int, d: nat, x: Range, e: nat, y: Range,
                   f: nat, z: Range, g: nat)
    requires StackOk(rest + [r], lo, hi) && Parts(r, n, m, d, x, e, y, f, z, g)
    ensures StackOk(rest + [x] + [y] + [z], lo, hi)
  {
    var stack, stack' := rest + [r], rest + [x] + [y] + [z];
    assert stack[|rest|] == r;
    assert forall i :: 0 <= i < |rest| ==> stack'[i] == stack[i];
    assert stack'[|rest|] == x && stack'[|rest| + 1] == y && stack'[|rest| + 2] == z;
  }

  lemma PartsDeep(b: seq<Byte>, s: seq<nat>, rest: seq<Range>, depths: seq<nat>, r: Range, d: nat, med: nat, n: int,
                  m: int,
                  x: Range, e: nat, y: Range, f: nat, z: Range, g: nat)
    requires |rest| == |depths| && d < |b| && d <= 14 && 0 <= r.lo <= r.hi < |s|
    requires Deep(b, s, rest, depths) && Sharing(b, s, r.lo, r.hi, d)
    requires Split(s, BytesAhead(b, d), r.lo, r.hi, med, n, m) && Parts(r, n, m, d, x, e, y, f, z, g)
    ensures Deep(b, s, rest + [x] + [y] + [z], depths + [e] + [f] + [g])
  {
    hide Deep, Sharing;
    SharingNarrow(b, s, r.lo, r.hi, d, r.lo, n);
    SharingNarrow(b, s, r.lo, r.hi, d, m, r.hi);
    SharingNarrow(b, s, r.lo, r.hi, d, n + 1, m - 1);
    ShareOneMore(b, s, n + 1, m - 1, d, med);
    DeepLast(b, s, rest, depths, x, e);
    DeepLast(b, s, rest + [x], depths + [e], y, f);
    DeepLast(b, s, rest + [x] + [y], depths + [e] + [f], z, g);
  }

  lemma WeightOf(a: nat, c: nat, k: nat, s: nat, u: nat)
    requires a + c + k == s && k >= 1 && u >= 1
    ensures 4 * a * u + 4 * c * u + 4 * k * (u - 1) + 3 < 4 * s * u + 1
  {
    assert 4 * a * u + 4 * c * u + 4 * k * u == 4 * s * u;
    assert 4 * k * (u - 1) == 4 * k * u - 4 * k;
  }

  lemma WeightIs(r: Range, d: nat)
    requires d <= 17
    ensures Weight(r, d) == 4 * Size(r) * (17 - d) + 1
  {
  }

  lemma PartsSizes(r: Range, n: int, m: int, d: nat, x: Range, e: nat, y: Range, f: nat, z: Range, g: nat)
    requires Parts(r, n, m, d, x, e, y, f, z, g)
    ensures Size(Range(r.lo, n)) + Size(Range(m, r.hi)) + Size(Range(n + 1, m - 1)) == Size(r)
    ensures Size(Range(n + 1, m - 1)) >= 1
    ensures Weight(x, e) + Weight(y, f) + Weight(z, g) ==
      Weight(Range(r.lo, n), d) + Weight(Range(m, r.hi), d) + Weight(Range(n + 1, m - 1), d + 1)
  {
    hide Weight;
  }

  lemma PartsLoad(rest: seq<Range>, depths: seq<nat>, r: Range, d: nat, n: int, m: int, x: Range, e: nat, y: Range,
                  f: nat, z: Range, g: nat)
    requires |rest| == |depths| && d <= 14 && Parts(r, n, m, d, x, e, y, f, z, g)
    ensures Load(rest + [x] + [y] + [z], depths + [e] + [f] + [g]) < Load(rest + [r], depths + [d])
  {
    LoadLast(rest, depths, r, d);
    LoadLast(rest, depths, x, e);
    LoadLast(rest + [x], depths + [e], y, f);
    LoadLast(rest + [x] + [y], depths + [e] + [f], z, g);
    hide *;
    PartsSizes(r, n, m, d, x, e, y, f, z, g);
    WeightIs(r, d);
    WeightIs(Range(r.lo, n), d);
    WeightIs(Range(m, r.hi), d);
    WeightIs(Range(n + 1, m - 1), d + 1);
    WeightOf(Size(Range(r.lo, n)), Size(Range(m, r.hi)), Size(Range(n + 1, m - 1)), Size(r), 17 - d);
  }

  lemma DeeperLoad(rest: seq<Range>, depths: seq<nat>, r: Range, d: nat)
    requires |rest| == |depths| && d <= 14 && r.lo <= r.hi
    ensures Load(rest + [r], depths + [d + 1]) < Load(rest + [r], depths + [d])
  {
    LoadLast(rest, depths, r, d);
    LoadLast(rest, depths, r, d + 1);
    ScaleUp(17 - d, 17 - (d + 1), 4 * Size(r));
  }

  lemma Doubled(c: nat, p: nat)
    ensures c * (2 * p) == (2 * c) * p
  {
  }

  lemma ThirdProduct(a: nat, c: nat, k: nat, s: nat, p: nat)
    requires a >= c >= k && a + c + k <= s
    ensures a * p <= s * p && c * (2 * p) <= s * p && k * (2 * p) <= s * p
  {
    ScaleUp2(a, s, p);
    ScaleUp2(2 * c, s, p);
    ScaleUp2(2 * k, s, p);
    Doubled(c, p);
    Doubled(k, p);
  }

  lemma HalfIndex(i: nat, s: nat, a: nat, c: nat, k: nat, total: nat)
    requires a >= c >= k && a + c + k <= s && s * Pow2(i / 2) <= total
    ensures a * Pow2(i / 2) <= total && c * Pow2((i + 1) / 2) <= total && k * Pow2((i + 2) / 2) <= total
  {
    var p := Pow2(i / 2);
    ThirdProduct(a, c, k, s, p);
    assert (i + 2) / 2 == i / 2 + 1 && Pow2(i / 2 + 1) == 2 * p;
    if i % 2 == 0 {
      assert (i + 1) / 2 == i / 2;
      ScaleUp2(c, a, p);
    } else {
      assert (i + 1) / 2 == i / 2 + 1;
    }
  }

  lemma PartsTaper(rest: seq<Range>, r: Range, n: int, m: int, d: nat, x: Range, e: nat, y: Range, f: nat, z: Range,
                   g: nat, total: nat)
    requires Tapering(rest + [r], total) && Parts(r, n, m, d, x, e, y, f, z, g) && Size(x) >= Size(y) >= Size(z)
    ensures Tapering(rest + [x] + [y] + [z], total)
  {
    TaperLast(rest, r, total);
    TaperLast(rest, x, total);
    TaperLast(rest + [x], y, total);
    TaperLast(rest + [x] + [y], z, total);
    hide Tapering;
    assert |rest + [x]| == |rest| + 1 && |rest + [x] + [y]| == |rest| + 2;
    HalfIndex(|rest|, Size(r), Size(x), Size(y), Size(z), total);
  }

  /* ---- the whole sort ---- */

  ghost predicate Sorting(b: seq<Byte>, s0: seq<nat>, s: seq<nat>, lo: nat, hi: int, stack: seq<Range>,
                          depth: seq<nat>, total: nat)
  {
    && |s| == |s0| && Permuted(s0, s, lo, hi) && InRange(s, |b|, lo, hi) && OrderedBut(s, Keys(b), lo, hi, stack)
    && StackOk(stack, lo, hi) && Tapering(stack, total) && Deep(b, s, stack, depth)
  }

  lemma SortingStarts(b: seq<Byte>, s: seq<nat>, lo: nat, hi: int, d: nat)
    requires lo <= hi + 1 && d <= 15 && Sharing(b, s, lo, hi, d)
    ensures Sorting(b, s, s, lo, hi, [Range(lo, hi)], [d], hi + 1 - lo)
  {
    StackStarts(s, Keys(b), lo, hi);
    PermutedRefl(s, lo, hi);
    SharingRange(b, s, lo, hi, d);
    TaperLast([], Range(lo, hi), hi + 1 - lo);
    DeepEmpty(b, s);
    DeepLast(b, s, [], [], Range(lo, hi), d);
    assert [] + [Range(lo, hi)] == [Range(lo, hi)] && [] + [d] == [d];
  }

  lemma SortingTop(b: seq<Byte>, s0: seq<nat>, s: seq<nat>, lo: nat, hi: int, rest: seq<Range>, depths: seq<nat>,
                   r: Range, d: nat, total: nat)
    requires hi < |s| && |rest| == |depths| && Sorting(b, s0, s, lo, hi, rest + [r], depths + [d], total)
    ensures lo <= r.lo <= r.hi + 1 <= hi + 1 && d <= 15 && Sharing(b, s, r.lo, r.hi, d) && InRange(s, |b|, r.lo, r.hi)
    ensures Tapering(rest + [r], total) && Load(rest, depths) < Load(rest + [r], depths + [d]) && |s| == |s0|
  {
    StackEntry(rest, r, s, |b|, lo, hi);
    DeepLast(b, s, rest, depths, r, d);
    LoadLast(rest, depths, r, d);
  }

  /** The top range has been rearranged. */
  lemma SortingMoves(b: seq<Byte>, s0: seq<nat>, s: seq<nat>, t: seq<nat>, lo: nat, hi: int, rest: seq<Range>,
                     depths: seq<nat>, r: Range, d: nat, total: nat)
    requires hi < |s| && 0 <= r.lo && r.hi < |s| && |rest| == |depths|
    requires Sorting(b, s0, s, lo, hi, rest + [r], depths + [d], total) && Permuted(s, t, r.lo, r.hi)
    ensures Sorting(b, s0, t, lo, hi, rest + [r], depths + [d], total)
  {
    hide StackOk, Permuted, Sharing, Deep, OrderedBut, Tapering;
    PermutedFacts(s, t, r.lo, r.hi);
    KeysSize(b);
    RangeDone(s0, s, t, Keys(b), lo, hi, rest, r);
    DeepRearranged(b, s, t, lo, hi, rest, depths, r, d);
  }

  lemma PermutedFacts(s: seq<nat>, t: seq<nat>, lo: int, hi: int)
    requires Permuted(s, t, lo, hi)
    ensures |s| == |t|
  {
  }

  /** The top range is in order. */
  lemma SortingPops(b: seq<Byte>, s0: seq<nat>, s: seq<nat>, lo: nat, hi: int, rest: seq<Range>, depths: seq<nat>,
                    r: Range, d: nat, total: nat)
    requires |rest| == |depths| && Sorting(b, s0, s, lo, hi, rest + [r], depths + [d], total)
    requires Ordered(s, Keys(b), r.lo, r.hi)
    ensures Sorting(b, s0, s, lo, hi, rest, depths, total)
  {
    RangeSorted(s, Keys(b), lo, hi, rest, r);
    DeepLast(b, s, rest, depths, r, d);
    TaperLast(rest, r, total);
    StackBelow(rest, r, lo, hi);
  }

  lemma StackBelow(rest: seq<Range>, r: Range, lo: int, hi: int)
    requires StackOk(rest + [r], lo, hi)
    ensures StackOk(rest, lo, hi)
  {
    assert forall i :: 0 <= i < |rest| ==> (rest + [r])[i] == rest[i];
  }

  /** The entries of the top range share one byte more. */
  lemma SortingDeeper(b: seq<Byte>, s0: seq<nat>, s: seq<nat>, lo: nat, hi: int, rest: seq<Range>, depths: seq<nat>,
                      r: Range, d: nat, med: nat, total: nat)
    requires |rest| == |depths| && d <= 14 && d < |b| && Sorting(b, s0, s, lo, hi, rest + [r], depths + [d], total)
    requires AllClass(s, BytesAhead(b, d), r.lo, r.hi, med)
    ensures Sorting(b, s0, s, lo, hi, rest + [r], depths + [d + 1], total)
  {
    DeepLast(b, s, rest, depths, r, d);
    ShareOneMore(b, s, r.lo, r.hi, d, med);
    DeepLast(b, s, rest, depths, r, d + 1);
  }

  lemma SortingSplits(b: seq<Byte>, s0: seq<nat>, s: seq<nat>, lo: nat, hi: int, rest: seq<Range>, depths: seq<nat>,
                      r: Range, d: nat, total: nat,
                      med: nat, n: int, m: int, x: Range, e: nat, y: Range, f: nat, z: Range, g: nat)
    requires |rest| == |depths| && d <= 14 && d < |b| && 0 <= r.lo <= r.hi < |s|
    requires Sorting(b, s0, s, lo, hi, rest + [r], depths + [d], total)
    requires Split(s, BytesAhead(b, d), r.lo, r.hi, med, n, m)
    requires Parts(r, n, m, d, x, e, y, f, z, g) && Size(x) >= Size(y) >= Size(z)
    ensures Sorting(b, s0, s, lo, hi, rest + [x] + [y] + [z], depths + [e] + [f] + [g], total)
    ensures Load(rest + [x] + [y] + [z], depths + [e] + [f] + [g]) < Load(rest + [r], depths + [d])
  {
    hide StackOk, Permuted, Sharing, Deep, OrderedBut, Tapering, Parts, Split, Load, InRange;
    DeepLast(b, s, rest, depths, r, d);
    PartsOrdered(b, s, lo, hi, rest, r, d, med, n, m, x, e, y, f, z, g);
    PartsStack(rest, r, lo, hi, n, m, d, x, e, y, f, z, g);
    PartsDeep(b, s, rest, depths, r, d, med, n, m, x, e, y, f, z, g);
    PartsTaper(rest, r, n, m, d, x, e, y, f, z, g, total);
    PartsLoad(rest, depths, r, d, n, m, x, e, y, f, z, g);
  }

  lemma SortingEnds(b: seq<Byte>, s0: seq<nat>, s: seq<nat>, lo: nat, hi: int, total: nat)
    requires Sorting(b, s0, s, lo, hi, [], [], total)
    ensures Permuted(s0, s, lo, hi) && Ordered(s, Keys(b), lo, hi)
  {
    StackEmpty(s, Keys(b), lo, hi);
  }

  lemma SortingKeeps(b: seq<Byte>, s0: seq<nat>, s: seq<nat>, lo: nat, hi: int, stack: seq<Range>, depth: seq<nat>,
                     total: nat)
    requires Sorting(b, s0, s, lo, hi, stack, depth, total)
    ensures Permuted(s0, s, lo, hi) && |s| == |s0| && |stack| == |depth|
  {
  }

  lemma SplitParts(s: seq<nat>, ec: seq<nat>, lo: nat, hi: nat, med: nat, n: int, m: int, d: nat, x: Range, e: nat,
                   y: Range, f: nat, z: Range, g: nat)
    requires Split(s, ec, lo, hi, med, n, m)
    requires Arranged(Range(lo, n), d, Range(m, hi), d, Range(n + 1, m - 1), d + 1, x, e, y, f, z, g)
    ensures Parts(Range(lo, hi), n, m, d, x, e, y, f, z, g)
  {
  }

  lemma SplitBounds(s: seq<nat>, ec: seq<nat>, lo: nat, hi: nat, med: nat, n: int, m: int)
    requires Split(s, ec, lo, hi, med, n, m)
    ensures lo - 1 <= n && n + 1 < m <= hi + 1
  {
  }

  /** Chooses a pivot byte, splits lo..hi around it and names the larger parts first. */
  method SplitRange(ptr: array<UInt32>, arr2: array<UInt32>, nblock: nat, lo: nat, hi: nat, d: nat, ghost b: seq<Byte>,
                    ghost q: seq<UInt16>)
    returns (equal: bool, x: Range, e: nat, y: Range, f: nat, z: Range, g: nat, ghost n: int, ghost m: int,
             ghost med: nat)
    requires ptr != arr2 && nblock == |b| && d <= 14 && d < nblock && Holds(arr2[..], b, q)
    requires lo <= hi < ptr.Length && InRange(ptr[..], nblock, lo, hi)
    modifies ptr
    ensures Permuted(old(ptr[..]), ptr[..], lo, hi)
    ensures equal ==> AllClass(ptr[..], BytesAhead(b, d), lo, hi, med)
    ensures !equal ==> Split(ptr[..], BytesAhead(b, d), lo, hi, med, n, m)
    ensures !equal ==> Parts(Range(lo, hi), n, m, d, x, e, y, f, z, g) && Size(x) >= Size(y) >= Size(z)
  {
    hide *;
    var v0 := ReadAhead(ptr, arr2, nblock, lo, hi, d, lo, b, q);
    var v1 := ReadAhead(ptr, arr2, nblock, lo, hi, d, hi, b, q);
    var k := (lo + hi) / 2;
    var v2 := ReadAhead(ptr, arr2, nblock, lo, hi, d, k, b, q);
    var pivot := Median3(v0, v1, v2);
    ghost var l, h :| multiset{v0, v1, v2} == multiset{l, pivot, h} && l <= pivot <= h;
    MedianIsOne(v0, v1, v2, pivot, l, h);
    ghost var k0 := if pivot == v0 then lo else if pivot == v1 then hi else k;
    med := pivot;
    var n', m';
    equal, n', m' := MainPartition.Partition(ptr, arr2, nblock, lo, hi, d, pivot, k0, b, q);
    n, m := n', m';
    x, e, y, f, z, g := Range(lo, hi), d, Range(lo, hi), d, Range(lo, hi), d;
    if !equal {
      SplitBounds(ptr[..], BytesAhead(b, d), lo, hi, med, n', m');
      x, e, y, f, z, g := LargestFirst(Range(lo, n'), d, Range(m', hi), d, Range(n' + 1, m' - 1), d + 1);
      SplitParts(ptr[..], BytesAhead(b, d), lo, hi, med, n, m, d, x, e, y, f, z, g);
    }
  }

  /** Sorts a range of rotations that share dSt bytes, unless the budget runs out; the stack never fills its arrays. */
  method QSort3(ptr: array<UInt32>, arr2: array<UInt32>, nblock: nat, loSt: nat, hiSt: int, dSt: nat, budget: int,
                ghost b: seq<Byte>, ghost q: seq<UInt16>) returns (budget': int)
    requires ptr != arr2 && nblock == |b| && dSt <= 15 && Holds(arr2[..], b, q) && QuadrantsOrder(b, q)
    requires loSt <= hiSt + 1 <= ptr.Length && hiSt + 1 - loSt <= 2391484 && Sharing(b, ptr[..], loSt, hiSt, dSt)
    modifies ptr
    ensures Permuted(old(ptr[..]), ptr[..], loSt, hiSt) && budget' <= budget
    ensures budget' >= 0 ==> Ordered(ptr[..], Keys(b), loSt, hiSt)
  {
    hide *;
    MainThresholds();
    HoldsSize(arr2[..], b, q);
    ghost var s0, s := ptr[..], ptr[..];
    ghost var total := hiSt + 1 - loSt;
    budget' := budget;
    var stack, depth: seq<nat> := [Range(loSt, hiSt)], [dSt];
    SortingStarts(b, s, loSt, hiSt, dSt);
    while |stack| > 0
      invariant ptr[..] == s && |stack| == |depth| && budget' <= budget
      invariant Sorting(b, s0, s, loSt, hiSt, stack, depth, total)
      invariant |stack| <= 58 && |s| == |s0|
      decreases Load(stack, depth)
    {
      assert |stack| < MAIN_QSORT_STACK_SIZE - 2;
      var top, d := stack[|stack| - 1], depth[|stack| - 1];
      ghost var all, alld := stack, depth;
      stack, depth := stack[..|stack| - 1], depth[..|stack| - 1];
      assert all == stack + [top] && alld == depth + [d];
      SortingTop(b, s0, s, loSt, hiSt, stack, depth, top, d, total);
      SizeIs(top);
      if top.hi - top.lo < MAIN_QSORT_SMALL_THRESH || d > MAIN_QSORT_DEPTH_THRESH {
        budget' := MainSimpleSort.SimpleSort(ptr, arr2, nblock, top.lo, top.hi, d, budget', b, q);
        SortingMoves(b, s0, s, ptr[..], loSt, hiSt, stack, depth, top, d, total);
        s := ptr[..];
        SortingKeeps(b, s0, s, loSt, hiSt, stack + [top], depth + [d], total);
        if budget' < 0 { return; }
        SortingPops(b, s0, s, loSt, hiSt, stack, depth, top, d, total);
        continue;
      }
      TaperBound(all, total);
      var equal, x, e, y, f, z, g, n, m, med := SplitRange(ptr, arr2, nblock, top.lo, top.hi, d, b, q);
      SortingMoves(b, s0, s, ptr[..], loSt, hiSt, stack, depth, top, d, total);
      s := ptr[..];
      SortingKeeps(b, s0, s, loSt, hiSt, stack + [top], depth + [d], total);
      if equal {
        SortingDeeper(b, s0, s, loSt, hiSt, stack, depth, top, d, med, total);
        DeeperLoad(stack, depth, top, d);
        stack, depth := stack + [top], depth + [d + 1];
        continue;
      }
      SortingSplits(b, s0, s, loSt, hiSt, stack, depth, top, d, total, med, n, m, x, e, y, f, z, g);
      stack, depth := stack + [x] + [y] + [z], depth + [e] + [f] + [g];
    }
    assert stack == [] && depth == [];
    SortingEnds(b, s0, s, loSt, hiSt, total);
  }
}
