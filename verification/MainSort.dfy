/** The main block sort: radix sort on two bytes, then one big bucket after another, within a budget. */
module MainSort {
  import opened MachineInts
  import opened Arithmetic
  import opened Permutations
  import opened Rotations
  import opened Counting
  import opened Bwt
  import opened Words
  import opened SortArea
  import opened MainCompare
  import opened FallbackQuickSort
  import opened ShellSort
  import opened MainSimpleSort
  import opened PairBuckets
  import opened BucketFill
  import opened BucketSweep
  import opened BucketComplete
  import opened BucketResult
  import opened BucketTable
  import MainQuickSort

  /* ---- the order in which the big buckets are taken ---- */

  ghost function Frequencies(d: seq<nat>): (r: seq<nat>)
    ensures |r| == 256 && forall c :: 0 <= c < 256 ==> r[c] == BigEnd(d, c) - BigStart(d, c)
  {
    seq(256, c requires 0 <= c < 256 => BigSize(d, c))
  }

  ghost function BigSize(d: seq<nat>, c: int): (r: nat)
    ensures r == BigEnd(d, c) - BigStart(d, c)
  {
    LessGrows(d, 256 * c, 256 * c + 256);
    BigEnd(d, c) - BigStart(d, c)
  }

  /** The table before anything is marked. */
  ghost predicate Starts(d: seq<nat>, ftab: seq<nat>) {
    && |ftab| == 65537 && Below(d, 65536) && ftab[65536] == |d|
    && forall c :: 0 <= c < 65536 ==> ftab[c] == Less(d, c)
  }

  lemma FrequencyRead(d: seq<nat>, ftab: seq<nat>, c: nat)
    requires Starts(d, ftab) && c < 256
    ensures |ftab| == 65537 && ftab[(c + 1) * 256] == ftab[c * 256] + Frequencies(d)[c]
  {
    LessAll(d, 65536);
  }

  method BigFreq(ftab: array<UInt32>, c: nat, ghost d: seq<nat>) returns (f: nat)
    requires Starts(d, ftab[..]) && c < 256
    ensures f == Frequencies(d)[c]
  {
    hide *;
    FrequencyRead(d, ftab[..], c);
    f := ftab[(c + 1) * 256] - ftab[c * 256];
  }

  lemma OrderClass(s: seq<nat>, d: seq<nat>, k: nat)
    requires IsPermutation(s, 256) && k < 256
    ensures |s| == 256 && s[k] < 256 && ClassOf(s, Frequencies(d), k) == Frequencies(d)[s[k]]
  {
  }

  method InsertBig(order: array<nat>, ftab: array<UInt32>, i: nat, h: nat, ghost d: seq<nat>)
    requires order.Length == 256 && IsPermutation(order[..], 256) && Starts(d, ftab[..]) && 1 <= h <= i < 256
    modifies order
    ensures Dropped(old(order[..]), order[..], Frequencies(d), 0, i, h)
  {
    hide *;
    ghost var s0, s, ec := order[..], order[..], Frequencies(d);
    OrderClass(s0, d, i);
    LiftStarts(s0, ec, 0, i, h);
    var vv := order[i];
    var fv := BigFreq(ftab, vv, d);
    var j := i;
    while true
      invariant h <= j <= i && order[..] == s && |s| == |s0| && ftab[..] == old(ftab[..])
      invariant Lifted(s0, s, ec, 0, i, j, h)
      decreases j
    {
      LiftedReads(s0, s, ec, 0, i, j, h);
      OrderClass(s0, d, j - h);
      var f := BigFreq(ftab, order[j - h], d);
      if f <= fv { break; }
      LiftMoves(s0, s, ec, 0, i, j, h);
      order[j] := order[j - h];
      s := s[j := s[j - h]];
      j := j - h;
      if j <= h - 1 { break; }
    }
    LiftDropped(s0, s, ec, 0, i, j, h);
    order[j] := vv;
  }

  lemma OrderDropped(s0: seq<nat>, s: seq<nat>, t: seq<nat>, ec: seq<nat>, i: nat, h: nat)
    requires Permuted(s0, s, 0, 255) && IsPermutation(s, 256) && Dropped(s, t, ec, 0, i, h) && i < 256
    requires h == 1 ==> Ordered(s, ec, 0, i - 1)
    ensures Permuted(s0, t, 0, 255) && IsPermutation(t, 256)
    ensures h == 1 ==> Ordered(t, ec, 0, i)
  {
    DropStep(s0, s, t, ec, 0, i, 255, h);
    PermutedKeepsPermutation(s, t, 0, 255, 256);
  }

  lemma Identity(s: seq<nat>)
    requires |s| == 256 && forall k :: 0 <= k < 256 ==> s[k] == k
    ensures IsPermutation(s, 256)
  {
  }

  /** The big buckets, the least full first. */
  method RunningOrder(ftab: array<UInt32>, ghost d: seq<nat>) returns (order: array<nat>)
    requires Starts(d, ftab[..])
    ensures fresh(order) && order.Length == 256 && IsPermutation(order[..], 256)
    ensures Ordered(order[..], Frequencies(d), 0, 255)
  {
    hide *;
    order := new nat[256];
    for i := 0 to 256
      invariant forall k :: 0 <= k < i ==> order[k] == k
    {
      order[i] := i;
    }
    Identity(order[..]);
    ghost var ec := Frequencies(d);
    var h := 1;
    h := 3 * h + 1;
    while h <= 256
      invariant h == 4 || h == 13 || h == 40 || h == 121 || h == 364
      decreases 364 - h
    {
      h := 3 * h + 1;
    }
    while true
      invariant h == 4 || h == 13 || h == 40 || h == 121 || h == 364
      invariant order.Length == 256 && IsPermutation(order[..], 256)
      decreases h
    {
      h := h / 3;
      ghost var s0 := order[..];
      PermutedRefl(s0, 0, 255);
      if h == 1 { OrderedShort(s0, ec, 0, 0); }
      for i := h to 256
        invariant order.Length == 256 && IsPermutation(order[..], 256) && Permuted(s0, order[..], 0, 255)
        invariant h == 1 ==> Ordered(order[..], ec, 0, i - 1)
      {
        ghost var s := order[..];
        InsertBig(order, ftab, i, h, d);
        OrderDropped(s0, s, order[..], ec, i, h);
      }
      if h == 1 { break; }
    }
  }

  /* ---- step 1: the small buckets of one big bucket ---- */

  ghost predicate MarksGrow(mark: seq<bool>, mark': seq<bool>) {
    |mark| == |mark'| == 65536 && forall c :: 0 <= c < 65536 && mark[c] ==> mark'[c]
  }

  ghost predicate Marked(mark: seq<bool>, c: Byte, s: Byte)
    requires |mark| == 65536
  {
    mark[256 * (c as int) + s]
  }

  /** The small buckets (s, t) with t below j, except (s, s), are marked. */
  ghost predicate RowMarked(mark: seq<bool>, s: Byte, j: nat) {
    |mark| == 65536 && forall t: Byte :: t < j && t != s ==> Marked(mark, s, t)
  }

  lemma {:induction false} MarkedSet(mark: seq<bool>, c: Byte, s: Byte, c': Byte, s': Byte)
    requires |mark| == 65536
    ensures 256 * (c as int) + s < 65536
    ensures Marked(mark[256 * (c as int) + s := true], c', s') <==> Marked(mark, c', s') || (c' == c && s' == s)
  {
  }

  lemma {:induction false} RowMore(mark: seq<bool>, s: Byte, j: nat, c: nat)
    requires RowMarked(mark, s, j) && j < 256 && c == 256 * (s as int) + j && j != s
    ensures c < 65536 && RowMarked(mark[c := true], s, j + 1) && MarksGrow(mark, mark[c := true])
  {
    var mark' := mark[c := true];
    forall t: Byte | t < j + 1 && t != s ensures Marked(mark', s, t) { MarkedSet(mark, s, j, s, t); }
  }

  lemma {:induction false} MarksTrans(m0: seq<bool>, m1: seq<bool>, m2: seq<bool>)
    requires MarksGrow(m0, m1) && MarksGrow(m1, m2)
    ensures MarksGrow(m0, m2)
  {
  }

  lemma {:induction false} RowSkip(mark: seq<bool>, s: Byte, j: nat)
    requires RowMarked(mark, s, j) && j == s
    ensures RowMarked(mark, s, j + 1)
  {
  }

  lemma {:induction false} RowStart(mark: seq<bool>, s: Byte)
    requires |mark| == 65536
    ensures RowMarked(mark, s, 0) && MarksGrow(mark, mark)
  {
  }

  lemma PrefixPermuted(s: seq<nat>, t: seq<nat>, lo: int, hi: int, n: nat)
    requires Permuted(s, t, lo, hi) && hi < n <= |s|
    ensures n <= |t| && Permuted(s[..n], t[..n], lo, hi)
  {
    assert s[n..] == t[n..];
    assert s == s[..n] + s[n..] && t == t[..n] + t[n..];
    MultisetsCancel(s[..n], t[..n], s[n..]);
  }

  lemma MultisetsCancel(a: seq<nat>, c: seq<nat>, tail: seq<nat>)
    requires multiset(a + tail) == multiset(c + tail)
    ensures multiset(a) == multiset(c)
  {
    assert multiset(a + tail) == multiset(a) + multiset(tail);
    assert multiset(c + tail) == multiset(c) + multiset(tail);
    forall x ensures multiset(a)[x] == multiset(c)[x] {
      assert multiset(a + tail)[x] == multiset(c + tail)[x];
    }
  }

  lemma PrefixSharing(b: seq<Byte>, s: seq<nat>, n: nat, lo: int, hi: int, d: nat)
    requires n <= |s| && hi < n && Sharing(b, s[..n], lo, hi, d)
    ensures Sharing(b, s, lo, hi, d)
  {
    assert forall k :: 0 <= k < n ==> s[..n][k] == s[k];
  }

  lemma PrefixOrdered(s: seq<nat>, ec: seq<nat>, n: nat, lo: nat, hi: int)
    requires n <= |s| && hi < n && Ordered(s, ec, lo, hi)
    ensures Ordered(s[..n], ec, lo, hi)
  {
    assert forall k :: lo <= k <= hi ==> ClassOf(s[..n], ec, k) == ClassOf(s, ec, k);
  }

  lemma InOrderShort(b: seq<Byte>, p: seq<nat>, c: nat)
    requires Less(Pairs(b), c + 1) - 1 <= Less(Pairs(b), c)
    ensures InOrder(b, p, c)
  {
  }

  lemma InOrderOf(b: seq<Byte>, p: seq<nat>, c: nat)
    ensures InOrder(b, p, c) <==> Ordered(p, Keys(b), Less(Pairs(b), c), Less(Pairs(b), c + 1) - 1)
  {
  }

  /** Sorts the unmarked small bucket sb, unless it has at most one entry. */
  method SortSmall(ptr: array<UInt32>, arr2: array<UInt32>, ftab: array<UInt32>, n: nat, sb: nat, budget: int,
                   ghost b: seq<Byte>, ghost q: seq<UInt16>, ghost mark: seq<bool>) returns (budget': int)
    requires ptr != arr2 && ptr != ftab && n == |b| <= 900_000 && n <= ptr.Length
    requires Holds(arr2[..], b, q) && QuadrantsOrder(b, q) && sb < 65536
    requires Table(Pairs(b), ftab[..], mark) && Progress(b, ptr[..n], mark) && !mark[sb]
    modifies ptr
    ensures budget' <= budget
    ensures budget >= 0 && budget' >= 0 ==> Progress(b, ptr[..n], mark) && InOrder(b, ptr[..n], sb)
  {
    hide *;
    ghost var d, s0 := Pairs(b), ptr[..];
    TableRead(d, ftab[..], mark, sb);
    TableRead(d, ftab[..], mark, sb + 1);
    PairsBelow(b);
    budget' := budget;
    var lo: nat := Unmasked(ftab[sb]);
    var hi: int := Unmasked(ftab[sb + 1]) as int - 1;
    if hi > lo {
      ProgressIs(b, s0[..n], mark);
      BucketShares(b, s0[..n], sb);
      PrefixSharing(b, s0, n, lo, hi, 2);
      budget' := MainQuickSort.QSort3(ptr, arr2, n, lo, hi, 2, budget, b, q);
      PrefixPermuted(s0, ptr[..], lo, hi, n);
      ProgressRearranged(b, s0[..n], ptr[..][..n], mark, sb);
      assert ptr[..n] == ptr[..][..n] && s0[..n] == old(ptr[..n]);
      if budget' >= 0 {
        PrefixOrdered(ptr[..], Keys(b), n, lo, hi);
        InOrderOf(b, ptr[..n], sb);
      }
    } else {
      InOrderShort(b, ptr[..n], sb);
    }
  }

  method MarkSmall(ftab: array<UInt32>, sb: nat, ghost d: seq<nat>, ghost mark: seq<bool>)
    requires sb < 65536 && Table(d, ftab[..], mark)
    modifies ftab
    ensures |mark| == 65536 && Table(d, ftab[..], mark[sb := true])
  {
    hide *;
    ghost var t: seq<nat> := ftab[..];
    TableRead(d, t, mark, sb);
    TableMark(d, t, mark, sb);
    ftab[sb] := Masked(ftab[sb]);
    assert ftab[..] == t[sb := Masked(t[sb])];
  }

  lemma {:induction false} MarkOne(b: seq<Byte>, p: seq<nat>, mark: seq<bool>, c: nat)
    requires Progress(b, p, mark) && c < 65536 && (mark[c] || InOrder(b, p, c))
    ensures Progress(b, p, mark[c := true]) && MarksGrow(mark, mark[c := true])
  {
    hide InOrder, Bucketed;
    if mark[c] { ProgressAt(b, p, mark, c); }
    ProgressMark(b, p, mark, c);
  }

  lemma SmallNumber(s: Byte, j: nat)
    requires j < 256
    ensures 256 * (s as int) + j < 65536 && s * 256 + j == 256 * (s as int) + j
  {
  }

  /** Step 1: sorts every small bucket of ss that is not in order yet, except (ss, ss). */
  method SortRow(ptr: array<UInt32>, arr2: array<UInt32>, ftab: array<UInt32>, n: nat, ss: Byte, budget: int,
                 ghost b: seq<Byte>, ghost q: seq<UInt16>, ghost mark0: seq<bool>)
    returns (budget': int, ghost mark: seq<bool>)
    requires ptr != arr2 && ptr != ftab && ftab != arr2 && n == |b| <= 900_000 && n <= ptr.Length && budget >= 0
    requires Holds(arr2[..], b, q) && QuadrantsOrder(b, q)
    requires Table(Pairs(b), ftab[..], mark0) && Progress(b, ptr[..n], mark0)
    modifies ptr, ftab
    ensures budget' <= budget
    ensures budget' >= 0 ==> Table(Pairs(b), ftab[..], mark) && Progress(b, ptr[..n], mark)
    ensures budget' >= 0 ==> RowMarked(mark, ss, 256) && MarksGrow(mark0, mark)
  {
    hide *;
    ghost var d := Pairs(b);
    budget' := budget;
    mark := mark0;
    TableRead(d, ftab[..], mark, 0);
    RowStart(mark, ss);
    for j := 0 to 256
      invariant 0 <= budget' <= budget
      invariant Table(d, ftab[..], mark) && Progress(b, ptr[..n], mark) && |mark| == 65536 && ftab.Length == 65537
      invariant RowMarked(mark, ss, j) && MarksGrow(mark0, mark)
    {
      if j != ss {
        SmallNumber(ss, j);
        var sb := ss * 256 + j;
        TableRead(d, ftab[..], mark, sb);
        if !HasMask(ftab[sb]) {
          budget' := SortSmall(ptr, arr2, ftab, n, sb, budget', b, q, mark);
          if budget' < 0 { return; }
        }
        MarkOne(b, ptr[..n], mark, sb);
        RowMore(mark, ss, j, sb);
        MarksTrans(mark0, mark, mark[sb := true]);
        MarkSmall(ftab, sb, d, mark);
        mark := mark[sb := true];
      } else {
        RowSkip(mark, ss, j);
      }
    }
  }

  /* ---- step 2: the scans ---- */

  ghost predicate CopyLimits(d: seq<nat>, s: Byte, cs: seq<int>, ce: seq<int>, j: nat) {
    && |cs| == |ce| == 256
    && forall c: Byte :: c < j ==> cs[c] == SmallStart(d, c, s) && ce[c] == SmallEnd(d, c, s) - 1
  }

  method SetLimits(ftab: array<UInt32>, ss: Byte, copyStart: array<int>, copyEnd: array<int>, ghost d: seq<nat>,
                   ghost mark: seq<bool>)
    requires copyStart.Length == copyEnd.Length == 256 && copyStart != copyEnd && Table(d, ftab[..], mark)
    modifies copyStart, copyEnd
    ensures CopyLimits(d, ss, copyStart[..], copyEnd[..], 256)
  {
    for j := 0 to 256
      invariant Table(d, ftab[..], mark)
      invariant CopyLimits(d, ss, copyStart[..], copyEnd[..], j)
    {
      hide Table, Less, Count;
      TableRead(d, ftab[..], mark, j * 256 + ss);
      TableRead(d, ftab[..], mark, j * 256 + ss + 1);
      copyStart[j] := Unmasked(ftab[j * 256 + ss]);
      copyEnd[j] := Unmasked(ftab[j * 256 + ss + 1]) as int - 1;
    }
  }

  lemma PrefixUpdate(s: seq<nat>, n: nat, k: nat, v: nat)
    requires k < n <= |s|
    ensures s[k := v][..n] == s[..n][k := v]
  {
  }

  lemma {:induction false} MiddleForward(b: seq<Byte>, done: seq<bool>, p0: seq<nat>, p: seq<nat>, s: Byte,
                                         cs: seq<int>, ce: seq<int>, j: int, jb: int, c: Byte, v: nat)
    requires Sweep(b, done, p0, p, s, cs, ce, j, jb) && |cs| == |ce| == 256 && MiddleKept(p0, p, cs[s], ce[s])
    requires 0 <= cs[c] < |p| && SmallStart(Pairs(b), c, s) <= cs[c] < SmallEnd(Pairs(b), c, s)
    ensures MiddleKept(p0, p[cs[c] := v], cs[c := cs[c] + 1][s], ce[s])
  {
    hide *;
    SweepBounds(b, done, p0, p, s, cs, ce, j, jb);
    if c != s {
      SweepFill(b, done, p0, p, s, cs, ce, j, jb, s);
      FillBounds(b, p, s, cs[s], ce[s], s, Slice(p, BigStart(Pairs(b), s), j), Slice(p, jb + 1, BigEnd(Pairs(b), s)));
      SlotApart(Pairs(b), c, s, cs[c], s);
    }
    MiddleMoves(p0, p, cs[s], ce[s], cs[c := cs[c] + 1][s], ce[s], cs[c], v);
  }

  lemma {:induction false} MiddleBackward(b: seq<Byte>, done: seq<bool>, p0: seq<nat>, p: seq<nat>, s: Byte,
                                          cs: seq<int>, ce: seq<int>, j: int, jb: int, c: Byte, v: nat)
    requires Sweep(b, done, p0, p, s, cs, ce, j, jb) && |cs| == |ce| == 256 && MiddleKept(p0, p, cs[s], ce[s])
    requires 0 <= ce[c] < |p| && SmallStart(Pairs(b), c, s) <= ce[c] < SmallEnd(Pairs(b), c, s)
    ensures MiddleKept(p0, p[ce[c] := v], cs[s], ce[c := ce[c] - 1][s])
  {
    hide *;
    SweepBounds(b, done, p0, p, s, cs, ce, j, jb);
    if c != s {
      SweepFill(b, done, p0, p, s, cs, ce, j, jb, s);
      FillBounds(b, p, s, cs[s], ce[s], s, Slice(p, BigStart(Pairs(b), s), j), Slice(p, jb + 1, BigEnd(Pairs(b), s)));
      SlotApart(Pairs(b), c, s, ce[c], s);
    }
    MiddleMoves(p0, p, cs[s], ce[s], cs[s], ce[c := ce[c] - 1][s], ce[c], v);
  }

  lemma PrevIs(n: nat, i: nat)
    requires i < n
    ensures Prev(n, i) == if i == 0 then n - 1 else i - 1
  {
  }

  /** The position before ptr[j], and the byte it holds. */
  method StepBack(arr2: array<UInt32>, pos: UInt32, n: nat, ghost b: seq<Byte>, ghost q: seq<UInt16>)
    returns (k: UInt32, c1: Byte)
    requires n == |b| < 0x1_0000_0000 && pos < n && Holds(arr2[..], b, q)
    ensures k == Prev(n, pos) && c1 == b[Prev(n, pos)]
  {
    hide *;
    PrevIs(n, pos);
    var k': int := pos as int - 1;
    if k' < 0 { k' := k' + n; }
    k := k';
    FoldIs(n, k);
    c1 := ByteAt(arr2, k, n, b, q);
  }

  method ScanForward(ptr: array<UInt32>, arr2: array<UInt32>, n: nat, ss: Byte, start: nat, bigDone: array<bool>,
                     copyStart: array<int>, copyEnd: array<int>, ghost b: seq<Byte>, ghost q: seq<UInt16>,
                     ghost p0: seq<nat>)
    requires ptr != arr2 && copyStart != copyEnd && n == |b| < 0x1_0000_0000 && n <= ptr.Length && Holds(arr2[..], b, q)
    requires copyStart.Length == copyEnd.Length == bigDone.Length == 256 && start == BigStart(Pairs(b), ss)
    requires Sweep(b, bigDone[..], p0, ptr[..n], ss, copyStart[..], copyEnd[..], start, BigEnd(Pairs(b), ss) - 1)
    requires MiddleKept(p0, ptr[..n], copyStart[ss], copyEnd[ss])
    modifies ptr, copyStart
    ensures Sweep(b, bigDone[..], p0, ptr[..n], ss, copyStart[..], copyEnd[..], copyStart[ss], BigEnd(Pairs(b), ss) - 1)
    ensures MiddleKept(p0, ptr[..n], copyStart[ss], copyEnd[ss])
  {
    hide *;
    ghost var done, ce, jb := bigDone[..], copyEnd[..], BigEnd(Pairs(b), ss) - 1;
    var j := start;
    SweepBounds(b, done, p0, ptr[..n], ss, copyStart[..], ce, j, jb);
    while j < copyStart[ss]
      invariant bigDone[..] == done && copyEnd[..] == ce && arr2[..] == old(arr2[..])
      invariant Sweep(b, done, p0, ptr[..n], ss, copyStart[..], ce, j, jb) && j <= copyStart[ss] <= n
      invariant MiddleKept(p0, ptr[..n], copyStart[ss], ce[ss])
      decreases n - j
    {
      ghost var all: seq<nat>, cs := ptr[..], copyStart[..];
      ghost var p := all[..n];
      assert p == ptr[..n];
      SweepBounds(b, done, p0, p, ss, cs, ce, j, jb);
      ForwardReads(b, done, p0, p, ss, cs, ce, j, jb);
      var k, c1 := StepBack(arr2, ptr[j], n, b, q);
      if !bigDone[c1] {
        ForwardRoom(b, done, p0, p, ss, cs, ce, j, jb, c1);
        ForwardStep(b, done, p0, p, ss, cs, ce, j, jb, c1);
        MiddleForward(b, done, p0, p, ss, cs, ce, j, jb, c1, k);
        PrefixUpdate(all, n, cs[c1], k);
        ptr[copyStart[c1]] := k;
        copyStart[c1] := copyStart[c1] + 1;
        assert ptr[..] == all[cs[c1] := k] && ptr[..n] == ptr[..][..n] && copyStart[..] == cs[c1 := cs[c1] + 1];
      } else {
        ForwardSkip(b, done, p0, p, ss, cs, ce, j, jb);
      }
      j := j + 1;
      SweepBounds(b, done, p0, ptr[..n], ss, copyStart[..], ce, j, jb);
    }
  }

  method ScanBackward(ptr: array<UInt32>, arr2: array<UInt32>, n: nat, ss: Byte, end: nat, bigDone: array<bool>,
                      copyStart: array<int>, copyEnd: array<int>, ghost b: seq<Byte>, ghost q: seq<UInt16>,
                      ghost p0: seq<nat>)
    requires ptr != arr2 && copyStart != copyEnd && n == |b| < 0x1_0000_0000 && n <= ptr.Length && Holds(arr2[..], b, q)
    requires copyStart.Length == copyEnd.Length == bigDone.Length == 256 && end == BigEnd(Pairs(b), ss)
    requires Sweep(b, bigDone[..], p0, ptr[..n], ss, copyStart[..], copyEnd[..], copyStart[ss], end - 1)
    requires MiddleKept(p0, ptr[..n], copyStart[ss], copyEnd[ss])
    modifies ptr, copyEnd
    ensures Sweep(b, bigDone[..], p0, ptr[..n], ss, copyStart[..], copyEnd[..], copyStart[ss], copyEnd[ss])
    ensures MiddleKept(p0, ptr[..n], copyStart[ss], copyEnd[ss])
  {
    hide *;
    ghost var done, cs := bigDone[..], copyStart[..];
    var j: int := end - 1;
    SweepBounds(b, done, p0, ptr[..n], ss, cs, copyEnd[..], cs[ss], j);
    while j > copyEnd[ss]
      invariant bigDone[..] == done && copyStart[..] == cs && arr2[..] == old(arr2[..])
      invariant Sweep(b, done, p0, ptr[..n], ss, cs, copyEnd[..], cs[ss], j) && -1 <= copyEnd[ss] <= j
      invariant MiddleKept(p0, ptr[..n], cs[ss], copyEnd[ss])
      decreases j + 1
    {
      ghost var all: seq<nat>, ce := ptr[..], copyEnd[..];
      ghost var p := all[..n];
      assert p == ptr[..n];
      SweepBounds(b, done, p0, p, ss, cs, ce, cs[ss], j);
      BackwardReads(b, done, p0, p, ss, cs, ce, cs[ss], j);
      var k, c1 := StepBack(arr2, ptr[j], n, b, q);
      if !bigDone[c1] {
        BackwardRoom(b, done, p0, p, ss, cs, ce, cs[ss], j, c1);
        BackwardStep(b, done, p0, p, ss, cs, ce, cs[ss], j, c1);
        MiddleBackward(b, done, p0, p, ss, cs, ce, cs[ss], j, c1, k);
        PrefixUpdate(all, n, ce[c1], k);
        ptr[copyEnd[c1]] := k;
        copyEnd[c1] := copyEnd[c1] - 1;
        assert ptr[..] == all[ce[c1] := k] && ptr[..n] == ptr[..][..n] && copyEnd[..] == ce[c1 := ce[c1] - 1];
      } else {
        BackwardSkip(b, done, p0, p, ss, cs, ce, cs[ss], j);
      }
      j := j - 1;
      SweepBounds(b, done, p0, ptr[..n], ss, cs, copyEnd[..], cs[ss], j);
    }
  }

  lemma {:induction false} RowSorted(b: seq<Byte>, p: seq<nat>, mark: seq<bool>, s: Byte)
    requires Progress(b, p, mark) && RowMarked(mark, s, 256)
    ensures forall t: Byte :: t != s ==> SmallSorted(b, p, s, t)
  {
    hide InOrder, SmallSorted, Bucketed;
    forall t: Byte | t != s ensures SmallSorted(b, p, s, t) {
      assert Marked(mark, s, t);
      ProgressAt(b, p, mark, 256 * (s as int) + t);
      InOrderIs(b, p, s, t);
    }
  }

  lemma {:induction false} MiddleStart(p: seq<nat>, lo: int, hi: int)
    ensures MiddleKept(p, p, lo, hi)
  {
  }

  lemma {:induction false} LimitsAre(d: seq<nat>, s: Byte, cs: seq<int>, ce: seq<int>)
    requires CopyLimits(d, s, cs, ce, 256)
    ensures |cs| == |ce| == 256
    ensures forall c: Byte :: cs[c] == SmallStart(d, c, s) && ce[c] == SmallEnd(d, c, s) - 1
  {
  }

  /** The buckets of a byte that is done are marked, whichever of the two bytes it is. */
  ghost predicate DoneMarked(mark: seq<bool>, done: seq<bool>) {
    && |mark| == 65536 && |done| == 256
    && forall c: Byte, s: Byte :: done[c] || done[s] ==> Marked(mark, c, s)
  }

  lemma BigSpans(d: seq<nat>, c: Byte)
    ensures BigStart(d, c) == Less(d, 256 * (c as int)) && BigEnd(d, c) == Less(d, 256 * (c as int) + 256)
    ensures BigStart(d, c) <= BigEnd(d, c) <= |d|
  {
    Layout(d, c, 0);
  }

  /** Step 2: scans the big bucket ss from both ends. */
  method ScanBig(ptr: array<UInt32>, arr2: array<UInt32>, ftab: array<UInt32>, n: nat, ss: Byte, bigDone: array<bool>,
                 ghost b: seq<Byte>, ghost q: seq<UInt16>, ghost mark: seq<bool>)
    requires ptr != arr2 && ptr != ftab && 1 < n == |b| <= 900_000 && n <= ptr.Length && Holds(arr2[..], b, q)
    requires bigDone.Length == 256 && !bigDone[ss] && Table(Pairs(b), ftab[..], mark)
    requires Progress(b, ptr[..n], mark) && RowMarked(mark, ss, 256) && DoneMarked(mark, bigDone[..])
    modifies ptr
    ensures Progress(b, ptr[..n], mark) && forall c: Byte :: SmallSorted(b, ptr[..n], c, ss)
  {
    hide *;
    ghost var d, p0, done := Pairs(b), ptr[..n], bigDone[..];
    var copyStart, copyEnd := new int[256], new int[256];
    SetLimits(ftab, ss, copyStart, copyEnd, d, mark);
    LimitsAre(d, ss, copyStart[..], copyEnd[..]);
    ProgressIs(b, p0, mark);
    RowSorted(b, p0, mark, ss);
    SweepStarts(b, done, p0, ss, copyStart[..], copyEnd[..]);
    MiddleStart(p0, copyStart[ss], copyEnd[ss]);
    BigSpans(d, ss);
    SmallNumber(ss, 0);
    TableRead(d, ftab[..], mark, ss * 256);
    TableRead(d, ftab[..], mark, (ss + 1) * 256);
    var start, end := Unmasked(ftab[ss * 256]), Unmasked(ftab[(ss + 1) * 256]);
    ScanForward(ptr, arr2, n, ss, start, bigDone, copyStart, copyEnd, b, q, p0);
    ScanBackward(ptr, arr2, n, ss, end, bigDone, copyStart, copyEnd, b, q, p0);
    SweepEnds(b, done, p0, ptr[..n], ss, copyStart[..], copyEnd[..]);
    assert EndsMeet(n, copyStart[ss], copyEnd[ss]);
    DoneColumn(mark, done, ss);
    ProgressScanned(b, done, p0, ptr[..n], mark, ss);
  }

  lemma {:induction false} DoneColumn(mark: seq<bool>, done: seq<bool>, s: Byte)
    requires DoneMarked(mark, done)
    ensures |mark| == 65536 && |done| == 256 && forall c: Byte :: done[c] ==> mark[256 * (c as int) + s]
  {
    forall c: Byte | done[c] ensures mark[256 * (c as int) + s] { assert Marked(mark, c, s); }
  }

  ghost predicate ColumnMarked(mark: seq<bool>, s: Byte, j: nat) {
    |mark| == 65536 && forall c: Byte :: c < j ==> Marked(mark, c, s)
  }

  lemma {:induction false} ColumnMore(mark: seq<bool>, s: Byte, j: nat, c: nat)
    requires ColumnMarked(mark, s, j) && j < 256 && c == 256 * j + s
    ensures c < 65536 && ColumnMarked(mark[c := true], s, j + 1) && MarksGrow(mark, mark[c := true])
  {
    var mark' := mark[c := true];
    forall e: Byte | e < j + 1 ensures Marked(mark', e, s) { MarkedSet(mark, j, s, e, s); }
  }

  lemma {:induction false} MarkedGrows(mark: seq<bool>, mark': seq<bool>, c: Byte, s: Byte)
    requires MarksGrow(mark, mark') && Marked(mark, c, s)
    ensures Marked(mark', c, s)
  {
  }

  lemma {:induction false} DoneMore(mark0: seq<bool>, mark1: seq<bool>, mark: seq<bool>, done: seq<bool>, s: Byte)
    requires DoneMarked(mark0, done) && MarksGrow(mark0, mark1) && RowMarked(mark1, s, 256)
    requires MarksGrow(mark1, mark) && ColumnMarked(mark, s, 256)
    ensures DoneMarked(mark, done[s := true])
  {
    var done' := done[s := true];
    hide MarksGrow;
    forall c: Byte, e: Byte | done'[c] || done'[e] ensures Marked(mark, c, e) {
      if done[c] || done[e] {
        MarkedGrows(mark0, mark1, c, e);
        MarkedGrows(mark1, mark, c, e);
      } else if c == s && e != s {
        assert Marked(mark1, s, e);
        MarkedGrows(mark1, mark, c, e);
      } else {
        assert Marked(mark, c, s);
      }
    }
  }

  lemma {:induction false} ColumnStart(mark: seq<bool>, s: Byte)
    requires |mark| == 65536
    ensures ColumnMarked(mark, s, 0) && MarksGrow(mark, mark)
  {
  }

  method MarkColumn(ftab: array<UInt32>, ss: Byte, ghost b: seq<Byte>, ghost p: seq<nat>, ghost mark0: seq<bool>)
    returns (ghost mark: seq<bool>)
    requires Table(Pairs(b), ftab[..], mark0) && Progress(b, p, mark0) && forall c: Byte :: SmallSorted(b, p, c, ss)
    modifies ftab
    ensures Table(Pairs(b), ftab[..], mark) && Progress(b, p, mark) && ColumnMarked(mark, ss, 256)
    ensures MarksGrow(mark0, mark)
  {
    hide *;
    mark := mark0;
    TableRead(Pairs(b), ftab[..], mark, 0);
    ColumnStart(mark, ss);
    for j := 0 to 256
      invariant |mark| == 65536 && Table(Pairs(b), ftab[..], mark) && Progress(b, p, mark)
      invariant ColumnMarked(mark, ss, j) && MarksGrow(mark0, mark)
    {
      var sb := j * 256 + ss;
      ColumnMore(mark, ss, j, sb);
      InOrderIs(b, p, j, ss);
      assert SmallSorted(b, p, j, ss);
      MarkOne(b, p, mark, sb);
      MarksTrans(mark0, mark, mark[sb := true]);
      MarkSmall(ftab, sb, Pairs(b), mark);
      mark := mark[sb := true];
    }
  }

  /* ---- step 3: the quadrants of one big bucket ---- */

  /** x shifted right by k bits. */
  function Shr(x: nat, k: nat): (r: nat)
    ensures r <= x
  {
    if k == 0 then x else Shr(x, k - 1) / 2
  }

  lemma {:induction false} ShrOrder(x: nat, y: nat, k: nat)
    requires x <= y
    ensures Shr(x, k) <= Shr(y, k)
  {
    if k > 0 { ShrOrder(x, y, k - 1); }
  }

  /** The entries start + k, for k from j on, have their quadrants; other bytes keep theirs. */
  ghost predicate Ranked(b: seq<Byte>, p: seq<nat>, q0: seq<UInt16>, q: seq<UInt16>, s: Byte, start: nat, size: nat,
                         j: int, shifts: nat)
  {
    && |q| == |q0| == |b| && start + size <= |p| && Injective(p)
    && (forall k :: start <= k < start + size ==> p[k] < |b| && b[p[k]] == s)
    && (forall k :: start + j <= k < start + size && start <= k ==> q[p[k]] == Shr(k - start, shifts))
    && (forall x :: 0 <= x < |b| && b[x] != s ==> q[x] == q0[x])
  }

  lemma RankedStart(b: seq<Byte>, p: seq<nat>, q: seq<UInt16>, s: Byte, shifts: nat)
    requires Bucketed(Pairs(b), p) && |q| == |b|
    ensures Ranked(b, p, q, q, s, BigStart(Pairs(b), s), BigSize(Pairs(b), s), BigSize(Pairs(b), s), shifts)
  {
    BigSpans(Pairs(b), s);
    forall k | BigStart(Pairs(b), s) <= k < BigStart(Pairs(b), s) + BigSize(Pairs(b), s)
      ensures k < |p| && p[k] < |b| && b[p[k]] == s
    {
      BigSlot(b, p, s, k);
    }
    BucketedIs(Pairs(b), p);
  }

  lemma RankedStep(b: seq<Byte>, p: seq<nat>, q0: seq<UInt16>, q: seq<UInt16>, s: Byte, start: nat, size: nat, j: nat,
                   shifts: nat, v: UInt16)
    requires Ranked(b, p, q0, q, s, start, size, j + 1, shifts) && j < size && v == Shr(j, shifts)
    ensures start + j < |p| && p[start + j] < |b| == |q|
    ensures Ranked(b, p, q0, q[p[start + j] := v], s, start, size, j, shifts)
  {
    var a := p[start + j];
    forall k | start + j < k < start + size ensures p[k] != a { assert start + j < k < |p|; }
  }

  lemma RankedOrder(b: seq<Byte>, p: seq<nat>, q0: seq<UInt16>, q: seq<UInt16>, s: Byte, shifts: nat)
    requires Bucketed(Pairs(b), p) && QuadrantsOrder(b, q0) && forall t: Byte :: SmallSorted(b, p, s, t)
    requires Ranked(b, p, q0, q, s, BigStart(Pairs(b), s), BigSize(Pairs(b), s), 0, shifts)
    ensures QuadrantsOrder(b, q)
  {
    var d := Pairs(b);
    var start, size := BigStart(d, s), BigSize(d, s);
    BigSpans(d, s);
    hide Bucketed, SmallSorted, BigStart, BigEnd, BigSize, NotAfter;
    forall x, y | 0 <= x < |b| && 0 <= y < |b| && b[x] == b[y] && q[x] < q[y] ensures NotAfter(b, x, y) {
      if b[x] == s {
        var k := BigFind(b, p, s, x);
        var l := BigFind(b, p, s, y);
        assert start <= k && start <= l;
        if l <= k { ShrOrder(l - start, k - start, shifts); }
        BigOrder(b, p, s, k, l);
      } else {
        assert q[x] == q0[x] && q[y] == q0[y];
      }
    }
  }

  lemma BigFind(b: seq<Byte>, p: seq<nat>, s: Byte, x: nat) returns (k: nat)
    requires Bucketed(Pairs(b), p) && x < |b| && b[x] == s
    ensures BigStart(Pairs(b), s) <= k < BigStart(Pairs(b), s) + BigSize(Pairs(b), s) && k < |p| && p[k] == x
  {
    var d, S := Pairs(b), s as int;
    BucketedIs(d, p);
    k := Find(p, |b|, x);
    BucketedAt(d, p, k);
    PairIs(b, x);
    LessGrows(d, 256 * S, d[x]);
    LessGrows(d, d[x] + 1, 256 * S + 256);
  }

  lemma HoldsQuadrant(words: seq<UInt32>, words': seq<UInt32>, b: seq<Byte>, q: seq<UInt16>, a: nat, v: UInt16)
    requires Holds(words, b, q) && a < |b| && AreaFits(words', |b|)
    requires BlockView(words', |b|) == BlockView(words, |b|)
    requires QuadrantView(words', |b|) ==
      (if a < 34 then QuadrantView(words, |b|)[a := v][a + |b| := v] else QuadrantView(words, |b|)[a := v])
    ensures |q| == |b| && Holds(words', b, q[a := v])
  {
    var q' := q[a := v];
    var w := Wrapped(q');
    hide BlockView, QuadrantView;
    var v' := QuadrantView(words', |b|);
    forall k | 0 <= k < |b| + 34 ensures v'[k] == w[k] {
      if k < |b| {
        assert w[k] == q'[k] && Wrapped(q)[k] == q[k];
      } else {
        assert w[k] == q'[k - |b|] && Wrapped(q)[k] == q[k - |b|];
      }
    }
    assert v' == w;
  }

  method PutRank(arr2: array<UInt32>, a: nat, v: UInt16, n: nat, ghost b: seq<Byte>, ghost q: seq<UInt16>)
    requires n == |b| && Holds(arr2[..], b, q) && a < n
    modifies arr2
    ensures |q| == n && Holds(arr2[..], b, q[a := v])
  {
    hide *;
    ghost var words := arr2[..];
    HoldsSize(words, b, q);
    Overshoot();
    PutQuadrant(arr2, a, v, n);
    if a < BZ_N_OVERSHOOT { PutQuadrant(arr2, a + n, v, n); }
    HoldsQuadrant(words, arr2[..], b, q, a, v);
  }

  /** Step 3: the ranks within the big bucket ss become quadrants, scaled to 16 bits. */
  method UpdateQuadrants(arr2: array<UInt32>, ptr: array<UInt32>, n: nat, ss: Byte, bbStart: nat, bbSize: nat,
                         ghost b: seq<Byte>, ghost q0: seq<UInt16>)
    returns (ghost q: seq<UInt16>)
    requires ptr != arr2 && n == |b| && n <= ptr.Length && Holds(arr2[..], b, q0) && QuadrantsOrder(b, q0)
    requires Bucketed(Pairs(b), ptr[..n]) && forall t: Byte :: SmallSorted(b, ptr[..n], ss, t)
    requires bbStart == BigStart(Pairs(b), ss) && bbSize == BigSize(Pairs(b), ss)
    modifies arr2
    ensures Holds(arr2[..], b, q) && QuadrantsOrder(b, q)
  {
    hide *;
    ghost var p := ptr[..n];
    HoldsSize(arr2[..], b, q0);
    var shifts: nat := 0;
    while Shr(bbSize, shifts) > 65534
      invariant arr2[..] == old(arr2[..]) && ptr[..n] == p
      decreases Shr(bbSize, shifts)
    {
      ShrHalves(bbSize, shifts);
      shifts := shifts + 1;
    }
    q := q0;
    RankedStart(b, p, q0, ss, shifts);
    var j: int := bbSize - 1;
    while j >= 0
      invariant -1 <= j < bbSize && ptr[..n] == p
      invariant Holds(arr2[..], b, q) && Ranked(b, p, q0, q, ss, bbStart, bbSize, j + 1, shifts)
    {
      ShrOrder(j, bbSize, shifts);
      var qVal: UInt16 := Shr(j, shifts);
      RankedStep(b, p, q0, q, ss, bbStart, bbSize, j, shifts, qVal);
      var a2update := ptr[bbStart + j];
      assert a2update == p[bbStart + j];
      PutRank(arr2, a2update, qVal, n, b, q);
      q := q[a2update := qVal];
      j := j - 1;
    }
    RankedOrder(b, p, q0, q, ss, shifts);
  }

  lemma ShrHalves(x: nat, k: nat)
    ensures Shr(x, k + 1) == Shr(x, k) / 2
  {
  }

  /* ---- the whole sort ---- */

  /** The big buckets taken so far are those marked as done. */
  ghost predicate Taken(order: seq<nat>, done: seq<bool>, i: nat) {
    && IsPermutation(order, 256) && |done| == 256
    && (forall k :: 0 <= k < i && k < 256 ==> done[order[k]])
    && (forall k :: i <= k < 256 ==> !done[order[k]])
  }

  lemma {:induction false} TakenStart(order: seq<nat>, done: seq<bool>)
    requires IsPermutation(order, 256) && |done| == 256 && forall k :: 0 <= k < 256 ==> !done[k]
    ensures Taken(order, done, 0)
  {
  }

  lemma {:induction false} TakenNext(order: seq<nat>, done: seq<bool>, i: nat)
    requires Taken(order, done, i) && i < 256
    ensures |order| == |done| == 256 && order[i] < 256 && !done[order[i]] && Taken(order, done[order[i] := true], i + 1)
  {
    forall k | i + 1 <= k < 256 ensures order[k] != order[i] { assert i < k < 256; }
  }

  lemma {:induction false} TakenAll(order: seq<nat>, done: seq<bool>, mark: seq<bool>)
    requires Taken(order, done, 256) && DoneMarked(mark, done)
    ensures |mark| == 65536 && forall c :: 0 <= c < 65536 ==> mark[c]
  {
    forall c | 0 <= c < 65536 ensures mark[c] {
      var hi: Byte, lo: Byte := c / 256, c % 256;
      var k := Find(order, 256, hi);
      assert done[order[k]];
      assert Marked(mark, hi, lo);
      DivMod(c, 256);
    }
  }

  lemma {:induction false} NoneDone(mark: seq<bool>, done: seq<bool>)
    requires |mark| == 65536 && |done| == 256 && forall k :: 0 <= k < 256 ==> !done[k]
    ensures DoneMarked(mark, done)
  {
  }

  lemma ZerosOrder(b: seq<Byte>)
    ensures |Zeros(|b|)| == |b| && QuadrantsOrder(b, Zeros(|b|))
  {
  }

  lemma StartsIs(d: seq<nat>, ftab: seq<nat>)
    requires |ftab| == 65537 && Below(d, 65536) && ftab[65536] == |d| && forall c :: 0 <= c < 65536 ==>
      ftab[c] == Less(d, c)
    ensures Starts(d, ftab)
  {
  }

  ghost function Unset(n: nat): (r: seq<bool>)
    ensures |r| == n && forall k :: 0 <= k < n ==> !r[k]
  {
    seq(n, k => false)
  }

  /** One big bucket: steps 1 and 2, and the marks. */
  method SortBig(ptr: array<UInt32>, arr2: array<UInt32>, ftab: array<UInt32>, n: nat, ss: Byte, bigDone: array<bool>,
                 budget: int, ghost b: seq<Byte>, ghost q: seq<UInt16>, ghost mark0: seq<bool>)
    returns (budget': int, ghost mark: seq<bool>)
    requires ptr != arr2 && ptr != ftab && ftab != arr2 && 1 < n == |b| <= 900_000 && n <= ptr.Length && budget >= 0
    requires Holds(arr2[..], b, q) && QuadrantsOrder(b, q) && bigDone.Length == 256 && !bigDone[ss]
    requires Table(Pairs(b), ftab[..], mark0) && Progress(b, ptr[..n], mark0) && DoneMarked(mark0, bigDone[..])
    modifies ptr, ftab, bigDone
    ensures budget' <= budget
    ensures budget' >= 0 ==> Table(Pairs(b), ftab[..], mark) && Progress(b, ptr[..n], mark)
    ensures budget' >= 0 ==> DoneMarked(mark, bigDone[..])
    ensures budget' >= 0 ==> bigDone[..] == old(bigDone[..])[ss := true]
    ensures budget' >= 0 ==> forall t: Byte :: SmallSorted(b, ptr[..n], ss, t)
  {
    hide *;
    ghost var done := bigDone[..];
    ghost var mark1;
    budget', mark1 := SortRow(ptr, arr2, ftab, n, ss, budget, b, q, mark0);
    mark := mark1;
    if budget' < 0 { return; }
    DoneGrows(mark0, mark1, done);
    ScanBig(ptr, arr2, ftab, n, ss, bigDone, b, q, mark1);
    ghost var p := ptr[..n];
    mark := MarkColumn(ftab, ss, b, p, mark1);
    DoneMore(mark0, mark1, mark, done, ss);
    bigDone[ss] := true;
    assert bigDone[..] == done[ss := true];
    WholeRow(b, p, mark, done[ss := true], ss);
  }

  lemma {:induction false} DoneGrows(mark0: seq<bool>, mark1: seq<bool>, done: seq<bool>)
    requires DoneMarked(mark0, done) && MarksGrow(mark0, mark1)
    ensures DoneMarked(mark1, done)
  {
    forall c: Byte, s: Byte | done[c] || done[s] ensures Marked(mark1, c, s) { MarkedGrows(mark0, mark1, c, s); }
  }

  lemma {:induction false} WholeRow(b: seq<Byte>, p: seq<nat>, mark: seq<bool>, done: seq<bool>, s: Byte)
    requires Progress(b, p, mark) && DoneMarked(mark, done) && |done| == 256 && done[s]
    ensures forall t: Byte :: SmallSorted(b, p, s, t)
  {
    hide Progress, SmallSorted, InOrder;
    forall t: Byte ensures SmallSorted(b, p, s, t) {
      assert Marked(mark, s, t);
      ProgressAt(b, p, mark, 256 * (s as int) + t);
      InOrderIs(b, p, s, t);
    }
  }

  /** Sorts all rotations of the block, unless the budget runs out; the block itself stays as it is. */
  method Sort(ptr: array<UInt32>, arr2: array<UInt32>, ftab: array<UInt32>, n: nat, budget: int, ghost b: seq<Byte>)
    returns (budget': int)
    requires ptr != arr2 && ptr != ftab && ftab != arr2 && 34 < n == |b| <= 900_000 && n <= ptr.Length
    requires ftab.Length == 65537
    requires AreaFits(arr2[..], n) && ByteView(arr2[..], n) == b && budget >= 0
    modifies ptr, arr2, ftab
    ensures AreaFits(arr2[..], n) && ByteView(arr2[..], n) == b && budget' <= budget
    ensures budget' >= 0 ==> SortedRotations(b, ptr[..n])
  {
    hide *;
    ghost var d, q, mark := Pairs(b), Zeros(n), Unset(65536);
    budget' := budget;
    PairsBelow(b);
    InitialBuckets(arr2, ptr, ftab, n, b);
    ZerosOrder(b);
    assert forall c :: 0 <= c < 65536 ==> ftab[..][c] == ftab[c];
    StartsIs(d, ftab[..]);
    MaskIs();
    TableIs(d, ftab[..], mark);
    ProgressStart(b, ptr[..n], mark);
    var runningOrder := RunningOrder(ftab, d);
    ghost var order := runningOrder[..];
    PermutationFacts(order, 256);
    var bigDone := new bool[256](i => false);
    TakenStart(order, bigDone[..]);
    NoneDone(mark, bigDone[..]);
    for i := 0 to 256
      invariant 0 <= budget' <= budget && runningOrder[..] == order && |order| == 256 && bigDone.Length == 256
      invariant Holds(arr2[..], b, q) && QuadrantsOrder(b, q)
      invariant Table(d, ftab[..], mark) && Progress(b, ptr[..n], mark)
      invariant Taken(order, bigDone[..], i) && DoneMarked(mark, bigDone[..])
    {
      ghost var done := bigDone[..];
      TakenNext(order, done, i);
      var ss: Byte := runningOrder[i];
      budget', mark := SortBig(ptr, arr2, ftab, n, ss, bigDone, budget', b, q, mark);
      if budget' < 0 {
        HoldsBlockBytes(arr2[..], b, q);
        return;
      }
      if i < 255 {
        ProgressIs(b, ptr[..n], mark);
        SmallNumber(ss, 0);
        TableRead(d, ftab[..], mark, ss * 256);
        TableRead(d, ftab[..], mark, (ss + 1) * 256);
        BigSpans(d, ss);
        BigSizeIs(d, ss);
        var bbStart: int := Unmasked(ftab[ss * 256]);
        var bbSize: int := Unmasked(ftab[(ss + 1) * 256]) as int - bbStart;
        q := UpdateQuadrants(arr2, ptr, n, ss, bbStart, bbSize, b, q);
      }
    }
    HoldsBlockBytes(arr2[..], b, q);
    TakenAll(order, bigDone[..], mark);
    AllMarked(b, ptr[..n], mark);
  }

  lemma MaskIs()
    ensures SETMASK == 0x20_0000
  {
  }

  lemma BigSizeIs(d: seq<nat>, c: int)
    ensures BigSize(d, c) == BigEnd(d, c) - BigStart(d, c)
  {
  }

  lemma HoldsBlockBytes(words: seq<UInt32>, b: seq<Byte>, q: seq<UInt16>)
    requires Holds(words, b, q)
    ensures AreaFits(words, |b|) && ByteView(words, |b|) == b
  {
    BlockPrefix(words, |b|);
    assert Wrapped(b)[..|b|] == b;
  }
}
