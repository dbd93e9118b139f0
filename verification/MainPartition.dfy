/** The three-way partition of a range of rotations by the byte at a given depth. */
module MainPartition {
  import opened MachineInts
  import opened Permutations
  import opened Rotations
  import opened SortArea
  import opened MainCompare
  import opened FallbackQuickSort
  import opened MainSimpleSort

  /** The byte d places behind each position. */
  ghost function BytesAhead(b: seq<Byte>, d: nat): (r: seq<nat>)
    requires d < |b|
    ensures |r| == |b|
  {
    seq(|b|, i requires 0 <= i < |b| => b[Fold(|b|, i + d)])
  }

  lemma ClassIsByte(b: seq<Byte>, d: nat, s: seq<nat>, lo: int, hi: int, k: nat)
    requires d < |b| && InRange(s, |b|, lo, hi) && lo <= k <= hi && k < |s|
    ensures s[k] < |b| && ClassOf(s, BytesAhead(b, d), k) == b[Fold(|b|, s[k] + d)]
  {
  }

  /** Entries that agree on d bytes are ordered by the byte behind them. */
  lemma ByteAheadDecides(b: seq<Byte>, s: seq<nat>, lo: int, hi: int, d: nat, p: nat, q: nat)
    requires d < |b| && Sharing(b, s, lo, hi, d) && lo <= p <= hi && lo <= q <= hi && p < |s| && q < |s|
    requires ClassOf(s, BytesAhead(b, d), p) < ClassOf(s, BytesAhead(b, d), q)
    ensures ClassOf(s, Keys(b), p) <= ClassOf(s, Keys(b), q)
  {
    ClassIsByte(b, d, s, lo, hi, p);
    ClassIsByte(b, d, s, lo, hi, q);
    AdvanceIs(|b|, s[p], d);
    AdvanceIs(|b|, s[q], d);
    ClassIsKey(b, s, p);
    ClassIsKey(b, s, q);
    FirstByteDecides(b, Fold(|b|, s[p] + d), Fold(|b|, s[q] + d));
    OrderBack(b, s[p], s[q], d);
  }

  lemma ShareOneMore(b: seq<Byte>, s: seq<nat>, lo: int, hi: int, d: nat, med: nat)
    requires d < |b| && Sharing(b, s, lo, hi, d)
    requires forall k :: 0 <= k < |s| && lo <= k <= hi ==> ClassOf(s, BytesAhead(b, d), k) == med
    ensures Sharing(b, s, lo, hi, d + 1)
  {
    forall p, q | 0 <= p < |s| && 0 <= q < |s| && lo <= p <= hi && lo <= q <= hi
      ensures Key(b, s[p], d + 1) == Key(b, s[q], d + 1)
    {
      ClassIsByte(b, d, s, lo, hi, p);
      ClassIsByte(b, d, s, lo, hi, q);
      AdvanceIs(|b|, s[p], d);
      AdvanceIs(|b|, s[q], d);
      OneMoreByte(b, s[p], s[q], d);
    }
  }

  /** The median of three bytes. */
  method Median3(a': Byte, b': Byte, c: Byte) returns (b: Byte)
    ensures exists l, h :: multiset{a', b', c} == multiset{l, b, h} && l <= b <= h
  {
    var a := a';
    b := b';
    if a > b { a, b := b, a; }
    ghost var top := b;
    if b > c {
      b := c;
      if a > b { b := a; }
    }
    ghost var l, h := if top > c && a > c then c else a, if top > c then top else c;
    assert multiset{a', b', c} == multiset{l, b, h} && l <= b <= h;
  }

  lemma MedianIsOne(a: Byte, b: Byte, c: Byte, m: Byte, l: Byte, h: Byte)
    requires multiset{a, b, c} == multiset{l, m, h}
    ensures m == a || m == b || m == c
  {
    assert m in multiset{a, b, c};
  }

  method ReadAhead(ptr: array<UInt32>, arr2: array<UInt32>, n: nat, lo: nat, hi: nat, d: nat, k: nat,
                   ghost b: seq<Byte>, ghost q: seq<UInt16>) returns (v: Byte)
    requires n == |b| && d <= 14 && Holds(arr2[..], b, q) && InRange(ptr[..], n, lo, hi)
    requires lo <= k <= hi < ptr.Length
    ensures d < |b| && v == ClassOf(ptr[..], BytesAhead(b, d), k)
  {
    hide *;
    HoldsSize(arr2[..], b, q);
    ClassIsByte(b, d, ptr[..], lo, hi, k);
    v := ByteAt(arr2, ptr[k] + d, n, b, q);
  }

  method ScanLow(ptr: array<UInt32>, arr2: array<UInt32>, n: nat, lo: nat, hi: nat, d: nat, med: Byte, ltLo0: nat,
                 unLo0: nat, unHi: int,
                 ghost gtHi: int, ghost b: seq<Byte>, ghost q: seq<UInt16>) returns (ltLo: nat, unLo: nat)
    requires ptr != arr2 && n == |b| && d <= 14 && d < n && Holds(arr2[..], b, q)
    requires hi < ptr.Length && InRange(ptr[..], n, lo, hi)
    requires Scanned(ptr[..], BytesAhead(b, d), lo, hi, med, ltLo0, unLo0, unHi, gtHi)
    modifies ptr
    ensures Permuted(old(ptr[..]), ptr[..], lo, hi) && InRange(ptr[..], n, lo, hi)
    ensures Scanned(ptr[..], BytesAhead(b, d), lo, hi, med, ltLo, unLo, unHi, gtHi) && unLo0 <= unLo
    ensures unLo <= unHi ==> ClassOf(ptr[..], BytesAhead(b, d), unLo) > med
  {
    hide *;
    ghost var s0, s, ec := ptr[..], ptr[..], BytesAhead(b, d);
    ltLo, unLo := ltLo0, unLo0;
    PermutedRefl(s, lo, hi);
    ScanBounds(s, ec, lo, hi, med, ltLo, unLo, unHi, gtHi);
    while unLo <= unHi
      invariant unLo0 <= unLo && lo <= ltLo <= unLo <= unHi + 1 && unHi <= hi
      invariant ptr[..] == s && |s| == |s0|
      invariant Permuted(s0, s, lo, hi) && InRange(s, n, lo, hi)
      invariant Scanned(s, ec, lo, hi, med, ltLo, unLo, unHi, gtHi)
    {
      var v := ReadAhead(ptr, arr2, n, lo, hi, d, unLo, b, q);
      var diff := v as int - med;
      if diff == 0 {
        SwappedKeeps(s, n, unLo, ltLo, lo, hi);
        ScanLowEqual(s, ec, lo, hi, med, ltLo, unLo, unHi, gtHi);
        Swap(ptr, unLo, ltLo);
        PermutedTrans(s0, s, ptr[..], lo, hi);
        s := ptr[..];
        ltLo, unLo := ltLo + 1, unLo + 1;
        continue;
      }
      if diff > 0 { break; }
      ScanLowLess(s, ec, lo, hi, med, ltLo, unLo, unHi, gtHi);
      unLo := unLo + 1;
    }
  }

  method ScanHigh(ptr: array<UInt32>, arr2: array<UInt32>, n: nat, lo: nat, hi: nat, d: nat, med: Byte,
                  ghost ltLo: nat, unLo: nat, unHi0: int, gtHi0: int,
                  ghost b: seq<Byte>, ghost q: seq<UInt16>) returns (unHi: int, gtHi: int)
    requires ptr != arr2 && n == |b| && d <= 14 && d < n && Holds(arr2[..], b, q)
    requires hi < ptr.Length && InRange(ptr[..], n, lo, hi)
    requires Scanned(ptr[..], BytesAhead(b, d), lo, hi, med, ltLo, unLo, unHi0, gtHi0)
    requires unLo <= unHi0 ==> ClassOf(ptr[..], BytesAhead(b, d), unLo) > med
    modifies ptr
    ensures Permuted(old(ptr[..]), ptr[..], lo, hi) && InRange(ptr[..], n, lo, hi)
    ensures Scanned(ptr[..], BytesAhead(b, d), lo, hi, med, ltLo, unLo, unHi, gtHi) && unHi <= unHi0
    ensures unLo <= unHi ==> ClassOf(ptr[..], BytesAhead(b, d), unLo) > med > ClassOf(ptr[..], BytesAhead(b, d), unHi)
  {
    hide *;
    ghost var s0, s, ec := ptr[..], ptr[..], BytesAhead(b, d);
    unHi, gtHi := unHi0, gtHi0;
    PermutedRefl(s, lo, hi);
    ScanBounds(s, ec, lo, hi, med, ltLo, unLo, unHi, gtHi);
    while unLo <= unHi
      invariant unHi <= unHi0 && lo <= ltLo <= unLo <= unHi + 1 && unHi <= gtHi <= hi
      invariant ptr[..] == s && |s| == |s0|
      invariant Permuted(s0, s, lo, hi) && InRange(s, n, lo, hi)
      invariant Scanned(s, ec, lo, hi, med, ltLo, unLo, unHi, gtHi)
      invariant unLo <= unHi ==> ClassOf(s, ec, unLo) > med
    {
      var v := ReadAhead(ptr, arr2, n, lo, hi, d, unHi, b, q);
      var diff := v as int - med;
      if diff == 0 {
        SwappedKeeps(s, n, unHi, gtHi, lo, hi);
        ScanHighEqual(s, ec, lo, hi, med, ltLo, unLo, unHi, gtHi);
        SwappedClass(s, ec, unHi, gtHi);
        Swap(ptr, unHi, gtHi);
        PermutedTrans(s0, s, ptr[..], lo, hi);
        s := ptr[..];
        unHi, gtHi := unHi - 1, gtHi - 1;
        continue;
      }
      if diff < 0 { break; }
      ScanHighMore(s, ec, lo, hi, med, ltLo, unLo, unHi, gtHi);
      unHi := unHi - 1;
    }
  }

  method ScanBoth(ptr: array<UInt32>, arr2: array<UInt32>, n: nat, lo: nat, hi: nat, d: nat, med: Byte,
                  ghost b: seq<Byte>, ghost q: seq<UInt16>) returns (ltLo: nat, unLo: nat, unHi: int, gtHi: int)
    requires ptr != arr2 && n == |b| && d <= 14 && d < n && Holds(arr2[..], b, q)
    requires lo <= hi < ptr.Length && InRange(ptr[..], n, lo, hi)
    modifies ptr
    ensures Permuted(old(ptr[..]), ptr[..], lo, hi) && InRange(ptr[..], n, lo, hi)
    ensures Scanned(ptr[..], BytesAhead(b, d), lo, hi, med, ltLo, unLo, unHi, gtHi) && unHi == unLo - 1
  {
    hide *;
    ghost var s0, s, ec := ptr[..], ptr[..], BytesAhead(b, d);
    ltLo, unLo, unHi, gtHi := lo, lo, hi, hi;
    ScanStarts(s, ec, lo, hi, med);
    PermutedRefl(s, lo, hi);
    while true
      invariant lo <= ltLo <= unLo <= unHi + 1 && unHi <= gtHi <= hi
      invariant ptr[..] == s && |s| == |s0|
      invariant Permuted(s0, s, lo, hi) && InRange(s, n, lo, hi)
      invariant Scanned(s, ec, lo, hi, med, ltLo, unLo, unHi, gtHi)
      decreases unHi + 1 - unLo
    {
      ltLo, unLo := ScanLow(ptr, arr2, n, lo, hi, d, med, ltLo, unLo, unHi, gtHi, b, q);
      PermutedTrans(s0, s, ptr[..], lo, hi);
      s := ptr[..];
      unHi, gtHi := ScanHigh(ptr, arr2, n, lo, hi, d, med, ltLo, unLo, unHi, gtHi, b, q);
      PermutedTrans(s0, s, ptr[..], lo, hi);
      s := ptr[..];
      ScanBounds(s, ec, lo, hi, med, ltLo, unLo, unHi, gtHi);
      if unLo > unHi { break; }
      ScanSwap(s, ec, lo, hi, med, ltLo, unLo, unHi, gtHi);
      SwappedKeeps(s, n, unLo, unHi, lo, hi);
      Swap(ptr, unLo, unHi);
      PermutedTrans(s0, s, ptr[..], lo, hi);
      s := ptr[..];
      unLo, unHi := unLo + 1, unHi - 1;
    }
  }

  /** All entries lo..hi have the class med. */
  ghost predicate AllClass(s: seq<nat>, ec: seq<nat>, lo: int, hi: int, med: nat) {
    forall k :: lo <= k <= hi ==> ClassOf(s, ec, k) == med
  }

  lemma ScannedAllEqual(s: seq<nat>, ec: seq<nat>, lo: nat, hi: nat, med: nat, ltLo: nat, unLo: nat, gtHi: int)
    requires Scanned(s, ec, lo, hi, med, ltLo, unLo, unLo - 1, gtHi) && gtHi < ltLo
    ensures AllClass(s, ec, lo, hi, med)
  {
  }

  /** Splits lo..hi around the byte med, unless all entries have that byte. */
  method Partition(ptr: array<UInt32>, arr2: array<UInt32>, nblock: nat, lo: nat, hi: nat, d: nat, med: Byte,
                   ghost k0: nat,
                   ghost b: seq<Byte>, ghost q: seq<UInt16>) returns (equal: bool, n: int, m: int)
    requires ptr != arr2 && nblock == |b| && d <= 14 && d < nblock && Holds(arr2[..], b, q)
    requires lo <= hi < ptr.Length && InRange(ptr[..], nblock, lo, hi)
    requires lo <= k0 <= hi && ClassOf(ptr[..], BytesAhead(b, d), k0) == med
    modifies ptr
    ensures Permuted(old(ptr[..]), ptr[..], lo, hi)
    ensures equal ==> AllClass(ptr[..], BytesAhead(b, d), lo, hi, med)
    ensures !equal ==> Split(ptr[..], BytesAhead(b, d), lo, hi, med, n, m)
  {
    hide *;
    ghost var s0, ec := ptr[..], BytesAhead(b, d);
    var ltLo, unLo, unHi, gtHi := ScanBoth(ptr, arr2, nblock, lo, hi, d, med, b, q);
    ghost var s1 := ptr[..];
    ScanBounds(s1, ec, lo, hi, med, ltLo, unLo, unHi, gtHi);
    PivotRemains(s0, s1, ec, lo, hi, med, ltLo, unLo, gtHi, k0);
    if gtHi < ltLo {
      ScannedAllEqual(s1, ec, lo, hi, med, ltLo, unLo, gtHi);
      return true, 0, 0;
    }
    n := if ltLo - lo < unLo - ltLo then ltLo - lo else unLo - ltLo;
    VectorSwap(ptr, lo, unLo - n, n, lo, hi);
    ghost var s2 := ptr[..];
    MoveLow(s1, s2, ec, lo, hi, med, ltLo, unLo, gtHi, n);
    PermutedTrans(s0, s1, s2, lo, hi);
    m := if hi - gtHi < gtHi - unHi then hi - gtHi else gtHi - unHi;
    VectorSwap(ptr, unLo, hi - m + 1, m, lo, hi);
    n := lo + unLo - ltLo - 1;
    MoveHigh(s2, ptr[..], ec, lo, hi, med, n, unLo, gtHi, m);
    PermutedTrans(s0, s2, ptr[..], lo, hi);
    m := hi - (gtHi - unHi) + 1;
    equal := false;
  }
}
