/** The sorters the fallback block sort applies to one bucket. */
module FallbackQuickSort {
  import opened MachineInts
  import opened Permutations
  import opened SetSums

  /** The class by which entry k of fmap is ordered. */
  ghost function ClassOf(s: seq<nat>, ec: seq<nat>, k: int): nat {
    if 0 <= k < |s| && s[k] < |ec| then ec[s[k]] else 0
  }

  ghost predicate InRange(s: seq<nat>, m: nat, lo: int, hi: int) {
    forall k :: 0 <= k < |s| && lo <= k <= hi ==> s[k] < m
  }

  ghost predicate Ordered(s: seq<nat>, ec: seq<nat>, lo: int, hi: int) {
    forall p, q :: lo <= p < q <= hi ==> ClassOf(s, ec, p) <= ClassOf(s, ec, q)
  }

  lemma PermutedInRange(s: seq<nat>, t: seq<nat>, m: nat, lo: nat, hi: int, lo': nat, hi': int)
    requires Permuted(s, t, lo', hi') && InRange(s, m, lo, hi)
    requires lo <= lo' && hi' <= hi < |s|
    ensures InRange(t, m, lo, hi)
  {
    forall k | 0 <= k < |t| && lo <= k <= hi ensures t[k] < m {
      if lo' <= k <= hi' {
        var k' := CameFrom(s, t, lo', hi', k);
      }
    }
  }

  /* ---- fallbackSimpleSort: two passes of insertion, with strides 4 and 1 ---- */

  /** fmap[i] has been lifted out; entries from i on have moved down one stride up to the hole at j - d. */
  ghost predicate HoleAt(s0: seq<nat>, s: seq<nat>, ec: seq<nat>, i: nat, j: nat, hi: nat, d: nat) {
    && 1 <= d && i + d <= j <= hi + d && hi < |s| == |s0|
    && Permuted(s0, s[j - d := s0[i]], i, hi)
    && (forall k :: j <= k <= hi ==> s[k] == s0[k])
    && (d == 1 ==> forall k :: i <= k < j - 1 ==> s[k] == s0[k + 1] && ClassOf(s0, ec, k + 1) < ClassOf(s0, ec, i))
  }

  /** s is s0 with entry i moved up to place j - 1, just before the first class not below its own. */
  ghost predicate IsInsertion(s0: seq<nat>, s: seq<nat>, ec: seq<nat>, i: nat, j: nat, hi: nat) {
    && i < j <= hi + 1 && hi < |s| == |s0| && s[j - 1] == s0[i]
    && (forall k :: j <= k <= hi ==> s[k] == s0[k])
    && (forall k :: i <= k < j - 1 ==> s[k] == s0[k + 1] && ClassOf(s0, ec, k + 1) < ClassOf(s0, ec, i))
    && (j <= hi ==> ClassOf(s0, ec, i) <= ClassOf(s0, ec, j))
  }

  ghost predicate Inserted(s0: seq<nat>, s: seq<nat>, ec: seq<nat>, i: nat, hi: nat, d: nat) {
    && Permuted(s0, s, i, hi)
    && (d == 1 ==> exists j: nat :: IsInsertion(s0, s, ec, i, j, hi))
  }

  lemma HoleStarts(s0: seq<nat>, ec: seq<nat>, i: nat, hi: nat, d: nat)
    requires 1 <= d && i <= hi < |s0|
    ensures HoleAt(s0, s0, ec, i, i + d, hi, d)
  {
    assert s0[i := s0[i]] == s0;
  }

  lemma HoleReads(s0: seq<nat>, s: seq<nat>, ec: seq<nat>, i: nat, j: nat, hi: nat, d: nat)
    requires HoleAt(s0, s, ec, i, j, hi, d) && InRange(s0, |ec|, i, hi)
    ensures s0[i] < |ec| && ClassOf(s0, ec, i) == ec[s0[i]]
    ensures j <= hi ==> s[j] == s0[j] < |ec| && ClassOf(s0, ec, j) == ec[s0[j]]
  {
  }

  lemma HoleFillMoves(s: seq<nat>, j: nat, d: nat, x: nat)
    requires 1 <= d <= j < |s|
    ensures multiset(s[j - d := s[j]][j := x]) == multiset(s[j - d := x])
  {
    SwapMultiset(s[j - d := x], j - d, j);
    assert s[j - d := x][j - d := s[j]][j := x] == s[j - d := s[j]][j := x];
  }

  lemma HoleMoves(s0: seq<nat>, s: seq<nat>, ec: seq<nat>, i: nat, j: nat, hi: nat, d: nat)
    requires HoleAt(s0, s, ec, i, j, hi, d) && j <= hi
    requires ClassOf(s0, ec, j) < ClassOf(s0, ec, i)
    ensures HoleAt(s0, s[j - d := s[j]], ec, i, j + d, hi, d)
  {
    HoleFillMoves(s, j, d, s0[i]);
  }

  lemma HoleFilled(s0: seq<nat>, s: seq<nat>, ec: seq<nat>, i: nat, j: nat, hi: nat, d: nat)
    requires HoleAt(s0, s, ec, i, j, hi, d) && i <= hi
    requires j <= hi ==> ClassOf(s0, ec, i) <= ClassOf(s0, ec, j)
    ensures Inserted(s0, s[j - d := s0[i]], ec, i, hi, d)
  {
    if d == 1 {
      var t := s[j - 1 := s0[i]];
      assert forall k :: j <= k <= hi ==> t[k] == s[k] == s0[k];
      assert forall k :: i <= k < j - 1 ==> t[k] == s[k] == s0[k + 1];
      assert IsInsertion(s0, t, ec, i, j, hi);
    }
  }

  method InsertEntry(fmap: array<UInt32>, eclass: array<UInt32>, i: nat, hi: nat, d: nat)
    requires fmap != eclass && 1 <= d && i <= hi < fmap.Length
    requires InRange(fmap[..], eclass.Length, i, hi)
    modifies fmap
    ensures Inserted(old(fmap[..]), fmap[..], eclass[..], i, hi, d)
  {
    hide *;
    ghost var s0, s, ec := fmap[..], fmap[..], eclass[..];
    var tmp := fmap[i];
    var j := i + d;
    HoleStarts(s0, ec, i, hi, d);
    HoleReads(s0, s, ec, i, j, hi, d);
    var ecTmp := eclass[tmp];
    while j <= hi && ecTmp > eclass[fmap[j]]
      invariant i + d <= j <= hi + d && s0[i] < eclass.Length
      invariant fmap[..] == s && |s| == |s0|
      invariant HoleAt(s0, s, ec, i, j, hi, d)
      invariant j <= hi ==> fmap[j] == s0[j] < eclass.Length && ClassOf(s0, ec, j) == ec[s0[j]]
      invariant ClassOf(s0, ec, i) == ecTmp
    {
      HoleMoves(s0, s, ec, i, j, hi, d);
      fmap[j - d] := fmap[j];
      s := s[j - d := s[j]];
      j := j + d;
      HoleReads(s0, s, ec, i, j, hi, d);
    }
    HoleFilled(s0, s, ec, i, j, hi, d);
    fmap[j - d] := tmp;
  }

  lemma InsertedOrdered(s0: seq<nat>, s: seq<nat>, ec: seq<nat>, i: nat, j: nat, hi: nat)
    requires IsInsertion(s0, s, ec, i, j, hi) && Ordered(s0, ec, i + 1, hi)
    ensures Ordered(s, ec, i, hi)
  {
    assert forall k :: i <= k < j - 1 ==> ClassOf(s, ec, k) == ClassOf(s0, ec, k + 1);
    assert forall k :: j <= k <= hi ==> ClassOf(s, ec, k) == ClassOf(s0, ec, k);
    assert ClassOf(s, ec, j - 1) == ClassOf(s0, ec, i);
    assert j <= hi ==> forall k :: j <= k <= hi ==> ClassOf(s0, ec, j) <= ClassOf(s0, ec, k);
  }

  lemma InsertStep(s0: seq<nat>, s: seq<nat>, t: seq<nat>, ec: seq<nat>, lo: nat, i: nat, hi: nat, d: nat)
    requires Permuted(s0, s, lo, hi) && Inserted(s, t, ec, i, hi, d)
    requires lo <= i <= hi < |s| && InRange(s, |ec|, lo, hi)
    requires d == 1 ==> Ordered(s, ec, i + 1, hi)
    ensures Permuted(s0, t, lo, hi) && InRange(t, |ec|, lo, hi)
    ensures d == 1 ==> Ordered(t, ec, i, hi)
  {
    PermutedWiden(s, t, i, hi, lo, hi);
    PermutedTrans(s0, s, t, lo, hi);
    PermutedInRange(s, t, |ec|, lo, hi, lo, hi);
    if d == 1 {
      var j: nat :| IsInsertion(s, t, ec, i, j, hi);
      InsertedOrdered(s, t, ec, i, j, hi);
    }
  }

  lemma InRangeWiden(s: seq<nat>, m: nat, lo: int, hi: int, lo': int)
    requires InRange(s, m, lo, hi) && lo <= lo'
    ensures InRange(s, m, lo', hi)
  {
  }

  lemma OrderedSingle(s: seq<nat>, ec: seq<nat>, i: int, hi: int)
    requires hi <= i
    ensures Ordered(s, ec, i, hi)
  {
  }

  /** One pass of insertion from the right, with stride d. */
  method InsertionPass(fmap: array<UInt32>, eclass: array<UInt32>, lo: nat, hi: int, d: nat)
    requires fmap != eclass && 1 <= d && -1 <= hi < fmap.Length
    requires InRange(fmap[..], eclass.Length, lo, hi)
    modifies fmap
    ensures Permuted(old(fmap[..]), fmap[..], lo, hi)
    ensures InRange(fmap[..], eclass.Length, lo, hi)
    ensures d == 1 ==> Ordered(fmap[..], eclass[..], lo, hi)
  {
    hide *;
    ghost var s0, s, ec := fmap[..], fmap[..], eclass[..];
    PermutedRefl(s0, lo, hi);
    var i := hi - d;
    if d == 1 {
      OrderedSingle(s, ec, i + 1, hi);
      if i < lo { OrderedSingle(s, ec, lo, hi); }
    }
    while i >= lo
      invariant i <= hi - d && (lo <= hi - d ==> lo - 1 <= i)
      invariant i < lo && d == 1 && i != lo - 1 ==> Ordered(s, ec, lo, hi)
      invariant fmap[..] == s && |s| == |s0|
      invariant Permuted(s0, s, lo, hi) && InRange(s, |ec|, lo, hi)
      invariant d == 1 ==> Ordered(s, ec, i + 1, hi)
    {
      InRangeWiden(s, |ec|, lo, hi, i);
      InsertEntry(fmap, eclass, i, hi, d);
      InsertStep(s0, s, fmap[..], ec, lo, i, hi, d);
      s := fmap[..];
      i := i - 1;
    }
  }

  method SimpleSort(fmap: array<UInt32>, eclass: array<UInt32>, lo: nat, hi: int)
    requires fmap != eclass && -1 <= hi < fmap.Length
    requires InRange(fmap[..], eclass.Length, lo, hi)
    modifies fmap
    ensures Permuted(old(fmap[..]), fmap[..], lo, hi)
    ensures Ordered(fmap[..], eclass[..], lo, hi)
  {
    hide *;
    ghost var s0 := fmap[..];
    PermutedRefl(s0, lo, hi);
    if lo == hi { OrderedSingle(s0, eclass[..], lo, hi); return; }
    if hi - lo > 3 {
      InsertionPass(fmap, eclass, lo, hi, 4);
    }
    ghost var s1 := fmap[..];
    InsertionPass(fmap, eclass, lo, hi, 1);
    PermutedTrans(s0, s1, fmap[..], lo, hi);
  }

  /* ---- fallbackQSort3: three-way partition with an explicit stack ---- */

  /** Bounds met so far by the two scans: equal entries gather at both ends, the rest next to them. */
  ghost predicate Scanned(s: seq<nat>, ec: seq<nat>, lo: nat, hi: int, med: nat,
                          ltLo: int, unLo: int, unHi: int, gtHi: int)
  {
    && lo <= ltLo <= unLo <= unHi + 1 && unHi <= gtHi <= hi < |s|
    && (forall k :: lo <= k < ltLo ==> ClassOf(s, ec, k) == med)
    && (forall k :: ltLo <= k < unLo ==> ClassOf(s, ec, k) < med)
    && (forall k :: unHi < k <= gtHi ==> ClassOf(s, ec, k) > med)
    && (forall k :: gtHi < k <= hi ==> ClassOf(s, ec, k) == med)
  }

  ghost function Swapped(s: seq<nat>, i: int, j: int): (t: seq<nat>) {
    if 0 <= i < |s| && 0 <= j < |s| then s[i := s[j]][j := s[i]] else s
  }

  lemma SwappedKeeps(s: seq<nat>, m: nat, i: int, j: int, lo: nat, hi: int)
    requires lo <= i <= hi < |s| && lo <= j <= hi && InRange(s, m, lo, hi)
    ensures Permuted(s, Swapped(s, i, j), lo, hi) && InRange(Swapped(s, i, j), m, lo, hi)
    ensures |Swapped(s, i, j)| == |s|
  {
    PermutedSwap(s, i, j, lo, hi);
  }

  lemma SwappedClass(s: seq<nat>, ec: seq<nat>, i: nat, j: nat)
    requires i < |s| && j < |s|
    ensures forall k :: k != i && k != j ==> ClassOf(Swapped(s, i, j), ec, k) == ClassOf(s, ec, k)
    ensures ClassOf(Swapped(s, i, j), ec, i) == ClassOf(s, ec, j)
    ensures ClassOf(Swapped(s, i, j), ec, j) == ClassOf(s, ec, i)
  {
  }

  lemma ScanStarts(s: seq<nat>, ec: seq<nat>, lo: nat, hi: int, med: nat)
    requires lo <= hi < |s|
    ensures Scanned(s, ec, lo, hi, med, lo, lo, hi, hi)
  {
  }

  lemma ScanLowEqual(s: seq<nat>, ec: seq<nat>, lo: nat, hi: int, med: nat, ltLo: int, unLo: int, unHi: int, gtHi: int)
    requires Scanned(s, ec, lo, hi, med, ltLo, unLo, unHi, gtHi) && unLo <= unHi
    requires ClassOf(s, ec, unLo) == med
    ensures Scanned(Swapped(s, unLo, ltLo), ec, lo, hi, med, ltLo + 1, unLo + 1, unHi, gtHi)
  {
    SwappedClass(s, ec, unLo, ltLo);
  }

  lemma ScanLowLess(s: seq<nat>, ec: seq<nat>, lo: nat, hi: int, med: nat, ltLo: int, unLo: int, unHi: int, gtHi: int)
    requires Scanned(s, ec, lo, hi, med, ltLo, unLo, unHi, gtHi) && unLo <= unHi
    requires ClassOf(s, ec, unLo) < med
    ensures Scanned(s, ec, lo, hi, med, ltLo, unLo + 1, unHi, gtHi)
  {
  }

  lemma ScanHighEqual(s: seq<nat>, ec: seq<nat>, lo: nat, hi: int, med: nat, ltLo: int, unLo: int, unHi: int, gtHi: int)
    requires Scanned(s, ec, lo, hi, med, ltLo, unLo, unHi, gtHi) && unLo <= unHi
    requires ClassOf(s, ec, unHi) == med
    ensures Scanned(Swapped(s, unHi, gtHi), ec, lo, hi, med, ltLo, unLo, unHi - 1, gtHi - 1)
  {
    SwappedClass(s, ec, unHi, gtHi);
  }

  lemma ScanHighMore(s: seq<nat>, ec: seq<nat>, lo: nat, hi: int, med: nat, ltLo: int, unLo: int, unHi: int, gtHi: int)
    requires Scanned(s, ec, lo, hi, med, ltLo, unLo, unHi, gtHi) && unLo <= unHi
    requires ClassOf(s, ec, unHi) > med
    ensures Scanned(s, ec, lo, hi, med, ltLo, unLo, unHi - 1, gtHi)
  {
  }

  lemma ScanSwap(s: seq<nat>, ec: seq<nat>, lo: nat, hi: int, med: nat, ltLo: int, unLo: int, unHi: int, gtHi: int)
    requires Scanned(s, ec, lo, hi, med, ltLo, unLo, unHi, gtHi) && unLo < unHi
    requires ClassOf(s, ec, unLo) > med > ClassOf(s, ec, unHi)
    ensures Scanned(Swapped(s, unLo, unHi), ec, lo, hi, med, ltLo, unLo + 1, unHi - 1, gtHi)
  {
    SwappedClass(s, ec, unLo, unHi);
  }

  lemma ScanBounds(s: seq<nat>, ec: seq<nat>, lo: nat, hi: int, med: nat, ltLo: int, unLo: int, unHi: int, gtHi: int)
    requires Scanned(s, ec, lo, hi, med, ltLo, unLo, unHi, gtHi)
    ensures lo <= ltLo <= unLo <= unHi + 1 && unHi <= gtHi <= hi < |s|
  {
  }

  lemma ReadClass(s: seq<nat>, ec: seq<nat>, lo: nat, hi: int, k: nat)
    requires InRange(s, |ec|, lo, hi) && lo <= k <= hi < |s|
    ensures s[k] < |ec| && ClassOf(s, ec, k) == ec[s[k]]
  {
  }

  method Swap(fmap: array<UInt32>, i: nat, j: nat)
    requires i < fmap.Length && j < fmap.Length
    modifies fmap
    ensures fmap[..] == Swapped(old(fmap[..]), i, j)
  {
    var t := fmap[i];
    fmap[i] := fmap[j];
    fmap[j] := t;
  }

  method ScanLow(fmap: array<UInt32>, eclass: array<UInt32>, lo: nat, hi: nat, med: nat, ltLo0: nat, unLo0: nat,
                 unHi: int, gtHi: int)
    returns (ltLo: nat, unLo: nat)
    requires fmap != eclass && hi < fmap.Length && InRange(fmap[..], eclass.Length, lo, hi)
    requires Scanned(fmap[..], eclass[..], lo, hi, med, ltLo0, unLo0, unHi, gtHi)
    modifies fmap
    ensures Permuted(old(fmap[..]), fmap[..], lo, hi) && InRange(fmap[..], eclass.Length, lo, hi)
    ensures Scanned(fmap[..], eclass[..], lo, hi, med, ltLo, unLo, unHi, gtHi) && unLo0 <= unLo
    ensures unLo <= unHi ==> ClassOf(fmap[..], eclass[..], unLo) > med
  {
    hide *;
    ghost var s0, s, ec := fmap[..], fmap[..], eclass[..];
    ltLo, unLo := ltLo0, unLo0;
    PermutedRefl(s, lo, hi);
    ScanBounds(s, ec, lo, hi, med, ltLo, unLo, unHi, gtHi);
    while unLo <= unHi
      invariant unLo0 <= unLo && lo <= ltLo <= unLo <= unHi + 1 && unHi <= hi
      invariant fmap[..] == s && |s| == |s0|
      invariant Permuted(s0, s, lo, hi) && InRange(s, |ec|, lo, hi)
      invariant Scanned(s, ec, lo, hi, med, ltLo, unLo, unHi, gtHi)
    {
      ReadClass(s, ec, lo, hi, unLo);
      var n := eclass[fmap[unLo]] - med;
      if n == 0 {
        SwappedKeeps(s, |ec|, unLo, ltLo, lo, hi);
        ScanLowEqual(s, ec, lo, hi, med, ltLo, unLo, unHi, gtHi);
        Swap(fmap, unLo, ltLo);
        PermutedTrans(s0, s, fmap[..], lo, hi);
        s := fmap[..];
        ltLo, unLo := ltLo + 1, unLo + 1;
        continue;
      }
      if n > 0 { break; }
      ScanLowLess(s, ec, lo, hi, med, ltLo, unLo, unHi, gtHi);
      unLo := unLo + 1;
    }
  }

  method ScanHigh(fmap: array<UInt32>, eclass: array<UInt32>, lo: nat, hi: nat, med: nat, ltLo: nat, unLo: nat,
                  unHi0: int, gtHi0: int)
    returns (unHi: int, gtHi: int)
    requires fmap != eclass && hi < fmap.Length && InRange(fmap[..], eclass.Length, lo, hi)
    requires Scanned(fmap[..], eclass[..], lo, hi, med, ltLo, unLo, unHi0, gtHi0)
    requires unLo <= unHi0 ==> ClassOf(fmap[..], eclass[..], unLo) > med
    modifies fmap
    ensures Permuted(old(fmap[..]), fmap[..], lo, hi) && InRange(fmap[..], eclass.Length, lo, hi)
    ensures Scanned(fmap[..], eclass[..], lo, hi, med, ltLo, unLo, unHi, gtHi) && unHi <= unHi0
    ensures unLo <= unHi ==> ClassOf(fmap[..], eclass[..], unLo) > med > ClassOf(fmap[..], eclass[..], unHi)
  {
    hide *;
    ghost var s0, s, ec := fmap[..], fmap[..], eclass[..];
    unHi, gtHi := unHi0, gtHi0;
    PermutedRefl(s, lo, hi);
    ScanBounds(s, ec, lo, hi, med, ltLo, unLo, unHi, gtHi);
    while unLo <= unHi
      invariant unHi <= unHi0 && lo <= ltLo <= unLo <= unHi + 1 && unHi <= gtHi <= hi
      invariant fmap[..] == s && |s| == |s0|
      invariant Permuted(s0, s, lo, hi) && InRange(s, |ec|, lo, hi)
      invariant Scanned(s, ec, lo, hi, med, ltLo, unLo, unHi, gtHi)
      invariant unLo <= unHi ==> ClassOf(s, ec, unLo) > med
    {
      ReadClass(s, ec, lo, hi, unHi);
      var n := eclass[fmap[unHi]] - med;
      if n == 0 {
        SwappedKeeps(s, |ec|, unHi, gtHi, lo, hi);
        ScanHighEqual(s, ec, lo, hi, med, ltLo, unLo, unHi, gtHi);
        SwappedClass(s, ec, unHi, gtHi);
        Swap(fmap, unHi, gtHi);
        PermutedTrans(s0, s, fmap[..], lo, hi);
        s := fmap[..];
        unHi, gtHi := unHi - 1, gtHi - 1;
        continue;
      }
      if n < 0 { break; }
      ScanHighMore(s, ec, lo, hi, med, ltLo, unLo, unHi, gtHi);
      unHi := unHi - 1;
    }
  }

  method ScanBoth(fmap: array<UInt32>, eclass: array<UInt32>, lo: nat, hi: nat, med: nat)
    returns (ltLo: nat, unLo: nat, unHi: int, gtHi: int)
    requires fmap != eclass && lo <= hi < fmap.Length && InRange(fmap[..], eclass.Length, lo, hi)
    modifies fmap
    ensures Permuted(old(fmap[..]), fmap[..], lo, hi) && InRange(fmap[..], eclass.Length, lo, hi)
    ensures Scanned(fmap[..], eclass[..], lo, hi, med, ltLo, unLo, unHi, gtHi) && unHi == unLo - 1
  {
    hide *;
    ghost var s0, s, ec := fmap[..], fmap[..], eclass[..];
    ltLo, unLo, unHi, gtHi := lo, lo, hi, hi;
    ScanStarts(s, ec, lo, hi, med);
    PermutedRefl(s, lo, hi);
    while true
      invariant lo <= ltLo <= unLo <= unHi + 1 && unHi <= gtHi <= hi
      invariant fmap[..] == s && |s| == |s0|
      invariant Permuted(s0, s, lo, hi) && InRange(s, |ec|, lo, hi)
      invariant Scanned(s, ec, lo, hi, med, ltLo, unLo, unHi, gtHi)
      decreases unHi + 1 - unLo
    {
      ltLo, unLo := ScanLow(fmap, eclass, lo, hi, med, ltLo, unLo, unHi, gtHi);
      PermutedTrans(s0, s, fmap[..], lo, hi);
      s := fmap[..];
      unHi, gtHi := ScanHigh(fmap, eclass, lo, hi, med, ltLo, unLo, unHi, gtHi);
      PermutedTrans(s0, s, fmap[..], lo, hi);
      s := fmap[..];
      ScanBounds(s, ec, lo, hi, med, ltLo, unLo, unHi, gtHi);
      if unLo > unHi { break; }
      ScanSwap(s, ec, lo, hi, med, ltLo, unLo, unHi, gtHi);
      SwappedKeeps(s, |ec|, unLo, unHi, lo, hi);
      Swap(fmap, unLo, unHi);
      PermutedTrans(s0, s, fmap[..], lo, hi);
      s := fmap[..];
      unLo, unHi := unLo + 1, unHi - 1;
    }
  }

  /** Where entry k comes from when the n entries from p1 trade places with the n entries from p2. */
  ghost function Partner(p1: int, p2: int, n: int, k: int): int {
    if p1 <= k < p1 + n then k - p1 + p2 else if p2 <= k < p2 + n then k - p2 + p1 else k
  }

  ghost predicate BlocksSwapped(s: seq<nat>, t: seq<nat>, p1: int, p2: int, n: int) {
    && |t| == |s|
    && forall k :: 0 <= k < |s| ==> 0 <= Partner(p1, p2, n, k) < |s| && t[k] == s[Partner(p1, p2, n, k)]
  }

  lemma SwapNone(s: seq<nat>, p1: int, p2: int)
    ensures BlocksSwapped(s, s, p1, p2, 0)
  {
  }

  lemma SwapMore(s: seq<nat>, t: seq<nat>, p1: nat, p2: nat, n: nat)
    requires p1 + n < p2 && p2 + n < |s| && BlocksSwapped(s, t, p1, p2, n)
    ensures BlocksSwapped(s, Swapped(t, p1 + n, p2 + n), p1, p2, n + 1)
  {
    assert Partner(p1, p2, n, p1 + n) == p1 + n && Partner(p1, p2, n, p2 + n) == p2 + n;
  }

  lemma SwapStep(s0: seq<nat>, s: seq<nat>, p1: nat, p2: nat, k: nat, lo: int, hi: int)
    requires p1 + k < p2 && p2 + k < |s0| == |s| && BlocksSwapped(s0, s, p1, p2, k) && Permuted(s0, s, lo, hi)
    requires lo <= p1 && p2 + k <= hi
    ensures BlocksSwapped(s0, Swapped(s, p1 + k, p2 + k), p1, p2, k + 1)
    ensures Permuted(s0, Swapped(s, p1 + k, p2 + k), lo, hi) && |Swapped(s, p1 + k, p2 + k)| == |s|
  {
    hide *;
    SwapMore(s0, s, p1, p2, k);
    PermutedByOneSwap(s, p1 + k, p2 + k, lo, hi);
    PermutedTrans(s0, s, Swapped(s, p1 + k, p2 + k), lo, hi);
  }

  method VectorSwap(fmap: array<UInt32>, p1: nat, p2: nat, n: nat, ghost lo: int, ghost hi: int)
    requires n > 0 ==> p1 + n <= p2 && p2 + n <= fmap.Length && lo <= p1 && p2 + n - 1 <= hi
    modifies fmap
    ensures BlocksSwapped(old(fmap[..]), fmap[..], p1, p2, n)
    ensures Permuted(old(fmap[..]), fmap[..], lo, hi)
  {
    hide *;
    ghost var s0, s := fmap[..], fmap[..];
    SwapNone(s0, p1, p2);
    PermutedRefl(s0, lo, hi);
    var y1, y2, yn := p1, p2, n;
    ghost var k: nat := 0;
    while yn > 0
      invariant 0 <= yn && k + yn == n && y1 == p1 + k && y2 == p2 + k
      invariant fmap[..] == s && |s| == |s0| == fmap.Length
      invariant BlocksSwapped(s0, s, p1, p2, k)
      invariant Permuted(s0, s, lo, hi)
    {
      SwapStep(s0, s, p1, p2, k, lo, hi);
      Swap(fmap, y1, y2);
      s := Swapped(s, y1, y2);
      k := k + 1;
      y1, y2, yn := y1 + 1, y2 + 1, yn - 1;
    }
  }

  lemma PermutedByOneSwap(s: seq<nat>, i: nat, j: nat, lo: int, hi: int)
    requires i < |s| && j < |s| && lo <= i <= hi && lo <= j <= hi
    ensures Permuted(s, Swapped(s, i, j), lo, hi)
  {
    PermutedSwap(s, i, j, lo, hi);
  }

  lemma BlocksSwappedClass(s: seq<nat>, t: seq<nat>, ec: seq<nat>, p1: int, p2: int, n: int, k: nat)
    requires BlocksSwapped(s, t, p1, p2, n) && k < |s|
    ensures ClassOf(t, ec, k) == ClassOf(s, ec, Partner(p1, p2, n, k))
  {
  }

  /** lo..n lie below the pivot class, m..hi above it, and at least one entry between them equals it. */
  ghost predicate Split(s: seq<nat>, ec: seq<nat>, lo: nat, hi: nat, med: nat, n: int, m: int) {
    && lo - 1 <= n && n + 1 < m <= hi + 1 <= |s|
    && (forall k :: lo <= k <= n ==> ClassOf(s, ec, k) < med)
    && (forall k :: n < k < m ==> ClassOf(s, ec, k) == med)
    && (forall k :: m <= k <= hi ==> ClassOf(s, ec, k) > med)
  }

  /** The equal entries gathered at the low end have been moved to the middle. */
  ghost predicate HalfSplit(s: seq<nat>, ec: seq<nat>, lo: nat, hi: nat, med: nat, n: int, unLo: int, gtHi: int) {
    && lo - 1 <= n < unLo <= gtHi + 1 && gtHi <= hi < |s| && (n + 1 < unLo || gtHi < hi)
    && (forall k :: lo <= k <= n ==> ClassOf(s, ec, k) < med)
    && (forall k :: n < k < unLo ==> ClassOf(s, ec, k) == med)
    && (forall k :: unLo <= k <= gtHi ==> ClassOf(s, ec, k) > med)
    && (forall k :: gtHi < k <= hi ==> ClassOf(s, ec, k) == med)
  }

  lemma MoveLow(s: seq<nat>, t: seq<nat>, ec: seq<nat>, lo: nat, hi: nat, med: nat, ltLo: nat, unLo: nat, gtHi: int,
                n: nat)
    requires Scanned(s, ec, lo, hi, med, ltLo, unLo, unLo - 1, gtHi)
    requires n == (if ltLo - lo < unLo - ltLo then ltLo - lo else unLo - ltLo)
    requires BlocksSwapped(s, t, lo, unLo - n, n)
    requires lo < ltLo || gtHi < hi
    ensures HalfSplit(t, ec, lo, hi, med, lo + unLo - ltLo - 1, unLo, gtHi)
  {
    var q := unLo - n;
    forall k | lo <= k <= hi
      ensures ClassOf(t, ec, k) == ClassOf(s, ec, Partner(lo, q, n, k))
    {
      BlocksSwappedClass(s, t, ec, lo, q, n, k);
    }
    assert forall k :: lo <= k < lo + unLo - ltLo ==> ltLo <= Partner(lo, q, n, k) < unLo;
    assert forall k :: lo + unLo - ltLo <= k < unLo ==> lo <= Partner(lo, q, n, k) < ltLo;
  }

  lemma MoveHigh(s: seq<nat>, t: seq<nat>, ec: seq<nat>, lo: nat, hi: nat, med: nat, n: int, unLo: nat, gtHi: int,
                 m: nat)
    requires HalfSplit(s, ec, lo, hi, med, n, unLo, gtHi)
    requires m == (if hi - gtHi < gtHi - unLo + 1 then hi - gtHi else gtHi - unLo + 1)
    requires BlocksSwapped(s, t, unLo, hi - m + 1, m)
    ensures Split(t, ec, lo, hi, med, n, hi - (gtHi - unLo + 1) + 1)
  {
    var q := hi - m + 1;
    forall k | lo <= k <= hi
      ensures ClassOf(t, ec, k) == ClassOf(s, ec, Partner(unLo, q, m, k))
    {
      BlocksSwappedClass(s, t, ec, unLo, q, m, k);
    }
    var m' := hi - (gtHi - unLo + 1) + 1;
    assert forall k :: unLo <= k < m' ==> gtHi < Partner(unLo, q, m, k) <= hi;
    assert forall k :: m' <= k <= hi ==> unLo <= Partner(unLo, q, m, k) <= gtHi;
  }

  lemma PivotRemains(s0: seq<nat>, s: seq<nat>, ec: seq<nat>, lo: nat, hi: nat, med: nat, ltLo: nat, unLo: nat,
                     gtHi: int, k0: nat)
    requires Permuted(s0, s, lo, hi) && Scanned(s, ec, lo, hi, med, ltLo, unLo, unLo - 1, gtHi)
    requires lo <= k0 <= hi < |s0| && ClassOf(s0, ec, k0) == med
    ensures lo < ltLo || gtHi < hi
    ensures gtHi < ltLo ==> Ordered(s, ec, lo, hi)
  {
    var k := CameFrom(s, s0, lo, hi, k0);
    assert ClassOf(s, ec, k) == med;
  }

  /** Splits lo..hi around the class of one of its entries; done if they are all equal. */
  method Partition(fmap: array<UInt32>, eclass: array<UInt32>, lo: nat, hi: nat, med: nat, ghost k0: nat)
    returns (done: bool, n: int, m: int)
    requires fmap != eclass && lo <= hi < fmap.Length && InRange(fmap[..], eclass.Length, lo, hi)
    requires lo <= k0 <= hi && ClassOf(fmap[..], eclass[..], k0) == med
    modifies fmap
    ensures Permuted(old(fmap[..]), fmap[..], lo, hi)
    ensures done ==> Ordered(fmap[..], eclass[..], lo, hi)
    ensures !done ==> Split(fmap[..], eclass[..], lo, hi, med, n, m)
  {
    hide *;
    ghost var s0, ec := fmap[..], eclass[..];
    var ltLo, unLo, unHi, gtHi := ScanBoth(fmap, eclass, lo, hi, med);
    ghost var s1 := fmap[..];
    ScanBounds(s1, ec, lo, hi, med, ltLo, unLo, unHi, gtHi);
    PivotRemains(s0, s1, ec, lo, hi, med, ltLo, unLo, gtHi, k0);
    if gtHi < ltLo { return true, 0, 0; }
    n := if ltLo - lo < unLo - ltLo then ltLo - lo else unLo - ltLo;
    VectorSwap(fmap, lo, unLo - n, n, lo, hi);
    ghost var s2 := fmap[..];
    MoveLow(s1, s2, ec, lo, hi, med, ltLo, unLo, gtHi, n);
    PermutedTrans(s0, s1, s2, lo, hi);
    m := if hi - gtHi < gtHi - unHi then hi - gtHi else gtHi - unHi;
    VectorSwap(fmap, unLo, hi - m + 1, m, lo, hi);
    n := lo + unLo - ltLo - 1;
    MoveHigh(s2, fmap[..], ec, lo, hi, med, n, unLo, gtHi, m);
    PermutedTrans(s0, s2, fmap[..], lo, hi);
    m := hi - (gtHi - unHi) + 1;
    done := false;
  }

  /* ---- the stack of ranges still to be sorted ---- */

  const SMALL_THRESH := 10
  const STACK_SIZE := 100

  datatype Range = Range(lo: int, hi: int)

  ghost function Size(r: Range): nat {
    if r.lo <= r.hi then r.hi - r.lo + 1 else 0
  }

  ghost function Work(stack: seq<Range>): nat {
    if stack == [] then 0 else Work(stack[..|stack| - 1]) + 2 * Size(stack[|stack| - 1]) + 1
  }

  /** Entries p and q lie in one range that is still waiting. */
  ghost predicate Together(stack: seq<Range>, p: int, q: int) {
    exists i :: 0 <= i < |stack| && stack[i].lo <= p && q <= stack[i].hi
  }

  ghost predicate OrderedBut(s: seq<nat>, ec: seq<nat>, lo: int, hi: int, stack: seq<Range>) {
    forall p, q :: lo <= p < q <= hi && !Together(stack, p, q) ==> ClassOf(s, ec, p) <= ClassOf(s, ec, q)
  }

  /** The waiting ranges lie in lo..hi, are disjoint, and each is at most half of the one two below it. */
  ghost predicate StackOk(stack: seq<Range>, lo: int, hi: int) {
    && (forall i :: 0 <= i < |stack| ==> lo <= stack[i].lo <= stack[i].hi + 1 <= hi + 1)
    && (forall i, j :: 0 <= i < j < |stack| ==> stack[i].hi < stack[j].lo || stack[j].hi < stack[i].lo)
  }

  ghost predicate Shrinking(stack: seq<Range>, total: nat) {
    forall i :: 0 <= i < |stack| ==> Size(stack[i]) * Pow2(i) <= total
  }

  /** Only ranges of more than ten entries are split, so the stack cannot outgrow its array. */
  lemma StackBound(stack: seq<Range>, total: nat)
    requires stack != [] && Shrinking(stack, total) && total < 0x8000_0000
    requires Size(stack[|stack| - 1]) > SMALL_THRESH
    ensures |stack| <= 28
  {
    var i := |stack| - 1;
    var p := Pow2(i);
    assert Size(stack[i]) * p >= 11 * p;
    if i >= 28 {
      Pow2Grows(28, i);
      assert Pow2(28) == 0x1000_0000 by { PowersOfTwo(); }
    }
  }

  lemma Thresholds()
    ensures STACK_SIZE == 100 && SMALL_THRESH == 10
  {
  }

  lemma PowersOfTwo()
    ensures Pow2(28) == 0x1000_0000
  {
    assert Pow2(8) == 0x100;
    assert Pow2(16) == 0x1_0000;
    assert Pow2(24) == 0x100_0000;
  }

  lemma TogetherLast(rest: seq<Range>, r: Range, p: int, q: int)
    ensures Together(rest + [r], p, q) <==> Together(rest, p, q) || (r.lo <= p && q <= r.hi)
  {
    var stack := rest + [r];
    assert stack[|rest|] == r;
    assert forall i :: 0 <= i < |rest| ==> stack[i] == rest[i];
  }

  /** Moving an entry about inside its own range does not change which entries share a range with it. */
  lemma TogetherMoves(rest: seq<Range>, r: Range, lo: int, hi: int, p: int, q: int, p': int, q': int)
    requires StackOk(rest + [r], lo, hi) && Together(rest + [r], p', q')
    requires p < q && p' < q'
    requires p == p' || (r.lo <= p <= r.hi && r.lo <= p' <= r.hi)
    requires q == q' || (r.lo <= q <= r.hi && r.lo <= q' <= r.hi)
    ensures Together(rest + [r], p, q)
  {
    var stack := rest + [r];
    assert stack[|rest|] == r;
    var i :| 0 <= i < |stack| && stack[i].lo <= p' && q' <= stack[i].hi;
    if i < |rest| {
      assert stack[i].hi < r.lo || r.hi < stack[i].lo;
    }
    assert stack[i].lo <= p && q <= stack[i].hi;
  }

  lemma RangeRearranged(s: seq<nat>, t: seq<nat>, ec: seq<nat>, lo: nat, hi: int, rest: seq<Range>, r: Range)
    requires StackOk(rest + [r], lo, hi) && hi < |s| && 0 <= r.lo && r.hi < |s|
    requires OrderedBut(s, ec, lo, hi, rest + [r]) && Permuted(s, t, r.lo, r.hi)
    ensures OrderedBut(t, ec, lo, hi, rest + [r])
  {
    forall p, q | lo <= p < q <= hi && !Together(rest + [r], p, q)
      ensures ClassOf(t, ec, p) <= ClassOf(t, ec, q)
    {
      TogetherLast(rest, r, p, q);
      assert (rest + [r])[|rest|] == r;
      var p', q' := p, q;
      if r.lo <= p <= r.hi { p' := CameFrom(s, t, r.lo, r.hi, p); }
      if r.lo <= q <= r.hi { q' := CameFrom(s, t, r.lo, r.hi, q); }
      if Together(rest + [r], p', q') { TogetherMoves(rest, r, lo, hi, p, q, p', q'); }
      assert ClassOf(s, ec, p') <= ClassOf(s, ec, q');
    }
  }

  lemma RangeSorted(s: seq<nat>, ec: seq<nat>, lo: nat, hi: int, rest: seq<Range>, r: Range)
    requires OrderedBut(s, ec, lo, hi, rest + [r]) && Ordered(s, ec, r.lo, r.hi)
    ensures OrderedBut(s, ec, lo, hi, rest)
  {
    forall p, q | lo <= p < q <= hi && !Together(rest, p, q)
      ensures ClassOf(s, ec, p) <= ClassOf(s, ec, q)
    {
      TogetherLast(rest, r, p, q);
    }
  }

  ghost predicate Halves(r: Range, n: int, m: int, a: Range, b: Range) {
    && r.lo - 1 <= n && n + 1 < m <= r.hi + 1
    && ((a == Range(r.lo, n) && b == Range(m, r.hi)) || (b == Range(r.lo, n) && a == Range(m, r.hi)))
  }

  lemma RangeSplit(s: seq<nat>, ec: seq<nat>, lo: nat, hi: int, rest: seq<Range>, r: Range, med: nat, n: int, m: int,
                   a: Range, b: Range)
    requires 0 <= r.lo <= r.hi && OrderedBut(s, ec, lo, hi, rest + [r]) && Split(s, ec, r.lo, r.hi, med, n, m)
    requires Halves(r, n, m, a, b)
    ensures OrderedBut(s, ec, lo, hi, rest + [a] + [b])
  {
    forall p, q | lo <= p < q <= hi && !Together(rest + [a] + [b], p, q)
      ensures ClassOf(s, ec, p) <= ClassOf(s, ec, q)
    {
      TogetherLast(rest, r, p, q);
      TogetherLast(rest, a, p, q);
      TogetherLast(rest + [a], b, p, q);
    }
  }

  lemma SplitWork(rest: seq<Range>, r: Range, n: int, m: int, a: Range, b: Range)
    requires Halves(r, n, m, a, b)
    ensures Work(rest + [a] + [b]) < Work(rest + [r])
  {
    WorkLast(rest, r);
    WorkLast(rest, a);
    WorkLast(rest + [a], b);
  }

  lemma WorkLast(rest: seq<Range>, r: Range)
    ensures Work(rest + [r]) == Work(rest) + 2 * Size(r) + 1
  {
    assert (rest + [r])[..|rest|] == rest;
  }

  lemma SplitShrinks(rest: seq<Range>, r: Range, n: int, m: int, a: Range, b: Range, total: nat)
    requires Shrinking(rest + [r], total) && Halves(r, n, m, a, b) && Size(b) <= Size(a)
    ensures Shrinking(rest + [a] + [b], total)
  {
    var stack, stack' := rest + [r], rest + [a] + [b];
    var p := Pow2(|rest|);
    assert Size(stack[|rest|]) * p <= total;
    HalfProduct(Size(a), Size(b), Size(r), p);
    assert Pow2(|rest| + 1) == 2 * p;
    forall i | 0 <= i < |stack'| ensures Size(stack'[i]) * Pow2(i) <= total {
      if i < |rest| { assert stack'[i] == stack[i]; }
    }
  }

  lemma HalfProduct(a: nat, b: nat, r: nat, p: nat)
    requires b <= a && a + b <= r
    ensures a * p <= r * p && b * (2 * p) <= r * p
  {
    assert (r - a) * p >= 0 && (r - 2 * b) * p >= 0;
  }

  lemma SplitStack(rest: seq<Range>, r: Range, lo: int, hi: int, n: int, m: int, a: Range, b: Range)
    requires StackOk(rest + [r], lo, hi) && Halves(r, n, m, a, b)
    ensures StackOk(rest + [a] + [b], lo, hi)
  {
    var stack, stack' := rest + [r], rest + [a] + [b];
    assert stack[|rest|] == r;
    assert forall i :: 0 <= i < |rest| ==> stack'[i] == stack[i];
    assert stack'[|rest|] == a && stack'[|rest| + 1] == b;
  }

  lemma PopStack(rest: seq<Range>, r: Range, lo: int, hi: int, total: nat)
    requires StackOk(rest + [r], lo, hi) && Shrinking(rest + [r], total)
    ensures StackOk(rest, lo, hi) && Shrinking(rest, total) && Work(rest) < Work(rest + [r])
    ensures lo <= r.lo <= r.hi + 1 <= hi + 1
  {
    var stack := rest + [r];
    forall i | 0 <= i < |rest| ensures stack[i] == rest[i] {}
    assert stack[|rest|] == r && stack[..|rest|] == rest;
  }

  lemma StackEntry(rest: seq<Range>, r: Range, s: seq<nat>, m: nat, lo: nat, hi: int)
    requires StackOk(rest + [r], lo, hi) && hi < |s| && InRange(s, m, lo, hi)
    ensures lo <= r.lo <= r.hi + 1 <= hi + 1 && InRange(s, m, r.lo, r.hi)
  {
    assert (rest + [r])[|rest|] == r;
  }

  lemma RangeDone(s0: seq<nat>, s: seq<nat>, t: seq<nat>, ec: seq<nat>, lo: nat, hi: int, rest: seq<Range>, r: Range)
    requires StackOk(rest + [r], lo, hi) && hi < |s| && 0 <= r.lo && r.hi < |s|
    requires Permuted(s0, s, lo, hi) && InRange(s, |ec|, lo, hi) && OrderedBut(s, ec, lo, hi, rest + [r])
    requires Permuted(s, t, r.lo, r.hi)
    ensures Permuted(s0, t, lo, hi) && InRange(t, |ec|, lo, hi) && OrderedBut(t, ec, lo, hi, rest + [r])
  {
    StackEntry(rest, r, s, |ec|, lo, hi);
    PermutedWiden(s, t, r.lo, r.hi, lo, hi);
    PermutedTrans(s0, s, t, lo, hi);
    PermutedInRange(s, t, |ec|, lo, hi, r.lo, r.hi);
    RangeRearranged(s, t, ec, lo, hi, rest, r);
  }

  lemma StackStarts(s: seq<nat>, ec: seq<nat>, lo: nat, hi: int)
    requires lo <= hi + 1
    ensures OrderedBut(s, ec, lo, hi, [Range(lo, hi)]) && StackOk([Range(lo, hi)], lo, hi)
    ensures Shrinking([Range(lo, hi)], hi + 1 - lo)
  {
    TogetherLast([], Range(lo, hi), lo, hi);
    forall p, q | lo <= p < q <= hi ensures Together([Range(lo, hi)], p, q) {
      assert [Range(lo, hi)][0].lo <= p;
    }
  }

  lemma StackEmpty(s: seq<nat>, ec: seq<nat>, lo: nat, hi: int)
    requires OrderedBut(s, ec, lo, hi, [])
    ensures Ordered(s, ec, lo, hi)
  {
  }

  lemma SizeIs(r: Range)
    ensures Size(r) == if r.lo <= r.hi then r.hi - r.lo + 1 else 0
  {
  }

  lemma SplitIs(s: seq<nat>, ec: seq<nat>, lo: nat, hi: nat, med: nat, n: int, m: int)
    requires Split(s, ec, lo, hi, med, n, m)
    ensures Halves(Range(lo, hi), n, m, Range(lo, n), Range(m, hi))
    ensures Halves(Range(lo, hi), n, m, Range(m, hi), Range(lo, n))
  {
  }

  /** Chooses a pivot and splits lo..hi, naming the larger part first. */
  method SplitRange(fmap: array<UInt32>, eclass: array<UInt32>, lo: nat, hi: nat, r: nat)
    returns (done: bool, a: Range, b: Range, ghost n: int, ghost m: int, ghost med: nat)
    requires fmap != eclass && lo <= hi < fmap.Length && InRange(fmap[..], eclass.Length, lo, hi)
    modifies fmap
    ensures Permuted(old(fmap[..]), fmap[..], lo, hi)
    ensures done ==> Ordered(fmap[..], eclass[..], lo, hi)
    ensures !done ==> Split(fmap[..], eclass[..], lo, hi, med, n, m)
    ensures !done ==> Halves(Range(lo, hi), n, m, a, b) && Size(b) <= Size(a)
  {
    hide *;
    var r3 := r % 3;
    var k := if r3 == 0 then lo else if r3 == 1 then (lo + hi) / 2 else hi;
    assert lo <= k <= hi;
    ReadClass(fmap[..], eclass[..], lo, hi, k);
    var pivot := eclass[fmap[k]];
    med := pivot;
    var n', m';
    done, n', m' := Partition(fmap, eclass, lo, hi, pivot, k);
    n, m := n', m';
    a, b := Range(lo, n'), Range(m', hi);
    if !done {
      SplitIs(fmap[..], eclass[..], lo, hi, med, n, m);
      SizeIs(a);
      SizeIs(b);
      if n' - lo <= hi - m' { a, b := b, a; }
    }
  }

  lemma StackSplit(s: seq<nat>, ec: seq<nat>, lo: nat, hi: int, rest: seq<Range>, r: Range, med: nat, n: int, m: int,
                   a: Range, b: Range, total: nat)
    requires StackOk(rest + [r], lo, hi) && Shrinking(rest + [r], total) && OrderedBut(s, ec, lo, hi, rest + [r])
    requires 0 <= r.lo <= r.hi && Split(s, ec, r.lo, r.hi, med, n, m) && Halves(r, n, m, a, b) && Size(b) <= Size(a)
    ensures StackOk(rest + [a] + [b], lo, hi) && Shrinking(rest + [a] + [b], total)
    ensures OrderedBut(s, ec, lo, hi, rest + [a] + [b]) && Work(rest + [a] + [b]) < Work(rest + [r])
  {
    hide *;
    RangeSplit(s, ec, lo, hi, rest, r, med, n, m, a, b);
    SplitStack(rest, r, lo, hi, n, m, a, b);
    SplitShrinks(rest, r, n, m, a, b, total);
    SplitWork(rest, r, n, m, a, b);
  }

  /** Sorts fmap[loSt..hiSt] by class; the explicit stack never fills its array. */
  method QSort3(fmap: array<UInt32>, eclass: array<UInt32>, loSt: nat, hiSt: int)
    requires fmap != eclass && loSt <= hiSt + 1 <= fmap.Length && hiSt + 1 - loSt < 0x8000_0000
    requires InRange(fmap[..], eclass.Length, loSt, hiSt)
    modifies fmap
    ensures Permuted(old(fmap[..]), fmap[..], loSt, hiSt)
    ensures Ordered(fmap[..], eclass[..], loSt, hiSt)
  {
    hide *;
    Thresholds();
    ghost var s0, s, ec := fmap[..], fmap[..], eclass[..];
    ghost var total := hiSt + 1 - loSt;
    var r: nat := 0;
    var stack := [Range(loSt, hiSt)];
    StackStarts(s, ec, loSt, hiSt);
    PermutedRefl(s, loSt, hiSt);
    while |stack| > 0
      invariant fmap[..] == s && |s| == |s0|
      invariant Permuted(s0, s, loSt, hiSt) && InRange(s, |ec|, loSt, hiSt)
      invariant StackOk(stack, loSt, hiSt) && Shrinking(stack, total) && OrderedBut(s, ec, loSt, hiSt, stack)
      invariant |stack| <= 29
      decreases Work(stack)
    {
      assert |stack| < STACK_SIZE - 1;
      var top := stack[|stack| - 1];
      ghost var all := stack;
      stack := stack[..|stack| - 1];
      assert all == stack + [top];
      StackEntry(stack, top, s, |ec|, loSt, hiSt);
      PopStack(stack, top, loSt, hiSt, total);
      SizeIs(top);
      if top.hi - top.lo < SMALL_THRESH {
        SimpleSort(fmap, eclass, top.lo, top.hi);
        RangeDone(s0, s, fmap[..], ec, loSt, hiSt, stack, top);
        s := fmap[..];
        RangeSorted(s, ec, loSt, hiSt, stack, top);
        continue;
      }
      StackBound(all, total);
      r := (r * 7621 + 1) % 32768;
      var done, a, b, n, m, med := SplitRange(fmap, eclass, top.lo, top.hi, r);
      RangeDone(s0, s, fmap[..], ec, loSt, hiSt, stack, top);
      s := fmap[..];
      if done {
        RangeSorted(s, ec, loSt, hiSt, stack, top);
        continue;
      }
      StackSplit(s, ec, loSt, hiSt, stack, top, med, n, m, a, b, total);
      stack := stack + [a] + [b];
    }
    StackEmpty(s, ec, loSt, hiSt);
  }
}
