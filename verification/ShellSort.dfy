/** Insertion with a stride, as the passes of Shell's sort use it. */
module ShellSort {
  import opened Permutations
  import opened FallbackQuickSort

  /** s0[i] has been lifted out; entries from the left have moved up one stride, leaving a hole at j. */
  ghost predicate Lifted(s0: seq<nat>, s: seq<nat>, ec: seq<nat>, lo: nat, i: nat, j: nat, h: nat) {
    && 1 <= h && lo <= j <= i < |s0| == |s|
    && Permuted(s0, s[j := s0[i]], lo, i)
    && Same(s0, s, lo, j) && (h == 1 ==> Shifted(s0, s, ec, i, j))
  }

  ghost predicate Same(s0: seq<nat>, s: seq<nat>, lo: nat, j: nat) {
    j <= |s0| == |s| && forall k :: lo <= k < j ==> s[k] == s0[k]
  }

  /** With stride 1 the entries behind the hole have moved up by one, and belong behind the one lifted out. */
  ghost predicate Shifted(s0: seq<nat>, s: seq<nat>, ec: seq<nat>, i: nat, j: nat) {
    && i < |s0| == |s|
    && forall k :: j < k <= i ==> s[k] == s0[k - 1] && ClassOf(s0, ec, i) <= ClassOf(s0, ec, k - 1)
  }

  /** Entry i has been inserted among those to its left; with stride 1 that keeps them ordered. */
  ghost predicate Dropped(s0: seq<nat>, s: seq<nat>, ec: seq<nat>, lo: nat, i: nat, h: nat) {
    && Permuted(s0, s, lo, i)
    && (h == 1 && Ordered(s0, ec, lo, i - 1) ==> Ordered(s, ec, lo, i))
  }

  lemma LiftStarts(s0: seq<nat>, ec: seq<nat>, lo: nat, i: nat, h: nat)
    requires 1 <= h && lo <= i < |s0|
    ensures Lifted(s0, s0, ec, lo, i, i, h)
  {
    assert s0[i := s0[i]] == s0;
  }

  lemma LiftedReads(s0: seq<nat>, s: seq<nat>, ec: seq<nat>, lo: nat, i: nat, j: nat, h: nat)
    requires Lifted(s0, s, ec, lo, i, j, h) && lo + h <= j
    ensures s[j - h] == s0[j - h]
  {
  }

  lemma LiftFillMoves(s: seq<nat>, j: nat, h: nat, x: nat)
    requires 1 <= h <= j < |s|
    ensures multiset(s[j := s[j - h]][j - h := x]) == multiset(s[j := x])
  {
    SwapMultiset(s[j := x], j, j - h);
    assert s[j := x][j := s[j - h]][j - h := x] == s[j := s[j - h]][j - h := x];
  }

  /** Moving an entry across the hole leaves the rearrangement with x in the hole the same. */
  lemma LiftPermuted(s0: seq<nat>, s: seq<nat>, lo: nat, i: nat, j: nat, h: nat, x: nat)
    requires 1 <= h && lo + h <= j <= i < |s| && Permuted(s0, s[j := x], lo, i)
    ensures Permuted(s0, s[j := s[j - h]][j - h := x], lo, i)
  {
    LiftFillMoves(s, j, h, x);
    var t, u := s[j := s[j - h]][j - h := x], s[j := x];
    forall k | 0 <= k < |s0| && !(lo <= k <= i) ensures t[k] == s0[k] { assert t[k] == u[k]; }
  }

  lemma LiftMoves(s0: seq<nat>, s: seq<nat>, ec: seq<nat>, lo: nat, i: nat, j: nat, h: nat)
    requires Lifted(s0, s, ec, lo, i, j, h) && lo + h <= j
    requires ClassOf(s0, ec, i) <= ClassOf(s0, ec, j - h)
    ensures Lifted(s0, s[j := s[j - h]], ec, lo, i, j - h, h)
  {
    var t := s[j := s[j - h]];
    LiftPermuted(s0, s, lo, i, j, h, s0[i]);
    LiftedReads(s0, s, ec, lo, i, j, h);
    hide Permuted, ClassOf, Same, Shifted;
    LiftKept(s0, s, t, lo, j, h);
    if h == 1 { LiftShifted(s0, s, t, ec, i, j); }
  }

  lemma LiftKept(s0: seq<nat>, s: seq<nat>, t: seq<nat>, lo: nat, j: nat, h: nat)
    requires Same(s0, s, lo, j) && 1 <= h && lo + h <= j < |s| && t == s[j := s[j - h]]
    ensures Same(s0, t, lo, j - h)
  {
  }

  /** With stride 1 the entry moved joins the ones that were moved before it. */
  lemma LiftShifted(s0: seq<nat>, s: seq<nat>, t: seq<nat>, ec: seq<nat>, i: nat, j: nat)
    requires Shifted(s0, s, ec, i, j) && 0 < j <= i && t == s[j := s[j - 1]] && s[j - 1] == s0[j - 1]
    requires ClassOf(s0, ec, i) <= ClassOf(s0, ec, j - 1)
    ensures Shifted(s0, t, ec, i, j - 1)
  {
    hide ClassOf;
    forall k | j - 1 < k <= i
      ensures t[k] == s0[k - 1] && ClassOf(s0, ec, i) <= ClassOf(s0, ec, k - 1)
    {
      if k == j { assert t[k] == s[j - 1]; } else { assert t[k] == s[k]; }
    }
  }

  lemma LiftDropped(s0: seq<nat>, s: seq<nat>, ec: seq<nat>, lo: nat, i: nat, j: nat, h: nat)
    requires Lifted(s0, s, ec, lo, i, j, h)
    requires lo + h <= j ==> ClassOf(s0, ec, j - h) <= ClassOf(s0, ec, i)
    ensures Dropped(s0, s[j := s0[i]], ec, lo, i, h)
  {
    var t := s[j := s0[i]];
    if h == 1 && Ordered(s0, ec, lo, i - 1) {
      assert forall k :: lo <= k < j ==> ClassOf(t, ec, k) == ClassOf(s0, ec, k);
      assert forall k :: j < k <= i ==> ClassOf(t, ec, k) == ClassOf(s0, ec, k - 1);
      assert ClassOf(t, ec, j) == ClassOf(s0, ec, i);
      forall p, q | lo <= p < q <= i ensures ClassOf(t, ec, p) <= ClassOf(t, ec, q) {
        if p < j && j - 1 > p { assert ClassOf(s0, ec, p) <= ClassOf(s0, ec, j - 1); }
      }
    }
  }

  /** One more entry inserted, as seen from the start of the pass. */
  lemma DropStep(s0: seq<nat>, s: seq<nat>, t: seq<nat>, ec: seq<nat>, lo: nat, i: nat, hi: nat, h: nat)
    requires Permuted(s0, s, lo, hi) && Dropped(s, t, ec, lo, i, h) && lo <= i <= hi < |s|
    requires h == 1 ==> Ordered(s, ec, lo, i - 1)
    ensures Permuted(s0, t, lo, hi) && Permuted(s, t, lo, hi)
    ensures h == 1 ==> Ordered(t, ec, lo, i)
  {
    PermutedWiden(s, t, lo, i, lo, hi);
    PermutedTrans(s0, s, t, lo, hi);
  }
}
