/** Rearrangements of sequences, and permutations of 0..n-1. */
module Permutations {

  /** t is s with the elements at lo..hi rearranged among themselves. */
  ghost predicate Permuted(s: seq<nat>, t: seq<nat>, lo: int, hi: int) {
    && |s| == |t|
    && multiset(s) == multiset(t)
    && forall k :: 0 <= k < |s| && !(lo <= k <= hi) ==> s[k] == t[k]
  }

  ghost predicate Injective(s: seq<nat>) {
    forall i, j :: 0 <= i < j < |s| ==> s[i] != s[j]
  }

  ghost predicate Below(s: seq<nat>, n: nat) {
    forall k :: 0 <= k < |s| ==> s[k] < n
  }

  /** s lists every number below n exactly once. */
  ghost predicate IsPermutation(s: seq<nat>, n: nat) {
    |s| == n && Below(s, n) && Injective(s)
  }

  lemma PermutationFacts(s: seq<nat>, n: nat)
    requires IsPermutation(s, n)
    ensures |s| == n && Below(s, n)
  {
  }

  lemma PermutedRefl(s: seq<nat>, lo: int, hi: int)
    ensures Permuted(s, s, lo, hi)
  {
  }

  lemma PermutedTrans(s: seq<nat>, t: seq<nat>, u: seq<nat>, lo: int, hi: int)
    requires Permuted(s, t, lo, hi) && Permuted(t, u, lo, hi)
    ensures Permuted(s, u, lo, hi)
  {
  }

  /** A rearrangement of a part of a range is one of the whole range. */
  lemma PermutedWiden(s: seq<nat>, t: seq<nat>, lo: int, hi: int, lo': int, hi': int)
    requires Permuted(s, t, lo, hi) && lo' <= lo && hi <= hi'
    ensures Permuted(s, t, lo', hi')
  {
  }

  lemma SwapMultiset(s: seq<nat>, i: nat, j: nat)
    requires i < |s| && j < |s|
    ensures multiset(s[i := s[j]][j := s[i]]) == multiset(s)
  {
  }

  lemma PermutedSwap(s: seq<nat>, i: nat, j: nat, lo: int, hi: int)
    requires i < |s| && j < |s| && lo <= i <= hi && lo <= j <= hi
    ensures Permuted(s, s[i := s[j]][j := s[i]], lo, hi)
  {
    SwapMultiset(s, i, j);
  }

  lemma PermutedRange(s: seq<nat>, t: seq<nat>, lo: nat, hi: nat)
    requires Permuted(s, t, lo, hi) && lo <= hi < |s|
    ensures multiset(s[lo..hi + 1]) == multiset(t[lo..hi + 1])
  {
    var a, b, c, d := s[..lo], s[lo..hi + 1], s[hi + 1..], t[lo..hi + 1];
    assert s == (a + b) + c;
    assert a == t[..lo] && c == t[hi + 1..];
    assert t == (a + d) + c;
    MiddleCancels(a, b, d, c);
  }

  lemma MiddleCancels(a: seq<nat>, b: seq<nat>, d: seq<nat>, c: seq<nat>)
    requires multiset((a + b) + c) == multiset((a + d) + c)
    ensures multiset(b) == multiset(d)
  {
    assert forall x :: multiset((a + b) + c)[x] == multiset(a)[x] + multiset(b)[x] + multiset(c)[x];
    assert forall x :: multiset((a + d) + c)[x] == multiset(a)[x] + multiset(d)[x] + multiset(c)[x];
    forall x ensures multiset(b)[x] == multiset(d)[x] {
      assert multiset((a + b) + c)[x] == multiset((a + d) + c)[x];
    }
  }

  /** Each element a rearranged range holds came from within that range. */
  lemma CameFrom(s: seq<nat>, t: seq<nat>, lo: nat, hi: nat, k: nat) returns (k': nat)
    requires Permuted(s, t, lo, hi) && lo <= k <= hi < |s|
    ensures lo <= k' <= hi && s[k'] == t[k]
  {
    PermutedRange(s, t, lo, hi);
    var a, b := s[lo..hi + 1], t[lo..hi + 1];
    assert b[k - lo] in multiset(a);
    assert b[k - lo] in a;
    var i :| 0 <= i < |a| && a[i] == b[k - lo];
    k' := lo + i;
  }

  lemma InjectiveOnce(s: seq<nat>, x: nat)
    requires Injective(s)
    ensures multiset(s)[x] <= 1
  {
    if s != [] {
      var i := |s| - 1;
      assert s == s[..i] + [s[i]];
      InjectiveOnce(s[..i], x);
      if s[i] == x { assert x !in s[..i]; }
    }
  }

  lemma TwiceIsTwo(s: seq<nat>, i: nat, j: nat)
    requires i < j < |s| && s[i] == s[j]
    ensures multiset(s)[s[i]] >= 2
  {
    assert s == s[..j] + s[j..];
    assert s[i] in s[..j] && s[j] in s[j..];
  }

  lemma PermutedKeepsPermutation(s: seq<nat>, t: seq<nat>, lo: int, hi: int, n: nat)
    requires IsPermutation(s, n) && Permuted(s, t, lo, hi)
    ensures IsPermutation(t, n)
  {
    forall k | 0 <= k < |t| ensures t[k] < n {
      assert t[k] in multiset(s);
      assert t[k] in s;
    }
    forall i, j | 0 <= i < j < |t| ensures t[i] != t[j] {
      InjectiveOnce(s, t[i]);
      if t[i] == t[j] { TwiceIsTwo(t, i, j); }
    }
  }

  ghost function Numbers(n: nat): (r: set<nat>)
    ensures |r| == n && forall x: nat :: x in r <==> x < n
  {
    if n == 0 then {} else Numbers(n - 1) + {n - 1}
  }

  ghost function Elements(s: seq<nat>): set<nat> {
    set x: nat | x in s
  }

  lemma ElementsSize(s: seq<nat>)
    requires Injective(s)
    ensures |Elements(s)| == |s|
  {
    if s != [] {
      var i := |s| - 1;
      ElementsSize(s[..i]);
      assert Elements(s) == Elements(s[..i]) + {s[i]};
      assert s[i] !in s[..i];
    }
  }

  lemma SubsetSize(a: set<nat>, b: set<nat>)
    requires a <= b
    ensures |a| <= |b| && (|a| == |b| ==> a == b)
  {
    assert b == a + (b - a);
    assert |b| == |a| + |b - a|;
  }

  /** A permutation of 0..n-1 reaches every number below n. */
  lemma Find(s: seq<nat>, n: nat, x: nat) returns (p: nat)
    requires IsPermutation(s, n) && x < n
    ensures p < n && s[p] == x
  {
    ElementsSize(s);
    assert Elements(s) <= Numbers(n);
    SubsetSize(Elements(s), Numbers(n));
    assert x in Elements(s);
    p :| 0 <= p < |s| && s[p] == x;
  }

  ghost predicate SortedBy(p: seq<nat>, v: seq<nat>) {
    && Below(p, |v|)
    && forall i, j :: 0 <= i < j < |p| ==> v[p[i]] <= v[p[j]]
  }

  lemma SortedNotBelow(p: seq<nat>, q: seq<nat>, v: seq<nat>, k: nat)
    requires IsPermutation(p, |v|) && IsPermutation(q, |v|) && SortedBy(p, v) && SortedBy(q, v)
    requires k < |v|
    ensures v[q[k]] <= v[p[k]]
  {
    var a, b := p[..k + 1], q[..k];
    ElementsSize(a);
    ElementsSize(b);
    if v[p[k]] < v[q[k]] {
      forall x | x in Elements(a) ensures x in Elements(b) {
        var i :| 0 <= i < |a| && a[i] == x;
        assert v[x] <= v[p[k]];
        var j := Find(q, |v|, x);
        if j < k { assert b[j] == x; }
      }
      SubsetSize(Elements(a), Elements(b));
    }
  }

  /** Two sorted listings of the same things agree, up to equal keys, at every place. */
  lemma SortedAgree(p: seq<nat>, q: seq<nat>, v: seq<nat>, k: nat)
    requires IsPermutation(p, |v|) && IsPermutation(q, |v|) && SortedBy(p, v) && SortedBy(q, v)
    requires k < |v|
    ensures v[p[k]] == v[q[k]]
  {
    SortedNotBelow(p, q, v, k);
    SortedNotBelow(q, p, v, k);
  }
}
