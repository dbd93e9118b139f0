/** One doubling pass of the fallback sort: order on h bytes becomes order on 2h bytes. */
module FallbackPass {
  import opened MachineInts
  import opened Permutations
  import opened Rotations
  import opened BitTables
  import opened FallbackQuickSort

  /** Rotation f[p] differs from its predecessor within the first h bytes. */
  ghost predicate HeadAt(b: seq<Byte>, f: seq<nat>, h: nat, p: nat)
    requires p < |f| && Below(f, |b|)
  {
    p == 0 || Key(b, f[p - 1], h) != Key(b, f[p], h)
  }

  ghost predicate HeadsAre(b: seq<Byte>, f: seq<nat>, bits: seq<bool>, h: nat, from: int, to: int)
    requires |f| <= |bits| && Below(f, |b|)
  {
    forall p :: 0 <= p < |f| && from <= p < to ==> (bits[p] <==> HeadAt(b, f, h, p))
  }

  ghost predicate SortedUpTo(b: seq<Byte>, f: seq<nat>, h: nat, to: int)
    requires Below(f, |b|)
  {
    forall p, q :: 0 <= p < q < |f| && q < to ==> Key(b, f[p], h) <= Key(b, f[q], h)
  }

  /** The rotations are in order by their first h bytes and the bits mark exactly where those change. */
  ghost predicate Refined(b: seq<Byte>, f: seq<nat>, bits: seq<bool>, h: nat) {
    && IsPermutation(f, |b|) && |b| + 1 < |bits| && bits[|b|] && !bits[|b| + 1]
    && SortedKeys(b, f, h) && HeadsAre(b, f, bits, h, 0, |b|)
  }

  /** The position h steps before x. */
  function Back(n: nat, x: nat, h: nat): (r: nat)
    requires x < n && h <= n
    ensures r < n
  {
    if x < h then x - h + n else x - h
  }

  lemma BackAdvance(n: nat, x: nat, h: nat)
    requires x < n && h <= n
    ensures Advance(n, Back(n, x, h), h) == x && Back(n, Advance(n, x, h), h) == x
  {
    AdvanceIs(n, Back(n, x, h), h);
    AdvanceIs(n, x, h);
  }

  /** The last header at or before p. */
  ghost function Header(bits: seq<bool>, p: nat): (r: nat)
    requires p < |bits|
    ensures r <= p
  {
    if p == 0 || bits[p] then p else Header(bits, p - 1)
  }

  lemma {:induction false} HeaderSame(b: seq<Byte>, f: seq<nat>, bits: seq<bool>, h: nat, q: nat, p: nat)
    requires Refined(b, f, bits, h) && q <= p < |b|
    ensures Header(bits, q) <= Header(bits, p)
    ensures Header(bits, q) == Header(bits, p) <==> Key(b, f[q], h) == Key(b, f[p], h)
    decreases p - q
  {
    if q < p {
      HeaderSame(b, f, bits, h, q, p - 1);
      assert bits[p] <==> HeadAt(b, f, h, p);
      assert Key(b, f[q], h) <= Key(b, f[p - 1], h) <= Key(b, f[p], h);
    }
  }

  lemma {:induction false} HeaderOrder(b: seq<Byte>, f: seq<nat>, bits: seq<bool>, h: nat, p: nat, q: nat)
    requires Refined(b, f, bits, h) && p < |b| && q < |b|
    ensures Header(bits, p) <= Header(bits, q) <==> Key(b, f[p], h) <= Key(b, f[q], h)
  {
    if p <= q {
      HeaderSame(b, f, bits, h, p, q);
      assert p < q ==> Key(b, f[p], h) <= Key(b, f[q], h);
    } else {
      HeaderSame(b, f, bits, h, q, p);
      assert Key(b, f[q], h) <= Key(b, f[p], h);
    }
  }

  /** Every position whose h-fold successor stands before slot i has been given the header of that slot. */
  ghost predicate Classed(n: nat, f: seq<nat>, bits: seq<bool>, ec: seq<nat>, h: nat, i: nat) {
    && n <= |ec| && n == |f| <= |bits| && Below(f, n) && h <= n
    && forall p :: 0 <= p < n && p < i ==> ec[Back(n, f[p], h)] == Header(bits, p)
  }

  lemma {:induction false} ClassStep(n: nat, f: seq<nat>, bits: seq<bool>, ec: seq<nat>, h: nat, i: nat)
    requires Classed(n, f, bits, ec, h, i) && i < n && IsPermutation(f, n)
    ensures Classed(n, f, bits, ec[Back(n, f[i], h) := Header(bits, i)], h, i + 1)
  {
    forall p | 0 <= p < i ensures Back(n, f[p], h) != Back(n, f[i], h) {
      BackAdvance(n, f[p], h);
      BackAdvance(n, f[i], h);
    }
  }

  /** Classes order positions as the h bytes found h further on do. */
  ghost predicate Ranked(b: seq<Byte>, ec: seq<nat>, h: nat) {
    && |b| <= |ec|
    && forall x, y :: 0 <= x < |b| && 0 <= y < |b| ==>
      (ec[x] <= ec[y] <==> Key(b, Advance(|b|, x, h), h) <= Key(b, Advance(|b|, y, h), h))
  }

  lemma {:induction false} ClassedRanks(b: seq<Byte>, f: seq<nat>, bits: seq<bool>, ec: seq<nat>, h: nat)
    requires Refined(b, f, bits, h) && Classed(|b|, f, bits, ec, h, |b|)
    ensures Ranked(b, ec, h)
  {
    var n := |b|;
    forall x, y | 0 <= x < n && 0 <= y < n
      ensures ec[x] <= ec[y] <==> Key(b, Advance(n, x, h), h) <= Key(b, Advance(n, y, h), h)
    {
      var p := Find(f, n, Advance(n, x, h));
      var q := Find(f, n, Advance(n, y, h));
      BackAdvance(n, x, h);
      BackAdvance(n, y, h);
      HeaderOrder(b, f, bits, h, p, q);
    }
  }

  lemma {:induction false} HeaderNext(bits: seq<bool>, i: nat, j: nat)
    requires i < |bits| && (if i == 0 then j == 0 else j == Header(bits, i - 1))
    ensures Header(bits, i) == if bits[i] then i else j
  {
  }

  lemma {:induction false} ClassBound(n: nat, f: seq<nat>, bits: seq<bool>, ec: seq<nat>, h: nat, k: nat)
    requires Classed(n, f, bits, ec, h, n) && IsPermutation(f, n) && k < n
    ensures ec[k] < n
  {
    var p := Find(f, n, Advance(n, k, h));
    BackAdvance(n, k, h);
  }

  lemma {:induction false} ClassStart(n: nat, f: seq<nat>, bits: seq<bool>, ec: seq<nat>, h: nat)
    requires n <= |ec| && n <= |bits| && IsPermutation(f, n) && h <= n
    ensures Classed(n, f, bits, ec, h, 0)
  {
  }

  /** The position h before fmap[i], as the loop computes it. */
  lemma BackIs(f: seq<nat>, n: nat, i: nat, h: nat)
    requires IsPermutation(f, n) && i < n && h <= n
    ensures f[i] < n && Back(n, f[i], h) == if f[i] < h then f[i] - h + n else f[i] - h
  {
  }

  /** Gives position fmap[i] - h (cyclically) the bucket of slot i as its class. */
  method FillClasses(fmap: array<UInt32>, eclass: array<UInt32>, table: array<Word>, n: nat, h: nat)
    requires fmap != eclass && n <= fmap.Length && n <= eclass.Length && n <= 32 * table.Length
    requires h <= n < 0x8000_0000 && IsPermutation(fmap[..n], n)
    modifies eclass
    ensures Classed(n, fmap[..n], Bits(table[..]), eclass[..], h, n)
    ensures forall k :: 0 <= k < n ==> eclass[k] < n
  {
    hide *;
    ghost var f, bits := fmap[..n], Bits(table[..]);
    var j := 0;
    ClassStart(n, f, bits, eclass[..], h);
    for i := 0 to n
      invariant j <= i && (if i == 0 then j == 0 else j == Header(bits, i - 1))
      invariant fmap[..n] == f && Classed(n, f, bits, eclass[..], h, i)
    {
      HeaderNext(bits, i, j);
      var head := Get(table, i);
      if head { j := i; }
      BackIs(f, n, i, h);
      assert fmap[i] == f[i];
      var k: int := fmap[i] - h;
      if k < 0 { k := k + n; }
      ClassStep(n, f, bits, eclass[..], h, i);
      ghost var ec := eclass[..];
      eclass[k] := j;
      assert eclass[..] == ec[k := j];
    }
    forall k | 0 <= k < n ensures eclass[k] < n { ClassBound(n, f, bits, eclass[..], h, k); }
  }

  /* ---- progress of a pass: slots up to r are done ---- */

  /** Slots up to r are in order and marked to depth 2h, the rest still to depth h. */
  ghost predicate PassAt(b: seq<Byte>, f: seq<nat>, bits: seq<bool>, h: nat, r: int) {
    && IsPermutation(f, |b|) && |b| + 1 < |bits| && bits[|b|] && !bits[|b| + 1] && -1 <= r < |b|
    && SortedKeys(b, f, h) && SortedUpTo(b, f, 2 * h, r + 1)
    && HeadsAre(b, f, bits, 2 * h, 0, r + 1) && HeadsAre(b, f, bits, h, r + 1, |b|)
    && bits[r + 1]
  }

  lemma {:induction false} PassStart(b: seq<Byte>, f: seq<nat>, bits: seq<bool>, h: nat)
    requires Refined(b, f, bits, h) && |b| > 0
    ensures PassAt(b, f, bits, h, -1)
  {
  }

  lemma DoubleOrder(b: seq<Byte>, x: nat, y: nat, h: nat)
    requires x < |b| && y < |b|
    ensures var x', y' := Advance(|b|, x, h), Advance(|b|, y, h);
      && (Key(b, x, 2 * h) <= Key(b, y, 2 * h) <==>
          Key(b, x, h) < Key(b, y, h) || (Key(b, x, h) == Key(b, y, h) && Key(b, x', h) <= Key(b, y', h)))
      && (Key(b, x, 2 * h) == Key(b, y, 2 * h) <==> Key(b, x, h) == Key(b, y, h) && Key(b, x', h) == Key(b, y', h))
  {
    KeySplitOrder(b, x, y, h, h);
  }

  lemma {:induction false} SingleHead(b: seq<Byte>, f: seq<nat>, bits: seq<bool>, h: nat, r: int, l: nat, q: nat)
    requires PassAt(b, f, bits, h, r) && l <= |b| && AllAre(bits, true, r + 1, l + 1) && r < q < l
    ensures bits[q] && HeadAt(b, f, h, q) && HeadAt(b, f, 2 * h, q)
  {
    assert bits[q] <==> HeadAt(b, f, h, q);
    if q > 0 { DoubleOrder(b, f[q - 1], f[q], h); }
  }

  lemma {:induction false} SingleOrder(b: seq<Byte>, f: seq<nat>, bits: seq<bool>, h: nat, r: int, l: nat, p: nat,
                                       q: nat)
    requires PassAt(b, f, bits, h, r) && l <= |b| && AllAre(bits, true, r + 1, l + 1) && p < q < l
    ensures Key(b, f[p], 2 * h) <= Key(b, f[q], 2 * h)
  {
    if r < q {
      SingleHead(b, f, bits, h, r, l, q);
      assert Key(b, f[q - 1], h) <= Key(b, f[q], h);
      assert p < q - 1 ==> Key(b, f[p], h) <= Key(b, f[q - 1], h);
      DoubleOrder(b, f[p], f[q], h);
    }
  }

  /** Slots r+1..l-1 are buckets of their own at depth h, hence at depth 2h. */
  lemma {:induction false} SkipSingles(b: seq<Byte>, f: seq<nat>, bits: seq<bool>, h: nat, r: int, l: nat)
    requires PassAt(b, f, bits, h, r) && r < l <= |b| && AllAre(bits, true, r + 1, l + 1)
    ensures PassAt(b, f, bits, h, l - 1)
  {
    var h' := 2 * h;
    forall q | r < q < l ensures bits[q] && HeadAt(b, f, h', q) { SingleHead(b, f, bits, h, r, l, q); }
    forall p, q | 0 <= p < q < l ensures Key(b, f[p], h') <= Key(b, f[q], h') {
      SingleOrder(b, f, bits, h, r, l, p, q);
    }
    assert bits[l];
  }

  lemma {:induction false} PassEnd(b: seq<Byte>, f: seq<nat>, bits: seq<bool>, h: nat)
    requires PassAt(b, f, bits, h, |b| - 1)
    ensures Refined(b, f, bits, 2 * h)
  {
  }

  /** Slots l..r hold one bucket at depth h. */
  ghost predicate OneBucket(b: seq<Byte>, f: seq<nat>, bits: seq<bool>, l: nat, r: nat) {
    && l < r < |b| && |f| == |b| && |b| < |bits|
    && bits[l] && AllAre(bits, false, l + 1, r + 1) && bits[r + 1]
  }

  lemma {:induction false} BucketKeys(b: seq<Byte>, f: seq<nat>, bits: seq<bool>, h: nat, l: nat, r: nat, k: nat)
    requires PassAt(b, f, bits, h, l - 1) && OneBucket(b, f, bits, l, r) && l <= k <= r
    ensures Key(b, f[k], h) == Key(b, f[l], h)
    decreases k
  {
    if l < k {
      BucketKeys(b, f, bits, h, l, r, k - 1);
      assert bits[k] <==> HeadAt(b, f, h, k);
    }
  }

  lemma PermutedPrefix(s: seq<nat>, t: seq<nat>, lo: nat, hi: int, n: nat)
    requires Permuted(s, t, lo, hi) && hi < n <= |s|
    ensures Permuted(s[..n], t[..n], lo, hi)
  {
    var a, b, c := s[..n], t[..n], s[n..];
    assert s == a + c && t == b + c by { assert c == t[n..]; }
    assert multiset(a) + multiset(c) == multiset(b) + multiset(c);
    assert multiset(a) == multiset(b) by {
      assert multiset(a) == multiset(a) + multiset(c) - multiset(c);
    }
  }

  lemma OrderedPrefix(s: seq<nat>, ec: seq<nat>, lo: nat, hi: int, n: nat)
    requires Ordered(s, ec, lo, hi) && hi < n <= |s|
    ensures Ordered(s[..n], ec, lo, hi)
  {
    assert forall k :: lo <= k <= hi ==> ClassOf(s[..n], ec, k) == ClassOf(s, ec, k);
  }

  /** Sorting inside one bucket leaves the first h bytes found at every slot unchanged. */
  lemma {:induction false} SameKeys(b: seq<Byte>, f: seq<nat>, g: seq<nat>, bits: seq<bool>, h: nat, l: nat, r: nat,
                                    p: nat)
    requires PassAt(b, f, bits, h, l - 1) && OneBucket(b, f, bits, l, r)
    requires Permuted(f, g, l, r) && IsPermutation(g, |b|) && p < |b|
    ensures Key(b, g[p], h) == Key(b, f[p], h)
  {
    if l <= p <= r {
      var p' := CameFrom(f, g, l, r, p);
      BucketKeys(b, f, bits, h, l, r, p);
      BucketKeys(b, f, bits, h, l, r, p');
    }
  }

  /** Slots l..r have been sorted by class; headers are marked to depth 2h before slot i. */
  ghost predicate Marking(b: seq<Byte>, g: seq<nat>, bits: seq<bool>, h: nat, l: nat, r: nat, i: nat) {
    && IsPermutation(g, |b|) && |b| + 1 < |bits| && bits[|b|] && !bits[|b| + 1] && l <= i <= r + 1 <= |b|
    && SortedKeys(b, g, h) && SortedUpTo(b, g, 2 * h, r + 1)
    && HeadsAre(b, g, bits, 2 * h, 0, i) && HeadsAre(b, g, bits, h, i, |b|)
    && bits[r + 1]
    && (forall k :: l <= k <= r ==> Key(b, g[k], h) == Key(b, g[l], h))
    && (i == l ==> bits[l])
  }

  lemma {:induction false} BucketOrder(b: seq<Byte>, f: seq<nat>, g: seq<nat>, bits: seq<bool>, ec: seq<nat>, h: nat,
                                       l: nat, r: nat, p: nat, q: nat)
    requires PassAt(b, f, bits, h, l - 1) && OneBucket(b, f, bits, l, r)
    requires Permuted(f, g, l, r) && IsPermutation(g, |b|) && Ordered(g, ec, l, r) && Ranked(b, ec, h)
    requires p < q <= r
    ensures Key(b, g[p], 2 * h) <= Key(b, g[q], 2 * h)
  {
    if l <= q {
      SameKeys(b, f, g, bits, h, l, r, p);
      SameKeys(b, f, g, bits, h, l, r, q);
      BucketKeys(b, f, bits, h, l, r, q);
      DoubleOrder(b, g[p], g[q], h);
      if l <= p {
        BucketKeys(b, f, bits, h, l, r, p);
        assert ClassOf(g, ec, p) <= ClassOf(g, ec, q);
        assert ec[g[p]] <= ec[g[q]];
      } else {
        assert bits[l] <==> HeadAt(b, f, h, l);
        assert Key(b, f[p], h) <= Key(b, f[l - 1], h) <= Key(b, f[l], h);
      }
    }
  }

  lemma {:induction false} BucketHeads(b: seq<Byte>, f: seq<nat>, g: seq<nat>, bits: seq<bool>, h: nat, l: nat, r: nat)
    requires PassAt(b, f, bits, h, l - 1) && OneBucket(b, f, bits, l, r)
    requires Permuted(f, g, l, r) && IsPermutation(g, |b|)
    ensures SortedKeys(b, g, h) && HeadsAre(b, g, bits, 2 * h, 0, l) && HeadsAre(b, g, bits, h, l, |b|)
    ensures forall k :: l <= k <= r ==> Key(b, g[k], h) == Key(b, g[l], h)
  {
    forall p | 0 <= p < |b| ensures Key(b, g[p], h) == Key(b, f[p], h) {
      SameKeys(b, f, g, bits, h, l, r, p);
    }
    forall k | l <= k <= r ensures Key(b, g[k], h) == Key(b, g[l], h) {
      BucketKeys(b, f, bits, h, l, r, k);
    }
    var h' := 2 * h;
    forall p | 0 <= p < l ensures bits[p] <==> HeadAt(b, g, h', p) {
      assert bits[p] <==> HeadAt(b, f, h', p);
    }
    forall p | l <= p < |b| ensures bits[p] <==> HeadAt(b, g, h, p) {
      assert bits[p] <==> HeadAt(b, f, h, p);
    }
  }

  lemma {:induction false} BucketSorted(b: seq<Byte>, f: seq<nat>, g: seq<nat>, bits: seq<bool>, ec: seq<nat>, h: nat,
                                        l: nat, r: nat)
    requires PassAt(b, f, bits, h, l - 1) && OneBucket(b, f, bits, l, r)
    requires Permuted(f, g, l, r) && Ordered(g, ec, l, r) && Ranked(b, ec, h)
    ensures Marking(b, g, bits, h, l, r, l)
  {
    PermutedKeepsPermutation(f, g, l, r, |b|);
    BucketHeads(b, f, g, bits, h, l, r);
    var h' := 2 * h;
    forall p, q | 0 <= p < q <= r ensures Key(b, g[p], h') <= Key(b, g[q], h') {
      BucketOrder(b, f, g, bits, ec, h, l, r, p, q);
    }
  }

  lemma {:induction false} MarkSlot(b: seq<Byte>, g: seq<nat>, bits: seq<bool>, ec: seq<nat>, h: nat, l: nat, r: nat,
                                    i: nat)
    requires Marking(b, g, bits, h, l, r, i) && Ranked(b, ec, h) && i <= r
    ensures g[i] < |ec| && (i > 0 ==> g[i - 1] < |ec|)
    ensures HeadAt(b, g, 2 * h, i) <==> i == l || ec[g[i - 1]] != ec[g[i]]
    ensures i > l ==> !bits[i]
  {
    assert bits[i] <==> HeadAt(b, g, h, i);
    if i > 0 {
      DoubleOrder(b, g[i - 1], g[i], h);
      if i > l {
        assert Key(b, g[i - 1], h) == Key(b, g[i], h);
        assert ec[g[i - 1]] == ec[g[i]] <==> ec[g[i - 1]] <= ec[g[i]] && ec[g[i]] <= ec[g[i - 1]];
      }
    }
  }

  lemma {:induction false} MarkStep(b: seq<Byte>, g: seq<nat>, bits: seq<bool>, bits': seq<bool>, ec: seq<nat>, h: nat,
                                    l: nat, r: nat, i: nat)
    requires Marking(b, g, bits, h, l, r, i) && Ranked(b, ec, h) && i <= r
    requires g[i] < |ec| && (i > 0 ==> g[i - 1] < |ec|)
    requires bits' == if i == l || ec[g[i - 1]] != ec[g[i]] then bits[i := true] else bits
    ensures Marking(b, g, bits', h, l, r, i + 1)
  {
    MarkSlot(b, g, bits, ec, h, l, r, i);
    MarkMore(b, g, bits, bits', h, l, r, i);
  }

  lemma {:induction false} MarkMore(b: seq<Byte>, g: seq<nat>, bits: seq<bool>, bits': seq<bool>, h: nat, l: nat,
                                    r: nat, i: nat)
    requires Marking(b, g, bits, h, l, r, i) && i <= r && |bits'| == |bits|
    requires forall p :: 0 <= p < |bits| && p != i ==> bits'[p] == bits[p]
    requires bits'[i] <==> HeadAt(b, g, 2 * h, i)
    requires i == l ==> bits'[i]
    ensures Marking(b, g, bits', h, l, r, i + 1)
  {
    hide Key, HeadAt, SortedKeys, SortedUpTo;
  }

  lemma {:induction false} MarkingFacts(b: seq<Byte>, g: seq<nat>, bits: seq<bool>, h: nat, l: nat, r: nat, i: nat)
    requires Marking(b, g, bits, h, l, r, i)
    ensures r < |b| < |bits|
  {
  }

  lemma {:induction false} MarkEnd(b: seq<Byte>, g: seq<nat>, bits: seq<bool>, h: nat, l: nat, r: nat)
    requires Marking(b, g, bits, h, l, r, r + 1)
    ensures PassAt(b, g, bits, h, r)
  {
  }

  method MarkHeads(fmap: array<UInt32>, eclass: array<UInt32>, table: array<Word>, l: nat, r: nat,
                   ghost b: seq<Byte>, ghost h: nat)
    requires |b| <= fmap.Length && |b| <= eclass.Length
    requires Marking(b, fmap[..|b|], Bits(table[..]), h, l, r, l) && Ranked(b, eclass[..], h) && l <= r
    modifies table
    ensures PassAt(b, fmap[..|b|], Bits(table[..]), h, r)
  {
    hide *;
    ghost var g, ec := fmap[..|b|], eclass[..];
    MarkingFacts(b, g, Bits(table[..]), h, l, r, l);
    var cc: int := -1;
    for i := l to r + 1
      invariant |Bits(table[..])| == 32 * table.Length
      invariant Marking(b, g, Bits(table[..]), h, l, r, i)
      invariant if i == l then cc == -1 else g[i - 1] < |ec| && cc == ec[g[i - 1]]
    {
      ghost var bits := Bits(table[..]);
      MarkSlot(b, g, bits, ec, h, l, r, i);
      assert fmap[i] == g[i];
      var cc1 := eclass[fmap[i]];
      if cc != cc1 {
        Put(table, i, true);
        cc := cc1;
      }
      MarkStep(b, g, bits, Bits(table[..]), ec, h, l, r, i);
    }
    MarkEnd(b, g, Bits(table[..]), h, l, r);
  }

  lemma {:induction false} PassFacts(b: seq<Byte>, f: seq<nat>, bits: seq<bool>, h: nat, r: int)
    requires PassAt(b, f, bits, h, r)
    ensures IsPermutation(f, |b|) && |f| == |b| && |b| + 1 < |bits| && bits[|b|] && !bits[|b| + 1]
    ensures -1 <= r < |b| && bits[r + 1]
  {
  }

  lemma PermutationInRange(s: seq<nat>, n: nat, m: nat, lo: nat, hi: int)
    requires n <= |s| && IsPermutation(s[..n], n) && n <= m && hi < n
    ensures InRange(s, m, lo, hi)
  {
    assert forall k :: lo <= k <= hi ==> s[k] == s[..n][k];
  }

  /** Sorts one bucket by class and marks where the finer buckets begin. */
  method RefineBucket(fmap: array<UInt32>, eclass: array<UInt32>, table: array<Word>, l: nat, r: nat,
                      ghost b: seq<Byte>, ghost h: nat)
    requires fmap != eclass && |b| <= fmap.Length && |b| <= eclass.Length && |b| < 0x8000_0000
    requires PassAt(b, fmap[..|b|], Bits(table[..]), h, l - 1) && OneBucket(b, fmap[..|b|], Bits(table[..]), l, r)
    requires Ranked(b, eclass[..], h)
    modifies fmap, table
    ensures PassAt(b, fmap[..|b|], Bits(table[..]), h, r)
  {
    hide *;
    ghost var n, s, ec := |b|, fmap[..], eclass[..];
    PassFacts(b, s[..n], Bits(table[..]), h, l - 1);
    OneBucketFacts(b, s[..n], Bits(table[..]), l, r);
    PermutationInRange(s, n, |ec|, l, r);
    QSort3(fmap, eclass, l, r);
    PermutedPrefix(s, fmap[..], l, r, n);
    OrderedPrefix(fmap[..], ec, l, r, n);
    assert fmap[..n] == fmap[..][..n];
    BucketSorted(b, s[..n], fmap[..n], Bits(table[..]), ec, h, l, r);
    MarkHeads(fmap, eclass, table, l, r, b, h);
  }

  lemma {:induction false} OneBucketFacts(b: seq<Byte>, f: seq<nat>, bits: seq<bool>, l: nat, r: nat)
    requires OneBucket(b, f, bits, l, r)
    ensures l < r < |b|
  {
  }

  lemma {:induction false} BucketFound(b: seq<Byte>, f: seq<nat>, bits: seq<bool>, l: nat, k: nat)
    requires |f| == |b| < |bits| && l + 1 < k <= |b| && bits[l] && bits[k] && AllAre(bits, false, l + 1, k)
    ensures OneBucket(b, f, bits, l, k - 1)
  {
  }

  lemma {:induction false} RunEnd(bits: seq<bool>, v: bool, from: nat, k: nat)
    requires from <= k < |bits| && AllAre(bits, v, from, k) && bits[from] == v && bits[k] != v
    ensures from < k && bits[k - 1] == v
  {
  }

  /** Every slot so far is a bucket of its own. */
  lemma {:induction false} AllSingleMore(bits: seq<bool>, r: int, k: nat)
    requires -1 <= r && AllAre(bits, true, 0, r + 1) && AllAre(bits, true, r + 1, k)
    ensures AllAre(bits, true, 0, k)
  {
  }

  lemma {:induction false} AllAreLess(bits: seq<bool>, v: bool, from: int, to: int, to': int)
    requires AllAre(bits, v, from, to) && to' <= to
    ensures AllAre(bits, v, from, to')
  {
  }

  /** Finds the next bucket l..q that is not single, if any. */
  method FindBucket(table: array<Word>, r: int, n: nat, ghost b: seq<Byte>, ghost f: seq<nat>, ghost h: nat)
    returns (l: nat, q: nat)
    requires n == |b| && PassAt(b, f, Bits(table[..]), h, r)
    ensures r < l <= n && PassAt(b, f, Bits(table[..]), h, l - 1) && AllAre(Bits(table[..]), true, r + 1, l)
    ensures l < n ==> OneBucket(b, f, Bits(table[..]), l, q) && l < q < n
  {
    hide *;
    ghost var bits := Bits(table[..]);
    PassFacts(b, f, bits, h, r);
    assert |bits| == 32 * table.Length;
    var k := SkipRun(table, r + 1, true, n + 1);
    RunEnd(bits, true, r + 1, k);
    l, q := k - 1, 0;
    SkipSingles(b, f, bits, h, r, l);
    AllAreLess(bits, true, r + 1, k, l);
    if l < n {
      k := SkipRun(table, l + 1, false, n);
      RunEnd(bits, false, l + 1, k);
      BucketFound(b, f, bits, l, k);
      q := k - 1;
    }
  }

  /** One pass over all buckets; counts the entries of buckets that were not yet single. */
  method Pass(fmap: array<UInt32>, eclass: array<UInt32>, table: array<Word>, n: nat, ghost b: seq<Byte>, ghost h: nat)
    returns (nNotDone: nat)
    requires fmap != eclass && 0 < n == |b| <= fmap.Length && n <= eclass.Length && n < 0x8000_0000
    requires Refined(b, fmap[..n], Bits(table[..]), h) && Ranked(b, eclass[..], h)
    modifies fmap, table
    ensures Refined(b, fmap[..n], Bits(table[..]), 2 * h)
    ensures nNotDone == 0 ==> AllAre(Bits(table[..]), true, 0, n)
  {
    hide *;
    PassStart(b, fmap[..n], Bits(table[..]), h);
    AllAreStart(Bits(table[..]), true, 0);
    nNotDone := 0;
    var r := -1;
    while true
      invariant -1 <= r < n && eclass[..] == old(eclass[..])
      invariant PassAt(b, fmap[..n], Bits(table[..]), h, r)
      invariant nNotDone == 0 ==> AllAre(Bits(table[..]), true, 0, r + 1)
      decreases n - r
    {
      var l, q := FindBucket(table, r, n, b, fmap[..n], h);
      if nNotDone == 0 { AllSingleMore(Bits(table[..]), r, l); }
      if l >= n { break; }
      r := q;
      if r > l {
        nNotDone := nNotDone + (r - l + 1);
        RefineBucket(fmap, eclass, table, l, r, b, h);
      }
    }
    PassEnd(b, fmap[..n], Bits(table[..]), h);
  }
}
