/** The fallback block sort: an exponential radix sort of all cyclic rotations of a block. */
module FallbackSort {
  import opened MachineInts
  import opened Permutations
  import opened Rotations
  import opened Counting
  import opened BitTables
  import opened Words
  import opened FallbackInitial
  import opened FallbackPass

  /* ---- headers after the initial sort ---- */

  /** Some byte below c has its bucket start at k. */
  ghost predicate StartsBelow(b: seq<Byte>, c: int, k: int) {
    exists d :: 0 <= d < c && k == Less(b, d)
  }

  lemma StartsNext(b: seq<Byte>, c: nat, k: int)
    ensures StartsBelow(b, c + 1, k) <==> StartsBelow(b, c, k) || k == Less(b, c)
  {
  }

  /** A slot starts a bucket exactly when its byte differs from that of the slot before. */
  lemma StartsWhereByteChanges(b: seq<Byte>, k: nat)
    requires k < |b|
    ensures StartsBelow(b, 256, k) <==> k == 0 || Bucket(b, k - 1) != Bucket(b, k)
  {
    LessEnds(b);
    var c := Bucket(b, k);
    if k == 0 {
      assert k == Less(b, 0);
    } else {
      var d := Bucket(b, k - 1);
      if StartsBelow(b, 256, k) {
        var e :| 0 <= e < 256 && k == Less(b, e);
        if c < e { LessGrows(b, c + 1, e); }
        if e <= d { LessGrows(b, e, d); }
      } else {
        assert k != Less(b, c);
        assert InBucket(b, c, k - 1);
        BucketUnique(b, c, d, k - 1);
      }
    }
  }

  lemma {:induction false} FirstKeys(b: seq<Byte>, f: seq<nat>, bits: seq<bool>)
    requires FirstBytes(b, f) && |b| + 1 < |bits| && bits[|b|] && !bits[|b| + 1]
    requires forall k :: 0 <= k < |b| ==> (bits[k] <==> StartsBelow(b, 256, k))
    ensures Refined(b, f, bits, 1)
  {
    forall p | 0 <= p < |b| ensures Key(b, f[p], 1) == Bucket(b, p) {
      OneKey(b, f[p]);
    }
    forall p | 0 <= p < |b| ensures bits[p] <==> HeadAt(b, f, 1, p) {
      StartsWhereByteChanges(b, p);
    }
    forall p, q | 0 <= p < q < |b| ensures Key(b, f[p], 1) <= Key(b, f[q], 1) {
      BucketGrows(b, p, q);
    }
  }

  method ClearTable(table: array<Word>, m: nat)
    requires m <= table.Length
    modifies table
    ensures forall k :: 0 <= k < 32 * m ==> !Bits(table[..])[k]
  {
    for i := 0 to m
      invariant forall j :: 0 <= j < i ==> table[j] == seq(32, k => false)
    {
      table[i] := seq(32, k => false);
    }
    forall k | 0 <= k < 32 * m ensures !Bits(table[..])[k] {
      BitIs(table[..], k);
    }
  }

  method MarkStarts(table: array<Word>, ftab: array<int>, n: nat, ghost b: seq<Byte>)
    requires ftab.Length == 257 && n == |b| && 32 * table.Length > n
    requires forall c :: 0 <= c < 256 ==> ftab[c] == Less(b, c)
    requires forall k :: 0 <= k < n ==> !Bits(table[..])[k]
    modifies table
    ensures forall k :: 0 <= k < n ==> (Bits(table[..])[k] <==> StartsBelow(b, 256, k))
  {
    for i := 0 to 256
      invariant forall k :: 0 <= k < n ==> (Bits(table[..])[k] <==> StartsBelow(b, i, k))
    {
      ghost var bits := Bits(table[..]);
      forall k | 0 <= k < n ensures StartsBelow(b, i + 1, k) <==> bits[k] || k == Less(b, i) {
        StartsNext(b, i, k);
      }
      Put(table, ftab[i], true);
    }
  }

  method PlaceSentinels(table: array<Word>, n: nat)
    requires n + 64 <= 32 * table.Length
    modifies table
    ensures Bits(table[..])[..n] == old(Bits(table[..]))[..n]
    ensures Bits(table[..])[n] && !Bits(table[..])[n + 1]
  {
    for i := 0 to 32
      invariant Bits(table[..])[..n] == old(Bits(table[..]))[..n]
      invariant i > 0 ==> Bits(table[..])[n] && !Bits(table[..])[n + 1]
    {
      Put(table, n + 2 * i, true);
      Put(table, n + 2 * i + 1, false);
    }
  }

  method InitialSort(fmap: array<UInt32>, eclass: array<UInt32>, table: array<Word>, n: nat,
                     ftabCopy: array<int>, ghost b: seq<Byte>)
    requires fmap != eclass && 0 < n < 0x8000_0000 && n <= fmap.Length && n <= eclass.Length
    requires n / 32 + 3 <= table.Length && b == ByteView(eclass[..], n) && ftabCopy.Length == 256
    modifies fmap, table, ftabCopy
    ensures FirstBytes(b, fmap[..n])
    ensures Refined(b, fmap[..n], Bits(table[..]), 1)
    ensures forall c :: 0 <= c < 256 ==> ftabCopy[c] == Count(b, c)
  {
    hide *;
    var ftab := new int[257];
    CountBytes(eclass, ftab, n, b);
    for i := 0 to 256
      invariant forall c :: 0 <= c < i ==> ftabCopy[c] == Count(b, c)
      invariant forall c :: 0 <= c < 256 ==> ftab[c] == Count(b, c)
      invariant ftab[256] == 0 && eclass[..] == old(eclass[..])
    {
      ftabCopy[i] := ftab[i];
    }
    Accumulate(ftab, b);
    PlacePositions(eclass, fmap, ftab, n, b);
    var nBhtab := 2 + n / 32;
    ClearTable(table, nBhtab);
    MarkStarts(table, ftab, n, b);
    ghost var bits := Bits(table[..]);
    PlaceSentinels(table, n);
    assert forall k :: 0 <= k < n ==> Bits(table[..])[k] == Bits(table[..])[..n][k] == bits[k];
    FirstKeys(b, fmap[..n], Bits(table[..]));
  }

  /* ---- when the passes may stop ---- */

  lemma {:induction false} DeepEnough(b: seq<Byte>, f: seq<nat>, bits: seq<bool>, h: nat)
    requires Refined(b, f, bits, h) && h >= |b|
    ensures SortedRotations(b, f)
  {
    var n := |b|;
    forall p, q | 0 <= p < q < n ensures Key(b, f[p], n) <= Key(b, f[q], n) {
      assert h == n + (h - n);
      KeySplitOrder(b, f[p], f[q], n, h - n);
    }
    SortedKeysMeans(b, f);
  }

  lemma {:induction false} AllSingle(b: seq<Byte>, f: seq<nat>, bits: seq<bool>, h: nat)
    requires Refined(b, f, bits, h) && AllAre(bits, true, 0, |b|)
    ensures SortedRotations(b, f)
  {
    var n := |b|;
    if h >= n {
      DeepEnough(b, f, bits, h);
    } else {
      forall p, q | 0 <= p < q < n ensures Key(b, f[p], n) <= Key(b, f[q], n) {
        assert bits[q] <==> HeadAt(b, f, h, q);
        assert Key(b, f[q - 1], h) <= Key(b, f[q], h);
        assert p < q - 1 ==> Key(b, f[p], h) <= Key(b, f[q - 1], h);
        assert n == h + (n - h);
        KeySplitOrder(b, f[p], f[q], h, n - h);
      }
      SortedKeysMeans(b, f);
    }
  }

  method Refine(fmap: array<UInt32>, eclass: array<UInt32>, table: array<Word>, n: nat, ghost b: seq<Byte>)
    requires fmap != eclass && 0 < n == |b| < 0x8000_0000 && n <= fmap.Length && n <= eclass.Length
    requires n <= 32 * table.Length && Refined(b, fmap[..n], Bits(table[..]), 1)
    modifies fmap, eclass, table
    ensures SortedRotations(b, fmap[..n])
  {
    hide *;
    var h := 1;
    while true
      invariant 1 <= h <= n && Refined(b, fmap[..n], Bits(table[..]), h)
      decreases n - h
    {
      RefinedFacts(b, fmap[..n], Bits(table[..]), h);
      FillClasses(fmap, eclass, table, n, h);
      ClassedRanks(b, fmap[..n], Bits(table[..]), eclass[..], h);
      var nNotDone := Pass(fmap, eclass, table, n, b, h);
      h := h * 2;
      if h > n {
        DeepEnough(b, fmap[..n], Bits(table[..]), h);
        break;
      }
      if nNotDone == 0 {
        AllSingle(b, fmap[..n], Bits(table[..]), h);
        break;
      }
    }
  }

  lemma {:induction false} RefinedFacts(b: seq<Byte>, f: seq<nat>, bits: seq<bool>, h: nat)
    requires Refined(b, f, bits, h)
    ensures IsPermutation(f, |b|)
  {
  }

  /* ---- putting the block back ---- */

  /** Sorted rotations meet the bytes in sorted order. */
  lemma SortedFirstBytes(b: seq<Byte>, f: seq<nat>, f0: seq<nat>)
    requires SortedRotations(b, f) && FirstBytes(b, f0) && |b| > 0
    ensures FirstBytes(b, f)
  {
    var n := |b|;
    SortedKeysMeans(b, f);
    forall p, q | 0 <= p < q < n ensures b[f[p]] <= b[f[q]] {
      assert Key(b, f[p], n) <= Key(b, f[q], n);
      KeySplitOrder(b, f[p], f[q], 1, n - 1);
      OneKey(b, f[p]);
      OneKey(b, f[q]);
    }
    forall p, q | 0 <= p < q < n ensures b[f0[p]] <= b[f0[q]] { BucketGrows(b, p, q); }
    forall k | 0 <= k < n ensures b[f[k]] == Bucket(b, k) { SortedAgree(f, f0, b, k); }
  }

  /** Slots before i have been consumed from the counts, and j is the byte being handed out. */
  ghost predicate Handing(b: seq<Byte>, counts: seq<int>, i: nat, j: int) {
    && |counts| == 256 && i <= |b| && 0 <= j < 256 && Less(b, j) <= i <= Less(b, j + 1)
    && counts[j] == Less(b, j + 1) - i
    && forall c :: j < c < 256 ==> counts[c] == Count(b, c)
  }

  lemma HandingNext(b: seq<Byte>, counts: seq<int>, i: nat, j: int)
    requires Handing(b, counts, i, j) && i < |b| && counts[j] == 0
    ensures j < 255 && Handing(b, counts, i, j + 1)
  {
    LessEnds(b);
    LessNext(b, j + 1);
  }

  lemma HandingSlot(b: seq<Byte>, counts: seq<int>, i: nat, j: int)
    requires Handing(b, counts, i, j) && i < |b| && counts[j] != 0
    ensures j == Bucket(b, i) && Handing(b, counts[j := counts[j] - 1], i + 1, j)
  {
    BucketUnique(b, j, Bucket(b, i), i);
  }

  lemma HandingStart(b: seq<Byte>, counts: seq<int>)
    requires |counts| == 256 && forall c :: 0 <= c < 256 ==> counts[c] == Count(b, c)
    ensures Handing(b, counts, 0, 0)
  {
    LessEnds(b);
    LessNext(b, 0);
  }

  ghost predicate Restored(b: seq<Byte>, f: seq<nat>, view: seq<Byte>, i: nat) {
    && |view| == |b| == |f| && Below(f, |b|)
    && forall p :: 0 <= p < |b| && p < i ==> view[f[p]] == b[f[p]]
  }

  lemma RestoreStart(b: seq<Byte>, f: seq<nat>, view: seq<Byte>)
    requires FirstBytes(b, f) && |view| == |b|
    ensures Restored(b, f, view, 0) && IsPermutation(f, |b|)
  {
  }

  lemma RestoreStep(b: seq<Byte>, f: seq<nat>, view: seq<Byte>, i: nat, v: Byte)
    requires Restored(b, f, view, i) && i < |b| && FirstBytes(b, f) && v == Bucket(b, i)
    ensures Restored(b, f, view[f[i] := v], i + 1)
  {
  }

  lemma RestoreEnd(b: seq<Byte>, f: seq<nat>, view: seq<Byte>)
    requires Restored(b, f, view, |b|) && IsPermutation(f, |b|)
    ensures view == b
  {
    forall x | 0 <= x < |b| ensures view[x] == b[x] { var p := Find(f, |b|, x); }
  }

  /** Takes the next byte in sorted order from the counts. */
  method HandOut(counts: array<int>, j: Byte, i: nat, ghost b: seq<Byte>) returns (r: Byte)
    requires counts.Length == 256 && Handing(b, counts[..], i, j) && i < |b|
    modifies counts
    ensures Handing(b, counts[..], i + 1, r) && r == Bucket(b, i)
  {
    hide *;
    r := j;
    while counts[r] == 0
      invariant Handing(b, counts[..], i, r) && counts[..] == old(counts[..])
      decreases 256 - r
    {
      HandingNext(b, counts[..], i, r);
      r := r + 1;
    }
    HandingSlot(b, counts[..], i, r);
    ghost var cs := counts[..];
    counts[r] := counts[r] - 1;
    assert counts[..] == cs[r := cs[r] - 1];
  }

  /** Rebuilds the block in the bytes of eclass by handing out the counted bytes in order. */
  method Reconstruct(fmap: array<UInt32>, eclass: array<UInt32>, counts: array<int>, n: nat, ghost b: seq<Byte>)
    requires fmap != eclass && counts.Length == 256 && 0 < n == |b| && n <= fmap.Length && n <= eclass.Length
    requires FirstBytes(b, fmap[..n])
    requires forall c :: 0 <= c < 256 ==> counts[c] == Count(b, c)
    modifies eclass, counts
    ensures ByteView(eclass[..], n) == b
  {
    hide *;
    ghost var f := fmap[..n];
    RestoreStart(b, f, ByteView(eclass[..], n));
    HandingStart(b, counts[..]);
    var j: Byte := 0;
    for i := 0 to n
      invariant fmap[..n] == f
      invariant Handing(b, counts[..], i, j)
      invariant Restored(b, f, ByteView(eclass[..], n), i)
    {
      ghost var ec := eclass[..];
      j := HandOut(counts, j, i, b);
      assert eclass[..] == ec && fmap[i] == f[i];
      RestoreStep(b, f, ByteView(ec, n), i, j);
      RestoreTarget(f, n, i);
      PutByte(eclass, fmap[i], j, n);
    }
    RestoreEnd(b, f, ByteView(eclass[..], n));
  }

  lemma RestoreTarget(f: seq<nat>, n: nat, i: nat)
    requires IsPermutation(f, n) && i < n
    ensures f[i] < n
  {
  }

  /** Sorts the rotations of the block held in the bytes of eclass, and leaves the block there again. */
  method Sort(fmap: array<UInt32>, eclass: array<UInt32>, table: array<Word>, n: nat)
    requires fmap != eclass && 0 < n < 0x8000_0000 && n <= fmap.Length && n <= eclass.Length
    requires n / 32 + 3 <= table.Length
    modifies fmap, eclass, table
    ensures SortedRotations(old(ByteView(eclass[..], n)), fmap[..n])
    ensures ByteView(eclass[..], n) == old(ByteView(eclass[..], n))
  {
    hide *;
    ghost var b := ByteView(eclass[..], n);
    var ftabCopy := new int[256];
    InitialSort(fmap, eclass, table, n, ftabCopy, b);
    ghost var f0 := fmap[..n];
    Refine(fmap, eclass, table, n, b);
    SortedFirstBytes(b, fmap[..n], f0);
    Reconstruct(fmap, eclass, ftabCopy, n, b);
  }
}
