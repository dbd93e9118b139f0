/** The radix sort on the first two bytes with which the main block sort begins. */
module PairBuckets {
  import opened Arithmetic
  import opened MachineInts
  import opened Permutations
  import opened Rotations
  import opened Counting
  import opened Words
  import opened SortArea
  import opened MainCompare

  /* ---- the two bytes at each position ---- */

  ghost function PairOf(b: seq<Byte>, i: nat): (r: nat)
    requires i < |b|
    ensures r < 65536
  {
    256 * (b[i] as nat) + b[Next(|b|, i)]
  }

  ghost function Pairs(b: seq<Byte>): (r: seq<nat>)
    ensures |r| == |b| && forall i :: 0 <= i < |b| ==> r[i] == PairOf(b, i) < 65536
  {
    seq(|b|, i requires 0 <= i < |b| => PairOf(b, i))
  }

  lemma PairIs(b: seq<Byte>, i: nat)
    requires i < |b|
    ensures Pairs(b)[i] == 256 * (b[i] as nat) + b[Next(|b|, i)] < 65536
    ensures Pairs(b)[i] / 256 == b[i] && Pairs(b)[i] % 256 == b[Next(|b|, i)]
  {
    DivUnique(PairOf(b, i), 256, b[i], b[Next(|b|, i)]);
  }

  lemma PairsBelow(b: seq<Byte>)
    ensures |Pairs(b)| == |b| && Below(Pairs(b), 65536)
    ensures Less(Pairs(b), 0) == 0 && Less(Pairs(b), 65536) == |b|
  {
    LessAll(Pairs(b), 65536);
  }

  /** The pair whose first byte is v and whose second byte was the first byte of the pair j. */
  function Shifted(j: nat, v: Byte): (r: nat) {
    j / 256 + 256 * (v as nat)
  }

  /** Shifting the byte at i in front of the first byte of the pair behind it gives the pair at i. */
  lemma PairShift(b: seq<Byte>, i: nat, j: nat)
    requires i < |b| && Follows(b, i, j)
    ensures Shifted(j, b[i]) == Pairs(b)[i] < 65536
    ensures i > 0 ==> Follows(b, i - 1, Pairs(b)[i])
  {
    PairIs(b, i);
  }

  /** The first byte of the pair j is the byte behind position i. */
  ghost predicate Follows(b: seq<Byte>, i: nat, j: nat) {
    i < |b| && j < 65536 && j / 256 == b[Next(|b|, i)]
  }

  lemma PairStart(b: seq<Byte>)
    requires b != []
    ensures Follows(b, |b| - 1, 256 * (b[0] as nat))
  {
  }

  /* ---- counting the pairs ---- */

  ghost predicate PairsLeft(d: seq<nat>, ftab: seq<nat>, i: nat) {
    i <= |d| && |ftab| == 65537 && ftab[65536] == 0 && forall c :: 0 <= c < 65536 ==>
      ftab[c] + Count(d[..i], c) == Count(d, c)
  }

  lemma PairsLeftStart(d: seq<nat>, ftab: seq<nat>)
    requires |ftab| == 65537 && forall c :: 0 <= c <= 65536 ==> ftab[c] == 0
    ensures PairsLeft(d, ftab, |d|)
  {
    assert d[..|d|] == d;
  }

  lemma PairsLeftStep(d: seq<nat>, ftab: seq<nat>, i: nat)
    requires PairsLeft(d, ftab, i + 1) && d[i] < 65536
    ensures ftab[d[i]] < |d| && PairsLeft(d, ftab[d[i] := ftab[d[i]] + 1], i)
  {
    forall c | 0 <= c < 65536 ensures ftab[d[i] := ftab[d[i]] + 1][c] + Count(d[..i], c) == Count(d, c) {
      CountTake(d, i, c);
    }
    CountTake(d, i, d[i]);
  }

  lemma PairsLeftEnd(d: seq<nat>, ftab: seq<nat>)
    requires PairsLeft(d, ftab, 0)
    ensures |ftab| == 65537 && ftab[65536] == 0 && forall c :: 0 <= c < 65536 ==> ftab[c] == Count(d, c)
  {
    assert d[..0] == [];
  }

  /** The block is in place, and the quadrants from i on are zero. */
  ghost predicate Cleared(words: seq<UInt32>, b: seq<Byte>, i: nat) {
    && AreaFits(words, |b|) && BlockView(words, |b|)[..|b|] == b
    && forall k :: i <= k < |b| ==> QuadrantView(words, |b|)[k] == 0
  }

  lemma ClearedStep(words: seq<UInt32>, words': seq<UInt32>, b: seq<Byte>, i: nat)
    requires Cleared(words, b, i + 1) && i < |b| && AreaFits(words', |b|)
    requires BlockView(words', |b|) == BlockView(words, |b|)
    requires QuadrantView(words', |b|) == QuadrantView(words, |b|)[i := 0]
    ensures Cleared(words', b, i)
  {
  }

  lemma ClearedByte(words: seq<UInt32>, b: seq<Byte>, i: nat, k: nat)
    requires Cleared(words, b, i) && k < |b|
    ensures AreaFits(words, |b|) && BlockView(words, |b|)[k] == b[k]
  {
    assert BlockView(words, |b|)[..|b|][k] == b[k];
  }

  method ZeroTable(ftab: array<UInt32>)
    requires ftab.Length == 65537
    modifies ftab
    ensures forall c :: 0 <= c <= 65536 ==> ftab[..][c] == 0
  {
    var i := 65536;
    while i >= 0
      invariant -1 <= i <= 65536 && forall c :: i < c <= 65536 ==> ftab[c] == 0
    {
      ftab[i] := 0;
      i := i - 1;
    }
  }

  method CountPairs(arr2: array<UInt32>, ftab: array<UInt32>, n: nat, ghost b: seq<Byte>)
    requires arr2 != ftab && n == |b| > 0 && n < 0x1_0000_0000 && Cleared(arr2[..], b, n)
    requires ftab.Length == 65537 && forall c :: 0 <= c <= 65536 ==> ftab[..][c] == 0
    modifies arr2, ftab
    ensures Cleared(arr2[..], b, 0) && PairsLeft(Pairs(b), ftab[..], 0)
  {
    hide *;
    ghost var d := Pairs(b);
    PairsBelow(b);
    PairsLeftStart(d, ftab[..]);
    PairStart(b);
    ClearedByte(arr2[..], b, n, 0);
    var first := GetBlock(arr2, 0, n);
    var j: nat := 256 * (first as nat);
    var i: int := n - 1;
    while i >= 0
      invariant -1 <= i < n && (i >= 0 ==> Follows(b, i, j))
      invariant Cleared(arr2[..], b, i + 1) && PairsLeft(d, ftab[..], i + 1) && ftab.Length == 65537
    {
      ghost var words, t := arr2[..], ftab[..];
      ClearedByte(words, b, i + 1, i);
      PutQuadrant(arr2, i, 0, n);
      ClearedStep(words, arr2[..], b, i);
      PairShift(b, i, j);
      PairsLeftStep(d, t, i);
      var v := GetBlock(arr2, i, n);
      assert v == b[i] by { ClearedByte(arr2[..], b, i, i); }
      j := Shifted(j, v);
      ftab[j] := ftab[j] + 1;
      assert ftab[..] == t[d[i] := t[d[i]] + 1];
      i := i - 1;
    }
  }

  /* ---- the overshoot ---- */

  ghost predicate Wrapping(words: seq<UInt32>, b: seq<Byte>, i: nat) {
    && i <= 34 < |b| && AreaFits(words, |b|) && BlockView(words, |b|)[..|b| + i] == b + b[..i]
    && forall k :: 0 <= k < |b| + i ==> QuadrantView(words, |b|)[k] == 0
  }

  ghost function Zeros(n: nat): (r: seq<UInt16>)
    ensures |r| == n && forall k :: 0 <= k < n ==> r[k] == 0
  {
    seq(n, i => 0)
  }

  lemma WrappingStart(words: seq<UInt32>, b: seq<Byte>)
    requires Cleared(words, b, 0) && |b| > 34
    ensures Wrapping(words, b, 0)
  {
    assert b + b[..0] == b;
  }

  lemma WrappingByte(words: seq<UInt32>, b: seq<Byte>, i: nat)
    requires Wrapping(words, b, i) && i < |b|
    ensures AreaFits(words, |b|) && BlockView(words, |b|)[i] == b[i]
  {
    assert BlockView(words, |b|)[i] == BlockView(words, |b|)[..|b| + i][i];
  }

  lemma WrappingStep(words: seq<UInt32>, words': seq<UInt32>, b: seq<Byte>, i: nat)
    requires Wrapping(words, b, i) && i < 34 && AreaFits(words', |b|)
    requires BlockView(words', |b|) == BlockView(words, |b|)[|b| + i := b[i]]
    requires QuadrantView(words', |b|) == QuadrantView(words, |b|)[|b| + i := 0]
    ensures Wrapping(words', b, i + 1)
  {
    var v, v' := BlockView(words, |b|), BlockView(words', |b|);
    assert v'[..|b| + i + 1] == v[..|b| + i] + [b[i]];
    assert b[..i + 1] == b[..i] + [b[i]];
  }

  lemma WrappingEnd(words: seq<UInt32>, b: seq<Byte>)
    requires Wrapping(words, b, 34)
    ensures Holds(words, b, Zeros(|b|))
  {
    var v := BlockView(words, |b|);
    assert v == v[..|b| + 34];
    assert QuadrantView(words, |b|) == Wrapped(Zeros(|b|));
  }

  method Overshoot34(arr2: array<UInt32>, n: nat, ghost b: seq<Byte>)
    requires n == |b| > 34 && Cleared(arr2[..], b, 0)
    modifies arr2
    ensures Holds(arr2[..], b, Zeros(n))
  {
    hide *;
    Overshoot();
    WrappingStart(arr2[..], b);
    for i := 0 to BZ_N_OVERSHOOT
      invariant Wrapping(arr2[..], b, i)
    {
      ghost var words := arr2[..];
      WrappingByte(words, b, i);
      var v := GetBlock(arr2, i, n);
      PutBlock(arr2, n + i, v, n);
      PutQuadrant(arr2, n + i, 0, n);
      WrappingStep(words, arr2[..], b, i);
    }
    WrappingEnd(arr2[..], b);
  }

  lemma ClearedBegins(words: seq<UInt32>, b: seq<Byte>)
    requires AreaFits(words, |b|) && ByteView(words, |b|) == b
    ensures Cleared(words, b, |b|)
  {
    BlockPrefix(words, |b|);
  }

  /* ---- placing the positions ---- */

  method AccumulatePairs(ftab: array<UInt32>, ghost d: seq<nat>)
    requires Below(d, 65536) && |d| < 0x1_0000_0000 && PairsLeft(d, ftab[..], 0)
    modifies ftab
    ensures ftab.Length == 65537 && ftab[65536] == |d|
    ensures forall c :: 0 <= c < 65536 ==> ftab[c] == Less(d, c + 1)
  {
    hide *;
    PairsLeftEnd(d, ftab[..]);
    assert forall c :: 0 <= c <= 65536 ==> ftab[..][c] == ftab[c];
    LessAll(d, 65536);
    LessNext(d, 0);
    var i := 1;
    while i <= 65536
      invariant 1 <= i <= 65537 && ftab.Length == 65537 && (i <= 65536 ==> ftab[65536] == 0)
      invariant forall c :: 0 <= c < i && c < 65536 ==> ftab[c] == Less(d, c + 1)
      invariant forall c :: i <= c < 65536 ==> ftab[c] == Count(d, c)
      invariant i > 65536 ==> ftab[65536] == |d|
    {
      LessNext(d, i);
      ftab[i] := ftab[i] + ftab[i - 1];
      i := i + 1;
    }
  }

  /** Slot k of bucket c has received one of the positions from i on. */
  ghost predicate PairFilled(d: seq<nat>, i: nat, c: int, k: int)
    requires i <= |d|
  {
    InSlot(d, c, k) && k >= Less(d, c) + Count(d[..i], c)
  }

  ghost predicate PairsPlaced(d: seq<nat>, i: nat, ftab: seq<nat>, f: seq<nat>) {
    && i <= |d| <= |f| && |ftab| == 65537 && ftab[65536] == |d|
    && (forall c :: 0 <= c < 65536 ==> ftab[c] == Less(d, c) + Count(d[..i], c))
    && (forall c, k :: 0 <= k < |d| && 0 <= c < 65536 && PairFilled(d, i, c, k) ==> i <= f[k] < |d| && d[f[k]] == c)
    && (forall c, j,
        k :: 0 <= j < k < |d| && 0 <= c < 65536 && PairFilled(d, i, c, j) && PairFilled(d, i, c, k) ==> f[j] != f[k])
  }

  lemma PairsPlaceStart(d: seq<nat>, ftab: seq<nat>, f: seq<nat>)
    requires |d| <= |f| && |ftab| == 65537 && ftab[65536] == |d|
    requires forall c :: 0 <= c < 65536 ==> ftab[c] == Less(d, c + 1)
    ensures PairsPlaced(d, |d|, ftab, f)
  {
    assert d[..|d|] == d;
    forall c | 0 <= c < 65536 ensures ftab[c] == Less(d, c) + Count(d, c) { LessNext(d, c); }
    assert forall c, k :: 0 <= c < 65536 ==> !PairFilled(d, |d|, c, k);
  }

  lemma PairFilledNext(d: seq<nat>, i: nat, c: int, k: int)
    requires i < |d|
    ensures PairFilled(d, i, c, k) <==> PairFilled(d, i + 1, c, k) || (c == d[i] && k == Less(d, c) + Count(d[..i], c))
  {
    CountTake(d, i, c);
    CountRoom(d, i);
    LessNext(d, d[i]);
  }

  lemma PairSlot(d: seq<nat>, i: nat, ftab: seq<nat>, f: seq<nat>)
    requires PairsPlaced(d, i + 1, ftab, f) && d[i] < 65536
    ensures 0 <= ftab[d[i]] - 1 < |d| && ftab[d[i]] - 1 == Less(d, d[i]) + Count(d[..i], d[i])
    ensures InSlot(d, d[i], ftab[d[i]] - 1)
    ensures |ftab| == 65537 && |d| <= |f|
  {
    CountTake(d, i, d[i]);
    CountRoom(d, i);
    LessNext(d, d[i]);
    LessGrows(d, d[i], d[i] + 1);
  }

  lemma PairsPlaceStep(d: seq<nat>, i: nat, ftab: seq<nat>, f: seq<nat>)
    requires PairsPlaced(d, i + 1, ftab, f) && d[i] < 65536 && 0 <= ftab[d[i]] - 1 < |d|
    ensures PairsPlaced(d, i, ftab[d[i] := ftab[d[i]] - 1], f[ftab[d[i]] - 1 := i])
  {
    var k0 := ftab[d[i]] - 1;
    PairSlot(d, i, ftab, f);
    var ftab', f' := ftab[d[i] := k0], f[k0 := i];
    hide Less, Count, InSlot;
    forall c | 0 <= c < 65536 ensures ftab'[c] == Less(d, c) + Count(d[..i], c) {
      CountTake(d, i, c);
    }
    hide PairFilled;
    forall c, k | 0 <= k < |d| && 0 <= c < 65536 && PairFilled(d, i, c, k)
      ensures i <= f'[k] < |d| && d[f'[k]] == c
      ensures k != k0 ==> PairFilled(d, i + 1, c, k) && f'[k] == f[k] > i
    {
      PairFilledNext(d, i, c, k);
      if k == k0 { PairFilledSlot(d, i, c, k); SlotUnique(d, c, d[i], k); }
    }
    forall c, j, k | 0 <= j < k < |d| && 0 <= c < 65536 && PairFilled(d, i, c, j) && PairFilled(d, i, c, k)
      ensures f'[j] != f'[k]
    {
      if j != k0 && k != k0 { assert PairFilled(d, i + 1, c, j) && PairFilled(d, i + 1, c, k); }
    }
  }

  lemma PairFilledSlot(d: seq<nat>, i: nat, c: int, k: int)
    requires i <= |d| && PairFilled(d, i, c, k)
    ensures InSlot(d, c, k)
  {
  }

  /** Every slot holds a position whose pair is the one the slot belongs to. */
  ghost predicate Bucketed(d: seq<nat>, p: seq<nat>) {
    && IsPermutation(p, |d|)
    && forall k :: 0 <= k < |d| ==> InSlot(d, d[p[k]], k)
  }

  lemma BucketedAt(d: seq<nat>, p: seq<nat>, k: nat)
    requires Bucketed(d, p) && k < |d|
    ensures |p| == |d| && p[k] < |d| && InSlot(d, d[p[k]], k)
  {
  }

  lemma PairsPlaceAt(d: seq<nat>, ftab: seq<nat>, f: seq<nat>, k: nat)
    requires PairsPlaced(d, 0, ftab, f) && Below(d, 65536) && k < |d|
    ensures f[k] < |d| && InSlot(d, d[f[k]], k) && PairFilled(d, 0, d[f[k]], k)
  {
    LessAll(d, 65536);
    var c := SlotFrom(d, 65536, k, 0);
    assert d[..0] == [];
    assert PairFilled(d, 0, c, k);
  }

  lemma PairsPlaceEnd(d: seq<nat>, ftab: seq<nat>, f: seq<nat>)
    requires PairsPlaced(d, 0, ftab, f) && Below(d, 65536)
    ensures Bucketed(d, f[..|d|])
    ensures |ftab| == 65537 && ftab[65536] == |d| && forall c :: 0 <= c < 65536 ==> ftab[c] == Less(d, c)
  {
    assert d[..0] == [];
    hide Less, Count, InSlot, PairFilled;
    var g := f[..|d|];
    forall k | 0 <= k < |d| ensures g[k] < |d| && InSlot(d, d[g[k]], k) { PairsPlaceAt(d, ftab, f, k); }
    forall j, k | 0 <= j < k < |d| ensures g[j] != g[k] {
      PairsPlaceAt(d, ftab, f, j);
      PairsPlaceAt(d, ftab, f, k);
    }
    assert IsPermutation(g, |d|);
  }

  method PlacePairs(arr2: array<UInt32>, ptr: array<UInt32>, ftab: array<UInt32>, n: nat, ghost b: seq<Byte>,
                    ghost q: seq<UInt16>)
    requires ptr != arr2 && ftab != arr2 && ftab != ptr && n == |b| < 0x1_0000_0000 && Holds(arr2[..], b, q)
    requires n <= ptr.Length && ftab.Length == 65537 && ftab[65536] == n
    requires forall c :: 0 <= c < 65536 ==> ftab[c] == Less(Pairs(b), c + 1)
    modifies ptr, ftab
    ensures Bucketed(Pairs(b), ptr[..n])
    ensures ftab[65536] == n && forall c :: 0 <= c < 65536 ==> ftab[c] == Less(Pairs(b), c)
  {
    hide *;
    ghost var d := Pairs(b);
    HoldsSize(arr2[..], b, q);
    PairsBelow(b);
    PairsPlaceStart(d, ftab[..], ptr[..]);
    PairStart(b);
    FoldIs(n, 0);
    var first := ByteAt(arr2, 0, n, b, q);
    var s: nat := 256 * (first as nat);
    var i: int := n - 1;
    while i >= 0
      invariant -1 <= i < n && (i >= 0 ==> Follows(b, i, s))
      invariant arr2[..] == old(arr2[..]) && PairsPlaced(d, i + 1, ftab[..], ptr[..])
    {
      ghost var t: seq<nat>, f: seq<nat> := ftab[..], ptr[..];
      FoldIs(n, i);
      PairShift(b, i, s);
      PairSlot(d, i, t, f);
      PairsPlaceStep(d, i, t, f);
      var v := ByteAt(arr2, i, n, b, q);
      s := Shifted(s, v);
      assert s == d[i];
      var j: nat := ftab[s] - 1;
      ftab[s] := j;
      ptr[j] := i;
      assert ftab[..] == t[d[i] := j] && ptr[..] == f[j := i];
      i := i - 1;
    }
    PairsPlaceEnd(d, ftab[..], ptr[..]);
    assert forall c :: 0 <= c <= 65536 ==> ftab[..][c] == ftab[c];
  }

  /** Counts the pairs, wraps the block round and sorts the positions by their pairs. */
  method InitialBuckets(arr2: array<UInt32>, ptr: array<UInt32>, ftab: array<UInt32>, n: nat, ghost b: seq<Byte>)
    requires ptr != arr2 && ftab != arr2 && ftab != ptr && 34 < n == |b| < 0x1_0000_0000
    requires AreaFits(arr2[..], n) && ByteView(arr2[..], n) == b && n <= ptr.Length && ftab.Length == 65537
    modifies arr2, ptr, ftab
    ensures Holds(arr2[..], b, Zeros(n)) && Bucketed(Pairs(b), ptr[..n])
    ensures ftab[65536] == n && forall c :: 0 <= c < 65536 ==> ftab[c] == Less(Pairs(b), c)
  {
    hide *;
    PairsBelow(b);
    ClearedBegins(arr2[..], b);
    ZeroTable(ftab);
    CountPairs(arr2, ftab, n, b);
    Overshoot34(arr2, n, b);
    AccumulatePairs(ftab, Pairs(b));
    PlacePairs(arr2, ptr, ftab, n, b, Zeros(n));
  }
}
