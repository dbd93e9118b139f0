/** The radix sort on the first byte with which the fallback block sort begins. */
module FallbackInitial {
  import opened MachineInts
  import opened Permutations
  import opened Counting
  import opened Words

  /** Slot k of bucket c has received one of the first i positions. */
  ghost predicate Filled(b: seq<Byte>, i: nat, c: int, k: int)
    requires i <= |b|
  {
    InBucket(b, c, k) && k >= Less(b, c + 1) - Count(b[..i], c)
  }

  ghost predicate Placed(b: seq<Byte>, i: nat, ftab: seq<int>, f: seq<nat>) {
    && i <= |b| <= |f| && |ftab| == 257
    && (forall c :: 0 <= c < 256 ==> ftab[c] == Less(b, c + 1) - Count(b[..i], c))
    && (forall c, k :: 0 <= k < |b| && Filled(b, i, c, k) ==> f[k] < i && b[f[k]] == c)
    && (forall c, j, k :: 0 <= j < k < |b| && Filled(b, i, c, j) && Filled(b, i, c, k) ==> f[j] != f[k])
  }

  lemma PlacedSize(b: seq<Byte>, i: nat, ftab: seq<int>, f: seq<nat>)
    requires Placed(b, i, ftab, f)
    ensures i <= |b| <= |f| && |ftab| == 257
  {
  }

  lemma PlaceStart(b: seq<Byte>, ftab: seq<int>, f: seq<nat>)
    requires |b| <= |f| && |ftab| == 257
    requires forall c :: 0 <= c < 256 ==> ftab[c] == Less(b, c + 1)
    ensures Placed(b, 0, ftab, f)
  {
    assert b[..0] == [];
    assert forall c, k :: !Filled(b, 0, c, k);
  }

  lemma FilledNext(b: seq<Byte>, i: nat, c: int, k: int)
    requires i < |b|
    ensures Filled(b, i + 1, c, k) <==> Filled(b, i, c, k) || (c == b[i] && k == Less(b, c + 1) - Count(b[..i], c) - 1)
  {
    CountTake(b, i, c);
    CountRoom(b, i);
    LessNext(b, b[i]);
  }

  lemma PlaceSlot(b: seq<Byte>, i: nat, ftab: seq<int>, f: seq<nat>)
    requires Placed(b, i, ftab, f) && i < |b|
    ensures 0 <= ftab[b[i]] - 1 < |b| && InBucket(b, b[i], ftab[b[i]] - 1)
  {
    CountRoom(b, i);
    LessNext(b, b[i]);
  }

  lemma PlaceStep(b: seq<Byte>, i: nat, ftab: seq<int>, f: seq<nat>)
    requires Placed(b, i, ftab, f) && i < |b| && 0 <= ftab[b[i]] - 1 < |b|
    ensures Placed(b, i + 1, ftab[b[i] := ftab[b[i]] - 1], f[ftab[b[i]] - 1 := i])
  {
    var i', k0 := i + 1, ftab[b[i]] - 1;
    PlaceSlot(b, i, ftab, f);
    var ftab', f' := ftab[b[i] := k0], f[k0 := i];
    forall c | 0 <= c < 256 ensures ftab'[c] == Less(b, c + 1) - Count(b[..i'], c) {
      CountTake(b, i, c);
    }
    forall c, k | 0 <= k < |b| && Filled(b, i', c, k)
      ensures f'[k] < i' && b[f'[k]] == c
      ensures k != k0 ==> Filled(b, i, c, k) && f'[k] == f[k] < i
    {
      FilledNext(b, i, c, k);
      if k == k0 { BucketUnique(b, c, b[i], k); }
    }
    forall c, j, k | 0 <= j < k < |b| && Filled(b, i', c, j) && Filled(b, i', c, k)
      ensures f'[j] != f'[k]
    {
      if j != k0 && k != k0 { assert Filled(b, i, c, j) && Filled(b, i, c, k); }
    }
    assert Placed(b, i', ftab', f');
  }

  /** The first byte of each rotation in f is the one its slot calls for. */
  ghost predicate FirstBytes(b: seq<Byte>, f: seq<nat>) {
    && IsPermutation(f, |b|)
    && forall k :: 0 <= k < |b| ==> b[f[k]] == Bucket(b, k)
  }

  lemma AllFilled(b: seq<Byte>, c: int, k: int)
    ensures Filled(b, |b|, c, k) <==> InBucket(b, c, k)
  {
    assert b[..|b|] == b;
    LessNext(b, c);
  }

  lemma PlacedDistinct(b: seq<Byte>, ftab: seq<int>, f: seq<nat>, j: nat, k: nat)
    requires Placed(b, |b|, ftab, f) && j < k < |b|
    ensures f[j] != f[k]
  {
    var c, d := Bucket(b, j), Bucket(b, k);
    AllFilled(b, c, j);
    AllFilled(b, d, k);
  }

  lemma PlacedByte(b: seq<Byte>, ftab: seq<int>, f: seq<nat>, k: nat)
    requires Placed(b, |b|, ftab, f) && k < |b|
    ensures f[k] < |b| && b[f[k]] == Bucket(b, k)
  {
    AllFilled(b, Bucket(b, k), k);
  }

  lemma FirstBytesAre(b: seq<Byte>, g: seq<nat>)
    requires |g| == |b| && forall k :: 0 <= k < |b| ==> g[k] < |b| && b[g[k]] == Bucket(b, k)
    requires forall j, k :: 0 <= j < k < |b| ==> g[j] != g[k]
    ensures FirstBytes(b, g)
  {
  }

  lemma PlacedFirst(b: seq<Byte>, ftab: seq<int>, f: seq<nat>)
    requires Placed(b, |b|, ftab, f)
    ensures FirstBytes(b, f[..|b|])
  {
    hide *;
    PlacedSize(b, |b|, ftab, f);
    var g := f[..|b|];
    forall k | 0 <= k < |b| ensures g[k] < |b| && b[g[k]] == Bucket(b, k) { PlacedByte(b, ftab, f, k); }
    forall j, k | 0 <= j < k < |b| ensures g[j] != g[k] { PlacedDistinct(b, ftab, f, j, k); }
    FirstBytesAre(b, g);
  }

  lemma PlacedStart(b: seq<Byte>, ftab: seq<int>, f: seq<nat>, c: int)
    requires Placed(b, |b|, ftab, f) && 0 <= c < 256
    ensures |ftab| > c && ftab[c] == Less(b, c)
  {
    hide Less, Count, Filled;
    assert b[..|b|] == b;
    LessNext(b, c);
  }

  lemma PlaceEnd(b: seq<Byte>, ftab: seq<int>, f: seq<nat>)
    requires Placed(b, |b|, ftab, f)
    ensures FirstBytes(b, f[..|b|])
    ensures forall c :: 0 <= c < 256 ==> ftab[c] == Less(b, c)
  {
    hide *;
    PlacedSize(b, |b|, ftab, f);
    PlacedFirst(b, ftab, f);
    forall c | 0 <= c < 256 ensures ftab[c] == Less(b, c) { PlacedStart(b, ftab, f, c); }
  }

  method CountBytes(eclass: array<UInt32>, ftab: array<int>, n: nat, ghost b: seq<Byte>)
    requires ftab.Length == 257 && n <= eclass.Length && b == ByteView(eclass[..], n)
    modifies ftab
    ensures forall c :: 0 <= c < 256 ==> ftab[c] == Count(b, c)
    ensures ftab[256] == 0
  {
    for i := 0 to 257
      invariant forall c :: 0 <= c < i ==> ftab[c] == 0
    {
      ftab[i] := 0;
    }
    assert b[..0] == [];
    for i := 0 to n
      invariant forall c :: 0 <= c < 256 ==> ftab[c] == Count(b[..i], c)
      invariant ftab[256] == 0
    {
      forall c | 0 <= c < 256 ensures Count(b[..i + 1], c) == Count(b[..i], c) + if b[i] == c then 1 else 0 {
        CountTake(b, i, c);
      }
      var v := GetByte(eclass, i, n);
      ftab[v] := ftab[v] + 1;
    }
    assert b[..n] == b;
  }

  method Accumulate(ftab: array<int>, ghost b: seq<Byte>)
    requires ftab.Length == 257 && ftab[256] == 0
    requires forall c :: 0 <= c < 256 ==> ftab[c] == Count(b, c)
    modifies ftab
    ensures forall c :: 0 <= c < 256 ==> ftab[c] == Less(b, c + 1)
  {
    LessEnds(b);
    LessNext(b, 0);
    for i := 1 to 257
      invariant forall c :: 0 <= c < i && c < 256 ==> ftab[c] == Less(b, c + 1)
      invariant forall c :: i <= c < 256 ==> ftab[c] == Count(b, c)
    {
      LessNext(b, i);
      ftab[i] := ftab[i] + ftab[i - 1];
    }
  }

  method PlacePositions(eclass: array<UInt32>, fmap: array<UInt32>, ftab: array<int>, n: nat, ghost b: seq<Byte>)
    requires n < 0x8000_0000 && eclass != fmap && ftab.Length == 257 && n <= eclass.Length && n <= fmap.Length
    requires b == ByteView(eclass[..], n)
    requires forall c :: 0 <= c < 256 ==> ftab[c] == Less(b, c + 1)
    modifies fmap, ftab
    ensures FirstBytes(b, fmap[..n])
    ensures forall c :: 0 <= c < 256 ==> ftab[c] == Less(b, c)
  {
    hide *;
    PlaceStart(b, ftab[..], fmap[..]);
    for i := 0 to n
      invariant |b| == n && eclass[..] == old(eclass[..]) && Placed(b, i, ftab[..], fmap[..])
    {
      ghost var t, f := ftab[..], fmap[..];
      var j := GetByte(eclass, i, n);
      PlaceSlot(b, i, t, f);
      PlaceStep(b, i, t, f);
      var k := ftab[j] - 1;
      ftab[j] := k;
      fmap[k] := i;
      assert ftab[..] == t[j := k] && fmap[..] == f[k := i];
    }
    PlaceEnd(b, ftab[..], fmap[..]);
  }
}
