/** Occurrence counts, and the bucket layout they induce. */
module Counting {
  import opened MachineInts
  import opened Permutations

  /** How many entries of b equal c. */
  ghost function Count(b: seq<nat>, c: int): (r: nat)
    ensures r <= |b|
  {
    if b == [] then 0 else Count(b[..|b| - 1], c) + if b[|b| - 1] == c then 1 else 0
  }

  /** How many entries of b are below c: where bucket c starts. */
  ghost function Less(b: seq<nat>, c: int): (r: nat)
    ensures r <= |b|
  {
    if b == [] then 0 else Less(b[..|b| - 1], c) + if b[|b| - 1] < c then 1 else 0
  }

  lemma {:induction false} LessNext(b: seq<nat>, c: int)
    ensures Less(b, c + 1) == Less(b, c) + Count(b, c)
  {
    if b != [] { LessNext(b[..|b| - 1], c); }
  }

  lemma {:induction false} LessAll(b: seq<nat>, m: nat)
    requires Below(b, m)
    ensures Less(b, 0) == 0 && Less(b, m) == |b|
  {
    if b != [] { LessAll(b[..|b| - 1], m); }
  }

  lemma LessEnds(b: seq<Byte>)
    ensures Less(b, 0) == 0 && Less(b, 256) == |b|
  {
    LessAll(b, 256);
  }

  lemma {:induction false} LessGrows(b: seq<nat>, c: int, d: int)
    requires c <= d
    ensures Less(b, c) <= Less(b, d)
  {
    if b != [] { LessGrows(b[..|b| - 1], c, d); }
  }

  lemma CountPush(b: seq<nat>, x: nat, c: int)
    ensures Count(b + [x], c) == Count(b, c) + if x == c then 1 else 0
  {
    assert (b + [x])[..|b|] == b;
  }

  lemma CountTake(b: seq<nat>, i: nat, c: int)
    requires i < |b|
    ensures Count(b[..i + 1], c) == Count(b[..i], c) + if b[i] == c then 1 else 0
  {
    assert b[..i + 1][..i] == b[..i];
  }

  lemma {:induction false} CountPrefix(b: seq<nat>, i: nat, c: int)
    requires i <= |b|
    ensures Count(b[..i], c) <= Count(b, c)
    decreases |b| - i
  {
    if i == |b| {
      assert b[..i] == b;
    } else {
      CountTake(b, i, c);
      CountPrefix(b, i + 1, c);
    }
  }

  /** The occurrence at i is one that the entries before i do not account for. */
  lemma CountRoom(b: seq<nat>, i: nat)
    requires i < |b|
    ensures Count(b[..i], b[i]) < Count(b, b[i])
  {
    CountTake(b, i, b[i]);
    CountPrefix(b, i + 1, b[i]);
  }

  /** Slot k lies in bucket c of the layout that b induces. */
  ghost predicate InSlot(b: seq<nat>, c: int, k: int) {
    Less(b, c) <= k < Less(b, c + 1)
  }

  /** Slot k belongs to bucket c of a layout by bytes. */
  ghost predicate InBucket(b: seq<Byte>, c: int, k: int) {
    0 <= c < 256 && InSlot(b, c, k)
  }

  ghost function SlotFrom(b: seq<nat>, m: nat, k: nat, c: nat): (r: nat)
    requires k < |b| == Less(b, m) && c < m && Less(b, c) <= k
    ensures c <= r < m && InSlot(b, r, k)
    decreases m - c
  {
    if k < Less(b, c + 1) then c else SlotFrom(b, m, k, c + 1)
  }

  /** The bucket slot k belongs to: the k-th smallest byte of b. */
  ghost function Bucket(b: seq<Byte>, k: nat): (r: Byte)
    requires k < |b|
    ensures InBucket(b, r, k)
  {
    LessEnds(b);
    SlotFrom(b, 256, k, 0)
  }

  lemma SlotUnique(b: seq<nat>, c: int, d: int, k: int)
    requires InSlot(b, c, k) && InSlot(b, d, k)
    ensures c == d
  {
    if c < d { LessGrows(b, c + 1, d); }
    if d < c { LessGrows(b, d + 1, c); }
  }

  lemma BucketUnique(b: seq<Byte>, c: int, d: int, k: int)
    requires InBucket(b, c, k) && InBucket(b, d, k)
    ensures c == d
  {
    SlotUnique(b, c, d, k);
  }

  lemma BucketGrows(b: seq<Byte>, j: nat, k: nat)
    requires j <= k < |b|
    ensures Bucket(b, j) <= Bucket(b, k)
  {
    var c, d := Bucket(b, j), Bucket(b, k);
    if d < c { LessGrows(b, d + 1, c); }
  }
}
