/** The table of small buckets: where each starts, and a mark on those that are in order. */
module BucketTable {
  import opened MachineInts
  import opened Arithmetic
  import opened Permutations
  import opened Rotations
  import opened Counting
  import opened FallbackQuickSort
  import opened MainSimpleSort
  import opened PairBuckets
  import opened SameRun
  import opened BucketSweep
  import opened BucketComplete

  /* ---- bit 21 of a table entry ---- */

  const SETMASK := 0x20_0000

  function HasMask(x: UInt32): bool {
    (x / SETMASK) % 2 == 1
  }

  /** The entry with the mark cleared. */
  function Unmasked(x: UInt32): (r: UInt32)
    ensures !HasMask(r)
  {
    if HasMask(x) then ClearMask(x); x - SETMASK else x
  }

  lemma ClearMask(x: UInt32)
    requires HasMask(x)
    ensures x >= SETMASK && !HasMask(x - SETMASK)
  {
    DivMod(x, SETMASK);
    DivUnique(x - SETMASK, SETMASK, x / SETMASK - 1, x % SETMASK);
  }

  /** The entry with the mark set. */
  function Masked(x: UInt32): (r: UInt32)
    ensures HasMask(r)
  {
    if HasMask(x) then x else SetMask(x); x + SETMASK
  }

  lemma SetMask(x: UInt32)
    requires !HasMask(x)
    ensures x + SETMASK < 0x1_0000_0000 && HasMask(x + SETMASK)
  {
    DivMod(x, SETMASK);
    QuotientBound(x, SETMASK, 2048);
    DivUnique(x + SETMASK, SETMASK, x / SETMASK + 1, x % SETMASK);
  }

  ghost function Entry(d: seq<nat>, c: int, marked: bool): nat {
    Less(d, c) + if marked then SETMASK else 0
  }

  lemma EntryReads(d: seq<nat>, c: int, marked: bool, x: UInt32)
    requires |d| < SETMASK && x == Entry(d, c, marked)
    ensures HasMask(x) == marked && Unmasked(x) == Less(d, c) && Masked(x) == Entry(d, c, true)
  {
    DivUnique(Less(d, c), SETMASK, 0, Less(d, c));
    DivUnique(Less(d, c) + SETMASK, SETMASK, 1, Less(d, c));
  }

  /** ftab holds the start of every small bucket, and the marks. */
  ghost predicate Table(d: seq<nat>, ftab: seq<nat>, mark: seq<bool>) {
    && |ftab| == 65537 && |mark| == 65536 && |d| < SETMASK && Below(d, 65536)
    && ftab[65536] == |d|
    && forall c :: 0 <= c < 65536 ==> ftab[c] == Entry(d, c, mark[c])
  }

  lemma {:induction false} TableRead(d: seq<nat>, ftab: seq<nat>, mark: seq<bool>, c: nat)
    requires Table(d, ftab, mark) && c <= 65536
    ensures |ftab| == 65537 && |mark| == 65536 && ftab[c] < 0x1_0000_0000 && Unmasked(ftab[c]) == Less(d, c) <= |d|
    ensures c < 65536 ==> HasMask(ftab[c]) == mark[c]
  {
    if c < 65536 {
      EntryReads(d, c, mark[c], ftab[c]);
    } else {
      LessAll(d, 65536);
      EntryReads(d, c, false, ftab[c]);
    }
  }

  lemma {:induction false} TableMark(d: seq<nat>, ftab: seq<nat>, mark: seq<bool>, c: nat)
    requires Table(d, ftab, mark) && c < 65536 && ftab[c] < 0x1_0000_0000
    ensures Table(d, ftab[c := Masked(ftab[c])], mark[c := true])
  {
    EntryReads(d, c, mark[c], ftab[c]);
  }

  lemma {:induction false} TableIs(d: seq<nat>, ftab: seq<nat>, mark: seq<bool>)
    requires |ftab| == 65537 && |mark| == 65536 && |d| < SETMASK && Below(d, 65536) && ftab[65536] == |d|
    requires forall c :: 0 <= c < 65536 ==> !mark[c] && ftab[c] == Less(d, c)
    ensures Table(d, ftab, mark)
  {
  }

  /* ---- what the marks promise ---- */

  /** Bucket c of all pairs is in order. */
  ghost predicate InOrder(b: seq<Byte>, p: seq<nat>, c: int) {
    Ordered(p, Keys(b), Less(Pairs(b), c), Less(Pairs(b), c + 1) - 1)
  }

  /** The positions are in their buckets, and marked buckets are in order. */
  ghost predicate Progress(b: seq<Byte>, p: seq<nat>, mark: seq<bool>) {
    && Bucketed(Pairs(b), p) && |mark| == 65536
    && forall c :: 0 <= c < 65536 && mark[c] ==> InOrder(b, p, c)
  }

  lemma InOrderIs(b: seq<Byte>, p: seq<nat>, c: int, s: Byte)
    ensures InOrder(b, p, 256 * c + s) <==> SmallSorted(b, p, c, s)
  {
  }

  lemma {:induction false} ProgressStart(b: seq<Byte>, p: seq<nat>, mark: seq<bool>)
    requires Bucketed(Pairs(b), p) && |mark| == 65536 && forall c :: 0 <= c < 65536 ==> !mark[c]
    ensures Progress(b, p, mark)
  {
  }

  lemma {:induction false} ProgressMark(b: seq<Byte>, p: seq<nat>, mark: seq<bool>, c: nat)
    requires Progress(b, p, mark) && c < 65536 && InOrder(b, p, c)
    ensures Progress(b, p, mark[c := true])
  {
    hide InOrder, Bucketed;
  }

  lemma {:induction false} ProgressIs(b: seq<Byte>, p: seq<nat>, mark: seq<bool>)
    requires Progress(b, p, mark)
    ensures Bucketed(Pairs(b), p) && |p| == |b| && Below(p, |b|) && |mark| == 65536
  {
  }

  lemma {:induction false} ProgressAt(b: seq<Byte>, p: seq<nat>, mark: seq<bool>, c: nat)
    requires Progress(b, p, mark) && c < 65536 && mark[c]
    ensures InOrder(b, p, c)
  {
    hide InOrder;
  }

  /** Once every bucket is marked, all rotations are sorted. */
  lemma {:induction false} AllMarked(b: seq<Byte>, p: seq<nat>, mark: seq<bool>)
    requires Progress(b, p, mark) && forall c :: 0 <= c < 65536 ==> mark[c]
    ensures SortedRotations(b, p)
  {
    var d := Pairs(b);
    forall k, l | 0 <= k < l < |b| ensures Key(b, p[k], |b|) <= Key(b, p[l], |b|) {
      BucketedAt(d, p, k);
      BucketedAt(d, p, l);
      SlotBounds(d, d[p[l]], l, d[p[k]]);
      if d[p[k]] < d[p[l]] {
        PairDecides(b, p[k], p[l]);
      } else {
        PairIs(b, p[k]);
        ProgressAt(b, p, mark, d[p[k]]);
        ClassIsKey(b, p, k);
        ClassIsKey(b, p, l);
      }
    }
    SortedKeysMeans(b, p);
  }

  /* ---- sorting one small bucket in place ---- */

  /** All entries of a bucket share their first two bytes. */
  lemma BucketShares(b: seq<Byte>, p: seq<nat>, c: nat)
    requires Bucketed(Pairs(b), p)
    ensures Sharing(b, p, Less(Pairs(b), c), Less(Pairs(b), c + 1) - 1, 2)
  {
    var d := Pairs(b);
    var lo, hi := Less(d, c), Less(d, c + 1) - 1;
    forall k | 0 <= k < |p| && lo <= k <= hi ensures p[k] < |b| && d[p[k]] == c {
      BucketedAt(d, p, k);
      SlotUnique(d, d[p[k]], c, k);
    }
    forall k, l | 0 <= k < |p| && 0 <= l < |p| && lo <= k <= hi && lo <= l <= hi
      ensures Key(b, p[k], 2) == Key(b, p[l], 2)
    {
      TwoBytes(b, p[k], p[l]);
    }
  }

  lemma TwoBytes(b: seq<Byte>, x: nat, y: nat)
    requires x < |b| && y < |b| && Pairs(b)[x] == Pairs(b)[y]
    ensures Key(b, x, 2) == Key(b, y, 2)
  {
    PairIs(b, x);
    PairIs(b, y);
    OneKey(b, Next(|b|, x));
    OneKey(b, Next(|b|, y));
  }

  lemma {:induction false} BucketRearranged(b: seq<Byte>, p: seq<nat>, t: seq<nat>, c: nat)
    requires Bucketed(Pairs(b), p) && Permuted(p, t, Less(Pairs(b), c), Less(Pairs(b), c + 1) - 1)
    ensures Bucketed(Pairs(b), t)
  {
    var d := Pairs(b);
    var lo, hi := Less(d, c), Less(d, c + 1) - 1;
    PermutedKeepsPermutation(p, t, lo, hi, |b|);
    forall k | 0 <= k < |d| ensures InSlot(d, d[t[k]], k) {
      BucketedAt(d, p, k);
      if lo <= k <= hi {
        var k' := CameFrom(p, t, lo, hi, k);
        BucketedAt(d, p, k');
        SlotUnique(d, d[p[k']], c, k');
      }
    }
  }

  lemma OrderedElsewhere(p: seq<nat>, t: seq<nat>, ec: seq<nat>, lo: int, hi: int, lo': int, hi': int)
    requires Permuted(p, t, lo, hi) && Ordered(p, ec, lo', hi') && (hi' < lo || hi < lo')
    ensures Ordered(t, ec, lo', hi')
  {
    assert forall k :: lo' <= k <= hi' ==> ClassOf(t, ec, k) == ClassOf(p, ec, k);
  }

  lemma {:induction false} ProgressRearranged(b: seq<Byte>, p: seq<nat>, t: seq<nat>, mark: seq<bool>, c: nat)
    requires Progress(b, p, mark) && c < 65536 && !mark[c]
    requires Permuted(p, t, Less(Pairs(b), c), Less(Pairs(b), c + 1) - 1)
    ensures Progress(b, t, mark)
  {
    hide Bucketed, Permuted, Ordered, Less;
    BucketRearranged(b, p, t, c);
    forall e | 0 <= e < 65536 && mark[e] ensures InOrder(b, t, e) {
      LessGrows(Pairs(b), if e < c then e + 1 else c + 1, if e < c then c else e);
      OrderedElsewhere(p, t, Keys(b), Less(Pairs(b), c), Less(Pairs(b), c + 1) - 1, Less(Pairs(b), e),
                       Less(Pairs(b), e + 1) - 1);
    }
  }

  /* ---- the effect of the scans ---- */

  lemma {:induction false} OrderKept(b: seq<Byte>, done: seq<bool>, p0: seq<nat>, p: seq<nat>, s: Byte, c: nat)
    requires Bucketed(Pairs(b), p0) && Untouched(Pairs(b), done, p0, p, s) && c < 65536
    requires InOrder(b, p0, c) && (c % 256 != s || done[c / 256])
    ensures InOrder(b, p, c)
  {
    var d := Pairs(b);
    forall k | Less(d, c) <= k <= Less(d, c + 1) - 1 ensures ClassOf(p, Keys(b), k) == ClassOf(p0, Keys(b), k) {
      BucketedAt(d, p0, k);
      SlotUnique(d, d[p0[k]], c, k);
      assert Kept(d, done, p0, s, k);
    }
  }

  /** Scanning s keeps the promise of the marks, and makes it for every bucket in front of s. */
  lemma {:induction false} ProgressScanned(b: seq<Byte>, done: seq<bool>, p0: seq<nat>, p: seq<nat>, mark: seq<bool>,
                                           s: Byte)
    requires Progress(b, p0, mark) && Bucketed(Pairs(b), p) && Untouched(Pairs(b), done, p0, p, s)
    requires |done| == 256 && forall c: Byte :: !done[c] ==> SmallSorted(b, p, c, s)
    requires forall c: Byte :: done[c] ==> mark[256 * (c as int) + s]
    ensures Progress(b, p, mark) && forall c: Byte :: SmallSorted(b, p, c, s)
  {
    hide Bucketed, InOrder, Untouched, SmallSorted;
    forall c: Byte ensures SmallSorted(b, p, c, s) {
      InOrderIs(b, p, c, s);
      InOrderIs(b, p0, c, s);
      if done[c] {
        DivUnique(256 * (c as int) + s, 256, c, s);
        OrderKept(b, done, p0, p, s, 256 * (c as int) + s);
      }
    }
    forall e: nat | e < 65536 && mark[e] ensures InOrder(b, p, e) {
      DivMod(e, 256);
      if e % 256 == s && !done[e / 256] {
        var c: Byte := e / 256;
        InOrderIs(b, p, c, s);
      } else {
        OrderKept(b, done, p0, p, s, e);
      }
    }
  }
}
