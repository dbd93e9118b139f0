/** How rotations compare with an endless run of one byte, and by their first two bytes. */
module SameRun {
  import opened MachineInts
  import opened Arithmetic
  import opened Rotations
  import opened Counting
  import opened MainCompare
  import opened PairBuckets
  import opened BucketScan

  /** The key of h equal bytes. */
  ghost function RunKey(v: Byte, h: nat): nat {
    if h == 0 then 0 else v * Pow256(h - 1) + RunKey(v, h - 1)
  }

  lemma {:induction false} RunKeyBound(v: Byte, h: nat)
    ensures RunKey(v, h) < Pow256(h)
  {
    if h > 0 {
      RunKeyBound(v, h - 1);
      DigitBound(v, RunKey(v, h - 1), Pow256(h - 1));
    }
  }

  /** Dropping the last of h + 1 equal bytes. */
  lemma {:induction false} RunKeyLast(v: Byte, h: nat)
    ensures RunKey(v, h + 1) == RunKey(v, h) * 256 + v
  {
    if h == 0 {
      assert Pow256(0) == 1 && RunKey(v, 1) == v * Pow256(0) + RunKey(v, 0);
    } else {
      RunKeyLast(v, h - 1);
      assert Pow256(h) == 256 * Pow256(h - 1);
      RunDigits(v, Pow256(h - 1), RunKey(v, h - 1));
    }
  }

  lemma RunDigits(v: int, p: int, k: int)
    ensures v * (256 * p) + (k * 256 + v) == (v * p + k) * 256 + v
  {
    assert v * (256 * p) == 256 * (v * p);
  }

  lemma KeyFront(b: seq<Byte>, x: nat) returns (l: Byte)
    requires x < |b|
    ensures Key(b, x, |b| + 1) == b[x] * Pow256(|b|) + Key(b, Next(|b|, x), |b|)
    ensures Key(b, x, |b| + 1) == Key(b, x, |b|) * 256 + l
  {
    KeySplit(b, x, |b|, 1);
    OneKey(b, Advance(|b|, x, |b|));
    assert Pow256(1) == 256 * Pow256(0);
    l := b[Advance(|b|, x, |b|)];
  }

  /** A rotation that begins with v and goes on below the run of v lies below that run. */
  lemma RunAbove(b: seq<Byte>, x: nat)
    requires x < |b| && Key(b, Next(|b|, x), |b|) <= RunKey(b[x], |b|)
    ensures Key(b, x, |b|) <= RunKey(b[x], |b|)
  {
    var n, v := |b|, b[x];
    var l := KeyFront(b, x);
    assert RunKey(v, n + 1) == v * Pow256(n) + RunKey(v, n);
    RunKeyLast(v, n);
    DigitOrder(Key(b, x, n), l, RunKey(v, n), v, 256);
  }

  lemma RunBelow(b: seq<Byte>, x: nat)
    requires x < |b| && RunKey(b[x], |b|) <= Key(b, Next(|b|, x), |b|)
    ensures RunKey(b[x], |b|) <= Key(b, x, |b|)
  {
    var n, v := |b|, b[x];
    var l := KeyFront(b, x);
    assert RunKey(v, n + 1) == v * Pow256(n) + RunKey(v, n);
    RunKeyLast(v, n);
    DigitOrder(RunKey(v, n), v, Key(b, x, n), l, 256);
  }

  lemma FirstByteAgainstRun(b: seq<Byte>, x: nat, v: Byte)
    requires x < |b|
    ensures b[x] < v ==> Key(b, x, |b|) <= RunKey(v, |b|)
    ensures v < b[x] ==> RunKey(v, |b|) <= Key(b, x, |b|)
  {
    var h := |b| - 1;
    KeyBound(b, Next(|b|, x), h);
    RunKeyBound(v, h);
    DigitOrder(b[x], Key(b, Next(|b|, x), h), v, RunKey(v, h), Pow256(h));
    DigitOrder(v, RunKey(v, h), b[x], Key(b, Next(|b|, x), h), Pow256(h));
  }

  /** Against the run of its first byte, a rotation is decided by its second byte. */
  lemma PairAgainstRun(b: seq<Byte>, x: nat)
    requires x < |b|
    ensures b[Next(|b|, x)] < b[x] ==> Key(b, x, |b|) <= RunKey(b[x], |b|)
    ensures b[x] < b[Next(|b|, x)] ==> RunKey(b[x], |b|) <= Key(b, x, |b|)
  {
    FirstByteAgainstRun(b, Next(|b|, x), b[x]);
    if b[Next(|b|, x)] < b[x] { RunAbove(b, x); }
    if b[x] < b[Next(|b|, x)] { RunBelow(b, x); }
  }

  /** Different pairs decide the order. */
  lemma PairDecides(b: seq<Byte>, x: nat, y: nat)
    requires x < |b| && y < |b| && Pairs(b)[x] < Pairs(b)[y]
    ensures NotAfter(b, x, y)
  {
    PairIs(b, x);
    PairIs(b, y);
    DigitOrder(b[y], b[Next(|b|, y)], b[x], b[Next(|b|, x)], 256);
    if b[x] < b[y] {
      FirstByteDecides(b, x, y);
    } else {
      FirstByteDecides(b, Next(|b|, x), Next(|b|, y));
      TailDecides(b, x, y);
    }
  }

  /** A block of one byte only: every pair is the same, and every rotation too. */
  lemma {:induction false} LessOfSame(d: seq<nat>, v: nat, c: int)
    requires forall i :: 0 <= i < |d| ==> d[i] == v
    ensures Less(d, c) == if c <= v then 0 else |d|
  {
    if d != [] { LessOfSame(d[..|d| - 1], v, c); }
  }

  lemma {:induction false} KeyOfSame(b: seq<Byte>, x: nat, y: nat, h: nat)
    requires x < |b| && y < |b| && forall i, j :: 0 <= i < j < |b| ==> b[i] == b[j]
    ensures Key(b, x, h) == Key(b, y, h)
    decreases h
  {
    if h > 0 { KeyOfSame(b, Next(|b|, x), Next(|b|, y), h - 1); }
  }
}
