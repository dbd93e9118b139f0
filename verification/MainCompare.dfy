/** The comparison of two rotations on which the main block sort rests. */
module MainCompare {
  import opened MachineInts
  import opened Rotations
  import opened SortArea

  /* ---- deciding an order from a later position ---- */

  /** Rotation x does not come after rotation y. */
  ghost predicate NotAfter(b: seq<Byte>, x: nat, y: nat)
    requires x < |b| && y < |b|
  {
    Key(b, x, |b|) <= Key(b, y, |b|)
  }

  lemma {:induction false} AdvanceNext(n: nat, i: nat, k: nat)
    requires i < n
    ensures Advance(n, i, k + 1) == Next(n, Advance(n, i, k))
    decreases k
  {
    if k > 0 { AdvanceNext(n, Next(n, i), k - 1); }
  }

  /** If two rotations share h bytes, the order h further on is their order. */
  lemma OrderBack(b: seq<Byte>, x: nat, y: nat, h: nat)
    requires x < |b| && y < |b| && Key(b, x, h) == Key(b, y, h)
    requires NotAfter(b, Advance(|b|, x, h), Advance(|b|, y, h))
    ensures NotAfter(b, x, y)
  {
    KeySplitOrder(b, x, y, h, |b|);
    assert h + |b| == |b| + h;
    KeySplitOrder(b, x, y, |b|, h);
  }

  lemma FirstByteDecides(b: seq<Byte>, x: nat, y: nat)
    requires x < |b| && y < |b| && b[x] < b[y]
    ensures NotAfter(b, x, y)
  {
    OneKey(b, x);
    OneKey(b, y);
    assert |b| == 1 + (|b| - 1);
    KeySplitOrder(b, x, y, 1, |b| - 1);
  }

  lemma OneMoreByte(b: seq<Byte>, x: nat, y: nat, h: nat)
    requires x < |b| && y < |b| && Key(b, x, h) == Key(b, y, h)
    requires b[Advance(|b|, x, h)] == b[Advance(|b|, y, h)]
    ensures Key(b, x, h + 1) == Key(b, y, h + 1)
  {
    KeySplitOrder(b, x, y, h, 1);
    OneKey(b, Advance(|b|, x, h));
    OneKey(b, Advance(|b|, y, h));
  }

  lemma AllBytes(b: seq<Byte>, x: nat, y: nat, h: nat)
    requires x < |b| && y < |b| && h >= |b| && Key(b, x, h) == Key(b, y, h)
    ensures NotAfter(b, x, y)
  {
    assert h == |b| + (h - |b|);
    KeySplitOrder(b, x, y, |b|, h - |b|);
  }

  /* ---- what the memory holds ---- */

  /** The words hold the wrapped block b and the wrapped quadrants q. */
  ghost predicate Holds(words: seq<UInt32>, b: seq<Byte>, q: seq<UInt16>) {
    && |q| == |b| > 34 && AreaFits(words, |b|)
    && BlockView(words, |b|) == Wrapped(b) && QuadrantView(words, |b|) == Wrapped(q)
  }

  /** Among positions with the same byte, a larger quadrant means a rotation that does not come before. */
  ghost predicate QuadrantsOrder(b: seq<Byte>, q: seq<UInt16>) {
    && |q| == |b|
    && forall x, y :: 0 <= x < |b| && 0 <= y < |b| && b[x] == b[y] && q[x] < q[y] ==> NotAfter(b, x, y)
  }

  lemma HoldsSize(words: seq<UInt32>, b: seq<Byte>, q: seq<UInt16>)
    requires Holds(words, b, q)
    ensures |q| == |b| > 34 && AreaFits(words, |b|)
  {
  }

  method ByteAt(arr2: array<UInt32>, i: nat, n: nat, ghost b: seq<Byte>, ghost q: seq<UInt16>) returns (v: Byte)
    requires n == |b| && Holds(arr2[..], b, q) && i < n + 34
    ensures v == b[Fold(n, i)]
  {
    WrappedAt(b, i);
    v := GetBlock(arr2, i, n);
  }

  method QuadrantOf(arr2: array<UInt32>, i: nat, n: nat, ghost b: seq<Byte>, ghost q: seq<UInt16>) returns (v: UInt16)
    requires n == |b| && Holds(arr2[..], b, q) && i < n + 34
    ensures v == q[Fold(n, i)]
  {
    WrappedAt(q, i);
    v := GetQuadrant(arr2, i, n);
  }

  /* ---- the comparison in progress ---- */

  /** i1 and i2 stand h bytes behind rotations x1 and x2, which agree so far. */
  ghost predicate Comparing(b: seq<Byte>, x1: nat, x2: nat, i1: nat, i2: nat, h: nat) {
    && x1 < |b| && x2 < |b| && i1 < 2 * |b| && i2 < 2 * |b|
    && Fold(|b|, i1) == Advance(|b|, x1, h) && Fold(|b|, i2) == Advance(|b|, x2, h)
    && Key(b, x1, h) == Key(b, x2, h)
  }

  /** greater is a correct answer to the question whether x1 comes after x2. */
  ghost predicate Answers(b: seq<Byte>, x1: nat, x2: nat, greater: bool)
    requires x1 < |b| && x2 < |b|
  {
    if greater then NotAfter(b, x2, x1) else NotAfter(b, x1, x2)
  }

  lemma CompareStarts(b: seq<Byte>, i1: nat, i2: nat)
    requires i1 < 2 * |b| && i2 < 2 * |b|
    ensures Comparing(b, Fold(|b|, i1), Fold(|b|, i2), i1, i2, 0)
  {
  }

  lemma CompareByte(b: seq<Byte>, x1: nat, x2: nat, i1: nat, i2: nat, h: nat)
    requires Comparing(b, x1, x2, i1, i2, h)
    ensures x1 < |b| && x2 < |b| && i1 < 2 * |b| && i2 < 2 * |b|
    ensures b[Fold(|b|, i1)] != b[Fold(|b|, i2)] ==> Answers(b, x1, x2, b[Fold(|b|, i1)] > b[Fold(|b|, i2)])
  {
    var y1, y2 := Fold(|b|, i1), Fold(|b|, i2);
    if b[y1] < b[y2] {
      FirstByteDecides(b, y1, y2);
      OrderBack(b, x1, x2, h);
    } else if b[y2] < b[y1] {
      FirstByteDecides(b, y2, y1);
      OrderBack(b, x2, x1, h);
    }
  }

  lemma CompareQuadrant(b: seq<Byte>, q: seq<UInt16>, x1: nat, x2: nat, i1: nat, i2: nat, h: nat)
    requires Comparing(b, x1, x2, i1, i2, h) && QuadrantsOrder(b, q) && b[Fold(|b|, i1)] == b[Fold(|b|, i2)]
    ensures q[Fold(|b|, i1)] != q[Fold(|b|, i2)] ==> Answers(b, x1, x2, q[Fold(|b|, i1)] > q[Fold(|b|, i2)])
  {
    var y1, y2 := Fold(|b|, i1), Fold(|b|, i2);
    if q[y1] < q[y2] {
      OrderBack(b, x1, x2, h);
    } else if q[y2] < q[y1] {
      OrderBack(b, x2, x1, h);
    }
  }

  lemma CompareNext(b: seq<Byte>, x1: nat, x2: nat, i1: nat, i2: nat, h: nat)
    requires Comparing(b, x1, x2, i1, i2, h) && b[Fold(|b|, i1)] == b[Fold(|b|, i2)]
    requires i1 + 1 < 2 * |b| && i2 + 1 < 2 * |b|
    ensures Comparing(b, x1, x2, i1 + 1, i2 + 1, h + 1)
  {
    OneMoreByte(b, x1, x2, h);
    AdvanceNext(|b|, x1, h);
    AdvanceNext(|b|, x2, h);
  }

  lemma CompareFold(b: seq<Byte>, x1: nat, x2: nat, i1: nat, i2: nat, h: nat)
    requires Comparing(b, x1, x2, i1, i2, h)
    ensures Comparing(b, x1, x2, Fold(|b|, i1), Fold(|b|, i2), h)
  {
  }

  lemma CompareEnds(b: seq<Byte>, x1: nat, x2: nat, i1: nat, i2: nat, h: nat)
    requires Comparing(b, x1, x2, i1, i2, h) && h >= |b|
    ensures x1 < |b| && x2 < |b| && Answers(b, x1, x2, false)
  {
    AllBytes(b, x1, x2, h);
  }

  lemma FoldIs(n: nat, i: nat)
    requires i < 2 * n
    ensures Fold(n, i) == if i >= n then i - n else i
  {
  }

  /** The twelve comparisons of bytes alone, then eight of bytes and quadrants at a time (each unrolled in the source).
      */
  method MainGtU(arr2: array<UInt32>, i1': nat, i2': nat, n: nat, budget: int, ghost b: seq<Byte>, ghost q: seq<UInt16>)
    returns (greater: bool, budget': int)
    requires n == |b| > 34 && i1' < n + 15 && i2' < n + 15
    requires Holds(arr2[..], b, q) && QuadrantsOrder(b, q)
    ensures Answers(b, Fold(n, i1'), Fold(n, i2'), greater) && budget' <= budget
  {
    hide *;
    ghost var x1, x2, h: nat := Fold(n, i1'), Fold(n, i2'), 0;
    var i1: nat, i2: nat := i1', i2';
    budget' := budget;
    CompareStarts(b, i1, i2);
    for step := 0 to 12
      invariant i1 == i1' + step && i2 == i2' + step && h == step
      invariant Comparing(b, x1, x2, i1, i2, h)
    {
      CompareByte(b, x1, x2, i1, i2, h);
      var c1 := ByteAt(arr2, i1, n, b, q);
      var c2 := ByteAt(arr2, i2, n, b, q);
      if c1 != c2 { return c1 > c2, budget'; }
      CompareNext(b, x1, x2, i1, i2, h);
      i1, i2, h := i1 + 1, i2 + 1, h + 1;
    }
    var k: int := n + 8;
    while true
      invariant 0 <= i1 < n + 27 && 0 <= i2 < n + 27 && 0 <= k <= n + 8 && h + k >= n + 20
      invariant Comparing(b, x1, x2, i1, i2, h) && budget' <= budget
      decreases k
    {
      ghost var j1, j2, h0 := i1, i2, h;
      for step := 0 to 8
        invariant i1 == j1 + step && i2 == j2 + step && h == h0 + step
        invariant Comparing(b, x1, x2, i1, i2, h)
      {
        CompareByte(b, x1, x2, i1, i2, h);
        var c1 := ByteAt(arr2, i1, n, b, q);
        var c2 := ByteAt(arr2, i2, n, b, q);
        if c1 != c2 { return c1 > c2, budget'; }
        CompareQuadrant(b, q, x1, x2, i1, i2, h);
        var s1 := QuadrantOf(arr2, i1, n, b, q);
        var s2 := QuadrantOf(arr2, i2, n, b, q);
        if s1 != s2 { return s1 > s2, budget'; }
        CompareNext(b, x1, x2, i1, i2, h);
        i1, i2, h := i1 + 1, i2 + 1, h + 1;
      }
      CompareFold(b, x1, x2, i1, i2, h);
      FoldIs(n, i1);
      FoldIs(n, i2);
      i1, i2 := Fold(n, i1), Fold(n, i2);
      k := k - 8;
      budget' := budget' - 1;
      if k < 0 { break; }
    }
    CompareEnds(b, x1, x2, i1, i2, h);
    greater := false;
  }
}
