/** The memory of the main block sort: the block and its overshoot in the bytes, the quadrants in the halves behind
    them. */
module SortArea {
  import opened Arithmetic
  import opened MachineInts
  import opened Words

  const BZ_N_OVERSHOOT := 34

  lemma Overshoot()
    ensures BZ_N_OVERSHOOT == 34
  {
  }

  /** The block followed by its own first bytes, so that short runs can be read without wrapping round. */
  ghost function Wrapped<T>(b: seq<T>): (r: seq<T>)
    requires |b| > 34
    ensures |r| == |b| + 34
  {
    b + b[..34]
  }

  /** Position i of the wrapped block, as a position of the block itself. */
  function Fold(n: nat, i: nat): (r: nat)
    requires i < 2 * n
    ensures r < n
  {
    if i >= n then i - n else i
  }

  lemma WrappedAt<T>(b: seq<T>, i: nat)
    requires |b| > 34 && i < |b| + 34
    ensures Wrapped(b)[i] == b[Fold(|b|, i)]
  {
  }

  /** The first half behind the n + 34 bytes of the wrapped block. */
  function QuadrantStart(n: nat): nat {
    (n + 35) / 2
  }

  ghost predicate AreaFits(words: seq<UInt32>, n: nat) {
    n + 34 <= 4 * |words| && QuadrantStart(n) + n + 34 <= 2 * |words|
  }

  ghost function BlockView(words: seq<UInt32>, n: nat): (r: seq<Byte>)
    requires AreaFits(words, n)
    ensures |r| == n + 34
  {
    ByteView(words, n + 34)
  }

  ghost function QuadrantView(words: seq<UInt32>, n: nat): (r: seq<UInt16>)
    requires AreaFits(words, n)
    ensures |r| == n + 34
  {
    HalfView(words, QuadrantStart(n) + n + 34)[QuadrantStart(n)..]
  }

  lemma AreaEnough(words: seq<UInt32>, n: nat)
    requires n + 34 <= |words|
    ensures AreaFits(words, n)
  {
  }

  lemma BlockPrefix(words: seq<UInt32>, n: nat)
    requires AreaFits(words, n)
    ensures BlockView(words, n)[..n] == ByteView(words, n)
  {
    ByteViewPrefix(words, n, n + 34);
  }

  method GetBlock(arr2: array<UInt32>, i: nat, n: nat) returns (v: Byte)
    requires AreaFits(arr2[..], n) && i < n + 34
    ensures v == BlockView(arr2[..], n)[i]
  {
    v := GetByte(arr2, i, n + 34);
  }

  lemma QuadrantAt(words: seq<UInt32>, n: nat, i: nat)
    requires AreaFits(words, n) && i < n + 34
    ensures (QuadrantStart(n) + i) / 2 < |words|
    ensures QuadrantView(words, n)[i] == HalfOf(words[(QuadrantStart(n) + i) / 2], (QuadrantStart(n) + i) % 2)
  {
  }

  method GetQuadrant(arr2: array<UInt32>, i: nat, n: nat) returns (v: UInt16)
    requires AreaFits(arr2[..], n) && i < n + 34
    ensures v == QuadrantView(arr2[..], n)[i]
  {
    hide *;
    QuadrantAt(arr2[..], n, i);
    var k := QuadrantStart(n) + i;
    v := HalfOf(arr2[k / 2], k % 2);
  }

  /* ---- writes on one side of the boundary leave the other side alone ---- */

  lemma HalfKeepsBytes(w: UInt32, v: UInt16)
    ensures ByteOf(WithHalf(w, 1, v), 0) == ByteOf(w, 0) && ByteOf(WithHalf(w, 1, v), 1) == ByteOf(w, 1)
  {
    var r := WithHalf(w, 1, v);
    hide *;
    HalfBytes(w);
    HalfBytes(r);
    PairUnique(ByteOf(r, 0), ByteOf(r, 1), ByteOf(w, 0), ByteOf(w, 1));
  }

  lemma HalfIs(w: UInt32)
    ensures HalfOf(w, 0) == w % 0x1_0000 && HalfOf(w, 1) == w / 0x1_0000
  {
  }

  lemma HalfBytes(w: UInt32)
    ensures HalfOf(w, 0) == ByteOf(w, 0) + 256 * (ByteOf(w, 1) as int)
    ensures HalfOf(w, 1) == ByteOf(w, 2) + 256 * (ByteOf(w, 3) as int)
  {
    hide *;
    Digits(w);
    HalfIs(w);
    DivUnique(w, 0x1_0000, ByteOf(w, 2) + 256 * (ByteOf(w, 3) as int), ByteOf(w, 0) + 256 * (ByteOf(w, 1) as int));
  }

  lemma PairUnique(a: Byte, c: Byte, a': Byte, c': Byte)
    requires a + 256 * (c as int) == a' + 256 * (c' as int)
    ensures a == a' && c == c'
  {
  }

  lemma ByteKeepsHalf(w: UInt32, k: nat, v: Byte)
    requires k < 2
    ensures HalfOf(WithByte(w, k, v), 1) == HalfOf(w, 1)
  {
    var r := WithByte(w, k, v);
    hide *;
    HalfBytes(w);
    HalfBytes(r);
  }

  lemma BlockWrite(words: seq<UInt32>, n: nat, i: nat, v: Byte)
    requires AreaFits(words, n) && i < n + 34
    ensures var words' := words[i / 4 := WithByte(words[i / 4], i % 4, v)];
      && AreaFits(words', n) && BlockView(words', n) == BlockView(words, n)[i := v]
      && QuadrantView(words', n) == QuadrantView(words, n)
  {
    var words' := words[i / 4 := WithByte(words[i / 4], i % 4, v)];
    ByteViewUpdate(words, n + 34, i, v);
    var q, q' := QuadrantView(words, n), QuadrantView(words', n);
    forall j | 0 <= j < n + 34 ensures q'[j] == q[j] {
      var k := QuadrantStart(n) + j;
      if k / 2 == i / 4 {
        assert k % 2 == 1 && i % 4 < 2;
        ByteKeepsHalf(words[i / 4], i % 4, v);
      }
    }
  }

  lemma QuadrantWrite(words: seq<UInt32>, n: nat, i: nat, v: UInt16)
    requires AreaFits(words, n) && i < n + 34
    ensures var k := QuadrantStart(n) + i; var words' := words[k / 2 := WithHalf(words[k / 2], k % 2, v)];
      && AreaFits(words', n) && BlockView(words', n) == BlockView(words, n)
      && QuadrantView(words', n) == QuadrantView(words, n)[i := v]
  {
    var k := QuadrantStart(n) + i;
    var words' := words[k / 2 := WithHalf(words[k / 2], k % 2, v)];
    var b, b' := BlockView(words, n), BlockView(words', n);
    forall j | 0 <= j < n + 34 ensures b'[j] == b[j] {
      if j / 4 == k / 2 {
        assert k % 2 == 1 && j % 4 < 2;
        HalfKeepsBytes(words[k / 2], v);
      }
    }
    var q, q' := QuadrantView(words, n), QuadrantView(words', n);
    forall j | 0 <= j < n + 34 ensures q'[j] == q[i := v][j] {
      var l := QuadrantStart(n) + j;
      if l / 2 == k / 2 && l != k { assert l % 2 != k % 2; }
    }
  }

  method PutBlock(arr2: array<UInt32>, i: nat, v: Byte, n: nat)
    requires AreaFits(arr2[..], n) && i < n + 34
    modifies arr2
    ensures AreaFits(arr2[..], n)
    ensures BlockView(arr2[..], n) == old(BlockView(arr2[..], n))[i := v]
    ensures QuadrantView(arr2[..], n) == old(QuadrantView(arr2[..], n))
  {
    hide *;
    ghost var words := arr2[..];
    FitsIs(words, n);
    BlockWrite(words, n, i, v);
    arr2[i / 4] := WithByte(arr2[i / 4], i % 4, v);
    assert arr2[..] == words[i / 4 := WithByte(words[i / 4], i % 4, v)];
  }

  lemma FitsIs(words: seq<UInt32>, n: nat)
    requires AreaFits(words, n)
    ensures n + 34 <= 4 * |words| && QuadrantStart(n) + n + 34 <= 2 * |words|
  {
  }

  method PutQuadrant(arr2: array<UInt32>, i: nat, v: UInt16, n: nat)
    requires AreaFits(arr2[..], n) && i < n + 34
    modifies arr2
    ensures AreaFits(arr2[..], n)
    ensures BlockView(arr2[..], n) == old(BlockView(arr2[..], n))
    ensures QuadrantView(arr2[..], n) == old(QuadrantView(arr2[..], n))[i := v]
  {
    hide *;
    ghost var words := arr2[..];
    QuadrantAt(words, n, i);
    QuadrantWrite(words, n, i, v);
    var k := QuadrantStart(n) + i;
    arr2[k / 2] := WithHalf(arr2[k / 2], k % 2, v);
    assert arr2[..] == words[k / 2 := WithHalf(words[k / 2], k % 2, v)];
  }
}
