/** 32-bit words that the compressor also addresses as bytes or as 16-bit halves (least significant first). */
module Words {
  import opened Arithmetic
  import opened MachineInts

  /** The weight of byte k within its word. */
  function ByteUnit(k: int): int {
    if k == 0 then 1 else if k == 1 then 0x100 else if k == 2 then 0x1_0000 else 0x100_0000
  }

  function ByteOf(w: UInt32, k: int): Byte {
    (w / ByteUnit(k)) % 256
  }

  function WithByte(w: UInt32, k: int, v: Byte): (r: UInt32)
    requires 0 <= k < 4
    ensures ByteOf(r, k) == v
    ensures forall j :: 0 <= j < 4 && j != k ==> ByteOf(r, j) == ByteOf(w, j)
  {
    WithByteInRange(w, k, v);
    w + (v - ByteOf(w, k)) * ByteUnit(k)
  }

  lemma WithByteInRange(w: UInt32, k: int, v: Byte)
    requires 0 <= k < 4
    ensures var r := w + (v - ByteOf(w, k)) * ByteUnit(k);
      && 0 <= r < 0x1_0000_0000 && ByteOf(r, k) == v
      && forall j :: 0 <= j < 4 && j != k ==> ByteOf(r, j) == ByteOf(w, j)
  {
    var unit := ByteUnit(k);
    assert unit == if k == 0 then 1 else if k == 1 then 0x100 else if k == 2 then 0x1_0000 else 0x100_0000;
    hide *;
    var b0, b1, b2, b3 := ByteOf(w, 0), ByteOf(w, 1), ByteOf(w, 2), ByteOf(w, 3);
    Digits(w);
    if k == 0 { Compose(v, b1, b2, b3); }
    else if k == 1 { Compose(b0, v, b2, b3); }
    else if k == 2 { Compose(b0, b1, v, b3); }
    else { Compose(b0, b1, b2, v); }
  }

  lemma Digits(w: UInt32)
    ensures w == ByteOf(w, 0) + 0x100 * ByteOf(w, 1) + 0x1_0000 * ByteOf(w, 2) + 0x100_0000 * ByteOf(w, 3)
  {
    var x, b0 := w / 0x100, w % 0x100;
    var y, b1 := x / 0x100, x % 0x100;
    var b3, b2 := y / 0x100, y % 0x100;
    assert b3 < 0x100;
    Compose(b0, b1, b2, b3);
  }

  lemma Compose(b0: Byte, b1: Byte, b2: Byte, b3: Byte)
    ensures var w := b0 + 0x100 * b1 + 0x1_0000 * b2 + 0x100_0000 * b3;
      && 0 <= w < 0x1_0000_0000 && ByteOf(w, 0) == b0 && ByteOf(w, 1) == b1 && ByteOf(w, 2) == b2 && ByteOf(w, 3) == b3
  {
    var y := b2 + 0x100 * b3;
    var x := b1 + 0x100 * y;
    var w := b0 + 0x100 * x;
    DivUnique(w, 0x100, x, b0);
    DivUnique(x, 0x100, y, b1);
    DivUnique(y, 0x100, b3, b2);
    DivUnique(w, 0x1_0000, y, b0 + 0x100 * b1);
    DivUnique(w, 0x100_0000, b3, b0 + 0x100 * b1 + 0x1_0000 * b2);
    DivUnique(b3, 0x100, 0, b3);
    ByteOfIs(w);
  }

  lemma ByteOfIs(w: UInt32)
    ensures ByteOf(w, 0) == w % 0x100 && ByteOf(w, 1) == (w / 0x100) % 0x100
    ensures ByteOf(w, 2) == (w / 0x1_0000) % 0x100 && ByteOf(w, 3) == (w / 0x100_0000) % 0x100
  {
  }

  /** The first n bytes stored in words. */
  ghost function ByteView(words: seq<UInt32>, n: nat): (r: seq<Byte>)
    requires n <= 4 * |words|
    ensures |r| == n
  {
    seq(n, i requires 0 <= i < n => ByteOf(words[i / 4], i % 4))
  }

  lemma ByteViewAt(words: seq<UInt32>, n: nat, i: nat)
    requires i < n <= 4 * |words|
    ensures ByteView(words, n)[i] == ByteOf(words[i / 4], i % 4)
  {
  }

  lemma ByteViewUpdate(words: seq<UInt32>, n: nat, i: nat, v: Byte)
    requires i < n <= 4 * |words|
    ensures ByteView(words[i / 4 := WithByte(words[i / 4], i % 4, v)], n) == ByteView(words, n)[i := v]
  {
    var words' := words[i / 4 := WithByte(words[i / 4], i % 4, v)];
    forall j | 0 <= j < n ensures ByteView(words', n)[j] == ByteView(words, n)[i := v][j] {
      if j / 4 == i / 4 && j % 4 == i % 4 { assert j == i; }
    }
  }

  method GetByte(a: array<UInt32>, i: nat, ghost n: nat) returns (v: Byte)
    requires i < n <= 4 * a.Length
    ensures v == ByteView(a[..], n)[i]
  {
    ByteViewAt(a[..], n, i);
    v := ByteOf(a[i / 4], i % 4);
  }

  method PutByte(a: array<UInt32>, i: nat, v: Byte, ghost n: nat)
    requires i < n <= 4 * a.Length
    modifies a
    ensures ByteView(a[..], n) == old(ByteView(a[..], n))[i := v]
  {
    hide *;
    ghost var words := a[..];
    ByteViewUpdate(words, n, i, v);
    a[i / 4] := WithByte(a[i / 4], i % 4, v);
    assert a[..] == words[i / 4 := WithByte(words[i / 4], i % 4, v)];
  }

  /** A longer view extends a shorter one. */
  lemma ByteViewPrefix(words: seq<UInt32>, n: nat, m: nat)
    requires n <= m <= 4 * |words|
    ensures ByteView(words, m)[..n] == ByteView(words, n)
  {
  }

  /** Appends a byte behind the first n. */
  method PushByte(a: array<UInt32>, n: nat, v: Byte)
    requires n < 4 * a.Length
    modifies a
    ensures ByteView(a[..], n + 1) == old(ByteView(a[..], n)) + [v]
  {
    hide *;
    ByteViewPrefix(a[..], n, n + 1);
    ViewSize(a[..], n + 1);
    PutByte(a, n, v, n + 1);
  }

  lemma ViewSize(words: seq<UInt32>, n: nat)
    requires n <= 4 * |words|
    ensures |ByteView(words, n)| == n
  {
  }

  /* ---- 16-bit halves ---- */

  function HalfOf(w: UInt32, k: int): UInt16 {
    if k == 0 then w % 0x1_0000 else w / 0x1_0000
  }

  function WithHalf(w: UInt32, k: int, v: UInt16): (r: UInt32)
    ensures HalfOf(r, k) == v
    ensures k == 0 ==> HalfOf(r, 1) == HalfOf(w, 1)
    ensures k != 0 ==> HalfOf(r, 0) == HalfOf(w, 0)
  {
    if k == 0 then w - w % 0x1_0000 + v else w % 0x1_0000 + 0x1_0000 * v
  }

  /** The first n halves stored in words. */
  ghost function HalfView(words: seq<UInt32>, n: nat): (r: seq<UInt16>)
    requires n <= 2 * |words|
    ensures |r| == n
  {
    seq(n, i requires 0 <= i < n => HalfOf(words[i / 2], i % 2))
  }

  /** Writing half i appends to the first i halves and touches no word beyond i / 2. */
  lemma HalfViewPush(words: seq<UInt32>, i: nat, v: UInt16)
    requires i / 2 < |words|
    ensures HalfView(words[i / 2 := WithHalf(words[i / 2], i % 2, v)], i + 1) == HalfView(words, i) + [v]
  {
    var words' := words[i / 2 := WithHalf(words[i / 2], i % 2, v)];
    var a, b := HalfView(words', i + 1), HalfView(words, i) + [v];
    forall j | 0 <= j < i + 1 ensures a[j] == b[j] {
      if j < i && j / 2 == i / 2 { assert j % 2 == 0 && i % 2 == 1; }
    }
  }

  method PutHalf(a: array<UInt32>, i: nat, v: UInt16)
    requires i / 2 < a.Length
    modifies a
    ensures HalfView(a[..], i + 1) == old(HalfView(a[..], i)) + [v]
    ensures forall k :: 0 <= k < a.Length && k != i / 2 ==> a[k] == old(a[k])
  {
    hide *;
    ghost var words := a[..];
    HalfViewPush(words, i, v);
    a[i / 2] := WithHalf(a[i / 2], i % 2, v);
    assert a[..] == words[i / 2 := WithHalf(words[i / 2], i % 2, v)];
  }

  method GetHalf(a: array<UInt32>, i: nat, ghost n: nat) returns (v: UInt16)
    requires i < n <= 2 * a.Length
    ensures v == HalfView(a[..], n)[i]
  {
    v := HalfOf(a[i / 2], i % 2);
  }
}
