/** The cyclic rotations of a block and their order. */
module Rotations {
  import opened Arithmetic
  import opened MachineInts
  import opened Permutations

  /** The position after i in a cyclic block of n bytes. */
  function Next(n: nat, i: nat): (r: nat)
    requires i < n
    ensures r < n
  {
    if i + 1 == n then 0 else i + 1
  }

  /** The position reached from i in k steps. */
  ghost function Advance(n: nat, i: nat, k: nat): (r: nat)
    requires i < n
    ensures r < n
    decreases k
  {
    if k == 0 then i else Advance(n, Next(n, i), k - 1)
  }

  /** The first h bytes read cyclically from i come before those read from j. */
  ghost predicate Precedes(b: seq<Byte>, i: nat, j: nat, h: nat)
    requires i < |b| && j < |b|
    decreases h
  {
    h > 0 && (b[i] < b[j] || (b[i] == b[j] && Precedes(b, Next(|b|, i), Next(|b|, j), h - 1)))
  }

  ghost function Pow256(h: nat): (r: nat)
    ensures r > 0
  {
    if h == 0 then 1 else 256 * Pow256(h - 1)
  }

  /** The first h bytes read cyclically from i, as a number with the first byte most significant. */
  ghost function Key(b: seq<Byte>, i: nat, h: nat): (r: nat)
    requires i < |b|
    decreases h
  {
    if h == 0 then 0 else b[i] * Pow256(h - 1) + Key(b, Next(|b|, i), h - 1)
  }

  /** ptr lists the rotations of b in lexicographic order; equal rotations may stand in any order. */
  ghost predicate SortedRotations(b: seq<Byte>, ptr: seq<nat>) {
    && IsPermutation(ptr, |b|)
    && forall p, q :: 0 <= p < q < |b| ==> !Precedes(b, ptr[q], ptr[p], |b|)
  }

  ghost predicate SortedKeys(b: seq<Byte>, ptr: seq<nat>, h: nat)
    requires Below(ptr, |b|)
  {
    forall p, q :: 0 <= p < q < |ptr| ==> Key(b, ptr[p], h) <= Key(b, ptr[q], h)
  }

  /** The key of every rotation of b. */
  ghost function Keys(b: seq<Byte>): (r: seq<nat>)
    ensures |r| == |b| && forall i :: 0 <= i < |b| ==> r[i] == Key(b, i, |b|)
  {
    seq(|b|, i requires 0 <= i < |b| => Key(b, i, |b|))
  }

  lemma {:induction false} KeyBound(b: seq<Byte>, i: nat, h: nat)
    requires i < |b|
    ensures Key(b, i, h) < Pow256(h)
    decreases h
  {
    if h > 0 {
      KeyBound(b, Next(|b|, i), h - 1);
      DigitBound(b[i], Key(b, Next(|b|, i), h - 1), Pow256(h - 1));
    }
  }

  lemma DigitBound(d: Byte, r: nat, p: nat)
    requires r < p
    ensures d * p + r < 256 * p
  {
    assert (255 - d) * p >= 0;
  }

  /** Numeric order of keys is lexicographic order of the bytes. */
  lemma {:induction false} KeyOrder(b: seq<Byte>, i: nat, j: nat, h: nat)
    requires i < |b| && j < |b|
    ensures Precedes(b, i, j, h) <==> Key(b, i, h) < Key(b, j, h)
    decreases h
  {
    if h > 0 {
      var i', j' := Next(|b|, i), Next(|b|, j);
      KeyBound(b, i', h - 1);
      KeyBound(b, j', h - 1);
      KeyOrder(b, i', j', h - 1);
      DigitOrder(b[j], Key(b, j', h - 1), b[i], Key(b, i', h - 1), Pow256(h - 1));
    }
  }

  lemma SortedKeysMeans(b: seq<Byte>, ptr: seq<nat>)
    requires IsPermutation(ptr, |b|)
    ensures SortedRotations(b, ptr) <==> SortedKeys(b, ptr, |b|)
  {
    forall p, q | 0 <= p < q < |b|
      ensures Precedes(b, ptr[q], ptr[p], |b|) <==> Key(b, ptr[q], |b|) < Key(b, ptr[p], |b|)
    {
      KeyOrder(b, ptr[q], ptr[p], |b|);
    }
  }

  lemma {:induction false} AdvanceIs(n: nat, i: nat, k: nat)
    requires i < n && k <= n
    ensures Advance(n, i, k) == if i + k < n then i + k else i + k - n
    decreases k
  {
    if k > 0 {
      AdvanceIs(n, Next(n, i), k - 1);
    }
  }

  lemma {:induction false} PowSplit(h: nat, g: nat)
    ensures Pow256(h + g) == Pow256(h) * Pow256(g)
  {
    if h > 0 {
      PowSplit(h - 1, g);
      assert Pow256(h + g) == 256 * (Pow256(h - 1) * Pow256(g));
    }
  }

  /** The first h + g bytes are the first h, then the g found h further on. */
  lemma {:induction false} KeySplit(b: seq<Byte>, i: nat, h: nat, g: nat)
    requires i < |b|
    ensures Key(b, i, h + g) == Key(b, i, h) * Pow256(g) + Key(b, Advance(|b|, i, h), g)
    decreases h
  {
    if h > 0 {
      var i' := Next(|b|, i);
      KeySplit(b, i', h - 1, g);
      PowSplit(h - 1, g);
      ShiftDigit(b[i], Pow256(h - 1), Key(b, i', h - 1), Pow256(g));
    }
  }

  lemma ShiftDigit(d: int, p: int, k: int, q: int)
    ensures (d * p + k) * q == d * (p * q) + k * q
  {
  }

  lemma {:induction false} KeySplitOrder(b: seq<Byte>, i: nat, j: nat, h: nat, g: nat)
    requires i < |b| && j < |b|
    ensures var i', j' := Advance(|b|, i, h), Advance(|b|, j, h);
      && (Key(b, i, h + g) <= Key(b, j, h + g) <==>
          Key(b, i, h) < Key(b, j, h) || (Key(b, i, h) == Key(b, j, h) && Key(b, i', g) <= Key(b, j', g)))
      && (Key(b, i, h + g) == Key(b, j, h + g) <==>
          Key(b, i, h) == Key(b, j, h) && Key(b, i', g) == Key(b, j', g))
  {
    var i', j' := Advance(|b|, i, h), Advance(|b|, j, h);
    KeySplit(b, i, h, g);
    KeySplit(b, j, h, g);
    KeyBound(b, i', g);
    KeyBound(b, j', g);
    DigitOrder(Key(b, i, h), Key(b, i', g), Key(b, j, h), Key(b, j', g), Pow256(g));
  }

  /** Rotations that agree all the way round agree from the next position on too. */
  lemma {:induction false} EqualNext(b: seq<Byte>, i: nat, j: nat)
    requires i < |b| && j < |b| && Key(b, i, |b|) == Key(b, j, |b|)
    ensures b[i] == b[j]
    ensures Key(b, Next(|b|, i), |b|) == Key(b, Next(|b|, j), |b|)
  {
    var n, i', j' := |b|, Next(|b|, i), Next(|b|, j);
    KeyBound(b, i', n - 1);
    KeyBound(b, j', n - 1);
    DigitOrder(b[i], Key(b, i', n - 1), b[j], Key(b, j', n - 1), Pow256(n - 1));
    KeySplitOrder(b, i', j', n - 1, 1);
    AdvanceIs(n, i', n - 1);
    AdvanceIs(n, j', n - 1);
    OneKey(b, i);
    OneKey(b, j);
  }

  lemma OneKey(b: seq<Byte>, i: nat)
    requires i < |b|
    ensures Key(b, i, 1) == b[i]
  {
    assert Key(b, Next(|b|, i), 0) == 0 && Pow256(0) == 1;
  }

  /** Once rotations agree all the way round, they agree to any depth. */
  lemma {:induction false} EqualForever(b: seq<Byte>, i: nat, j: nat, h: nat)
    requires i < |b| && j < |b| && Key(b, i, |b|) == Key(b, j, |b|)
    ensures Key(b, i, h) == Key(b, j, h)
    decreases h
  {
    if h > 0 {
      EqualNext(b, i, j);
      EqualForever(b, Next(|b|, i), Next(|b|, j), h - 1);
    }
  }
}
