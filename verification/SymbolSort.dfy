/** Checking a set of code lengths, and sorting its symbols by length with a table of offsets. */
module SymbolSort {
  import opened Counting
  import opened DeflateCodes
  import opened NextCodes

  /* ---- counting ---- */

  ghost predicate CountedTo(lens: seq<nat>, i: nat, count: seq<int>) {
    |count| == 16 && i <= |lens| && forall l: nat :: l < 16 ==> count[l] == Count(lens[..i], l)
  }

  lemma CountedNone(lens: seq<nat>, count: seq<int>)
    requires |count| == 16 && forall l: nat :: l < 16 ==> count[l] == 0
    ensures CountedTo(lens, 0, count)
  {
  }

  lemma CountedMore(lens: seq<nat>, i: nat, count: seq<int>)
    requires CountedTo(lens, i, count) && i < |lens| && lens[i] <= 15
    ensures |count| == 16 && CountedTo(lens, i + 1, count[lens[i] := count[lens[i]] + 1])
  {
    var c := count[lens[i] := count[lens[i]] + 1];
    forall l: nat | l < 16
      ensures c[l] == Count(lens[..i + 1], l)
    {
      CountTake(lens, i, l);
    }
  }

  lemma CountedEnd(lens: seq<nat>, count: seq<int>, l: nat)
    requires CountedTo(lens, |lens|, count) && l < 16
    ensures |count| == 16 && count[l] == Count(lens, l)
  {
    assert lens[..|lens|] == lens;
  }

  lemma LengthAtMost(lens: seq<nat>, i: nat)
    requires LengthsOk(lens) && i < |lens|
    ensures lens[i] <= 15
  {
  }

  /** Counts the codes of each length. */
  method CountLengths(lens: array<nat>, start: nat, codes: nat) returns (count: array<nat>)
    requires start + codes <= lens.Length && LengthsOk(lens[start..start + codes])
    ensures fresh(count) && count.Length == 16
    ensures forall l: nat :: l < 16 ==> count[l] == Count(lens[start..start + codes], l)
  {
    hide *;
    ghost var ln: seq<nat> := lens[start..start + codes];
    count := new nat[16](_ => 0);
    ghost var c := count[..];
    CountedNone(ln, c);
    for sym := 0 to codes
      invariant c == count[..] && CountedTo(ln, sym, c)
      invariant ln == lens[start..start + codes]
    {
      LengthAtMost(ln, sym);
      CountedMore(ln, sym, c);
      assert lens[start + sym] == ln[sym];
      count[lens[start + sym]] := count[lens[start + sym]] + 1;
      c := c[ln[sym] := c[ln[sym]] + 1];
    }
    forall l: nat | l < 16
      ensures count[l] == Count(ln, l)
    {
      CountedEnd(ln, c, l);
    }
  }

  /* ---- the longest and the shortest code ---- */

  ghost predicate CountsFrom(lens: seq<nat>, count: seq<int>) {
    |count| == 16 && forall l: nat :: l < 16 ==> count[l] == Count(lens, l)
  }

  lemma CountsAt(lens: seq<nat>, count: seq<int>, l: nat)
    requires CountsFrom(lens, count) && l < 16
    ensures |count| == 16 && count[l] == Count(lens, l)
  {
  }

  /** The greatest length in use, or 0. */
  method FindMax(count: array<nat>, ghost lens: seq<nat>) returns (max: nat)
    requires CountsFrom(lens, count[..])
    ensures max == 0 <==> Offset(lens, 16) == 0
    ensures max > 0 ==> Longest(lens, max)
  {
    max := 15;
    while max >= 1
      invariant 0 <= max <= 15 && Offset(lens, max + 1) == Offset(lens, 16)
    {
      CountsAt(lens, count[..], max);
      OffsetStep(lens, max);
      if count[max] != 0 {
        return;
      }
      max := max - 1;
    }
    OffsetStep(lens, 0);
  }

  /** No code is shorter than min. */
  ghost predicate Shortest(lens: seq<nat>, min: nat) {
    1 <= min <= 15 && Offset(lens, min) == 0 < Offset(lens, min + 1)
  }

  /** The least length in use. */
  method FindMin(count: array<nat>, max: nat, ghost lens: seq<nat>) returns (min: nat)
    requires CountsFrom(lens, count[..]) && Longest(lens, max)
    ensures min <= max && Shortest(lens, min)
  {
    min := 1;
    OffsetStep(lens, 0);
    while min < max
      invariant 1 <= min <= max && Offset(lens, min) == 0
    {
      CountsAt(lens, count[..], min);
      OffsetStep(lens, min);
      if count[min] != 0 {
        return;
      }
      min := min + 1;
    }
  }

  /* ---- over-subscribed and incomplete sets ---- */

  lemma LeftStep(lens: seq<nat>, len: nat, left: int)
    requires 1 <= len <= 15 && left * Unit(len - 1) == 0x8000 - KraftTo(lens, len - 1)
    ensures (2 * left - Count(lens, len)) * Unit(len) == 0x8000 - KraftTo(lens, len)
  {
    hide *;
    UnitStep(len);
    KraftStep(lens, len);
    Twice(left, Unit(len));
    Minus(2 * left, Count(lens, len), Unit(len));
  }

  /** The code space left over; negative when the codes do not fit. */
  method CheckLengths(count: array<nat>, ghost lens: seq<nat>) returns (left: int)
    requires LengthsOk(lens) && CountsFrom(lens, count[..])
    ensures left < 0 <==> Kraft(lens) > 0x8000
    ensures left >= 0 ==> left == 0x8000 - Kraft(lens)
  {
    hide *;
    KraftIs(lens);
    KraftStep(lens, 0);
    UnitStep(1);
    UnitStep(15);
    left := 1;
    for len := 1 to 16
      invariant left >= 0 && left * Unit(len - 1) == 0x8000 - KraftTo(lens, len - 1)
    {
      CountsAt(lens, count[..], len);
      LeftStep(lens, len, left);
      left := 2 * left;
      left := left - count[len];
      if left < 0 {
        UnitPositive2(left, Unit(len), len);
        KraftGrows(lens, len, 15);
        return;
      }
    }
  }

  lemma UnitPositive2(left: int, u: nat, len: nat)
    requires left < 0 && u == Unit(len)
    ensures left * u < 0
  {
    Negative(left, u);
  }

  lemma Negative(a: int, u: nat)
    requires a < 0 && u > 0
    ensures a * u < 0
  {
  }

  /* ---- sorting ---- */

  ghost predicate OffsetsAre(lens: seq<nat>, offs: seq<int>, i: nat) {
    && |offs| == 16 && i <= |lens|
    && forall l: nat :: 1 <= l <= 15 ==> offs[l] == Offset(lens, l) + Count(lens[..i], l)
  }

  ghost predicate SortedTo(lens: seq<nat>, ws: seq<nat>, i: nat) {
    i <= |lens| && forall s: nat :: s < i && lens[s] > 0 ==> FoundAt(lens, ws, s)
  }

  lemma {:induction false} CountGrows(lens: seq<nat>, i: nat, j: nat, l: int)
    requires i <= j <= |lens|
    ensures Count(lens[..i], l) <= Count(lens[..j], l)
    decreases j
  {
    if i < j {
      CountTake(lens, j - 1, l);
      CountGrows(lens, i, j - 1, l);
    }
  }

  lemma RankWithin(lens: seq<nat>, s: nat)
    requires LengthsOk(lens) && s < |lens| && lens[s] > 0
    ensures Offset(lens, lens[s]) <= Rank(lens, s) < Offset(lens, lens[s] + 1) <= Offset(lens, 16)
  {
    CountRoom(lens, s);
    OffsetStep(lens, lens[s]);
    OffsetGrows(lens, lens[s] + 1, 16);
  }

  lemma RankDistinct(lens: seq<nat>, s: nat, t: nat)
    requires LengthsOk(lens) && s < t < |lens| && lens[s] > 0 && lens[t] > 0
    ensures Rank(lens, s) != Rank(lens, t)
  {
    RankWithin(lens, s);
    RankWithin(lens, t);
    if lens[s] < lens[t] {
      OffsetGrows(lens, lens[s] + 1, lens[t]);
    } else if lens[t] < lens[s] {
      OffsetGrows(lens, lens[t] + 1, lens[s]);
    } else {
      CountTake(lens, s, lens[s]);
      CountGrows(lens, s + 1, t, lens[s]);
    }
  }

  lemma FoundIs(lens: seq<nat>, ws: seq<nat>, s: nat)
    ensures FoundAt(lens, ws, s) <==> s < |lens| && Rank(lens, s) < |ws| && ws[Rank(lens, s)] == s
  {
  }

  lemma SortedAt(lens: seq<nat>, ws: seq<nat>, i: nat, s: nat)
    requires SortedTo(lens, ws, i) && s < i && s < |lens| && lens[s] > 0
    ensures FoundAt(lens, ws, s)
  {
  }

  lemma FoundKept(lens: seq<nat>, ws: seq<nat>, i: nat, s: nat)
    requires LengthsOk(lens) && SortedTo(lens, ws, i) && i < |lens| && lens[i] > 0 && |ws| >= Offset(lens, 16)
    requires s <= i && lens[s] > 0
    ensures 0 <= Rank(lens, i) < |ws| && FoundAt(lens, ws[Rank(lens, i) := i], s)
  {
    hide *;
    RankWithin(lens, i);
    FoundIs(lens, ws[Rank(lens, i) := i], s);
    if s < i {
      SortedAt(lens, ws, i, s);
      FoundIs(lens, ws, s);
      RankDistinct(lens, s, i);
    }
  }

  lemma SortOne(lens: seq<nat>, ws: seq<nat>, offs: seq<int>, i: nat)
    requires LengthsOk(lens) && OffsetsAre(lens, offs, i) && SortedTo(lens, ws, i) && i < |lens| && lens[i] > 0
    requires |ws| >= Offset(lens, 16)
    ensures lens[i] <= 15 && |offs| == 16 && 0 <= offs[lens[i]] == Rank(lens, i) < |ws|
    ensures SortedTo(lens, ws[Rank(lens, i) := i], i + 1)
  {
    RankWithin(lens, i);
    forall s: nat | s < i + 1 && lens[s] > 0
      ensures FoundAt(lens, ws[Rank(lens, i) := i], s)
    {
      FoundKept(lens, ws, i, s);
    }
  }

  lemma OffsetsOne(lens: seq<nat>, offs: seq<int>, i: nat)
    requires OffsetsAre(lens, offs, i) && i < |lens| && 0 < lens[i] <= 15
    ensures |offs| == 16 && OffsetsAre(lens, offs[lens[i] := offs[lens[i]] + 1], i + 1)
  {
    var c := offs[lens[i] := offs[lens[i]] + 1];
    forall l: nat | 1 <= l <= 15
      ensures c[l] == Offset(lens, l) + Count(lens[..i + 1], l)
    {
      CountTake(lens, i, l);
    }
  }

  lemma SortSkip(lens: seq<nat>, ws: seq<nat>, offs: seq<int>, i: nat)
    requires OffsetsAre(lens, offs, i) && SortedTo(lens, ws, i) && i < |lens| && lens[i] == 0
    ensures OffsetsAre(lens, offs, i + 1) && SortedTo(lens, ws, i + 1)
  {
    forall l: nat | 1 <= l <= 15
      ensures offs[l] == Offset(lens, l) + Count(lens[..i + 1], l)
    {
      CountTake(lens, i, l);
    }
  }

  lemma SortNone(lens: seq<nat>, ws: seq<nat>, offs: seq<int>)
    requires |offs| == 16 && forall l: nat :: 1 <= l <= 15 ==> offs[l] == Offset(lens, l)
    ensures OffsetsAre(lens, offs, 0) && SortedTo(lens, ws, 0)
  {
    assert forall l: nat :: Count(lens[..0], l) == 0;
  }

  /** The c-th symbol of length l. */
  lemma {:induction false} Occurrence(lens: seq<nat>, l: nat, c: nat, n: nat) returns (s: nat)
    requires n <= |lens| && c < Count(lens[..n], l)
    ensures s < n && lens[s] == l && Count(lens[..s], l) == c
    decreases n
  {
    assert n > 0 by { assert lens[..0] == []; }
    CountTake(lens, n - 1, l);
    if c < Count(lens[..n - 1], l) {
      s := Occurrence(lens, l, c, n - 1);
    } else {
      s := n - 1;
    }
  }

  lemma {:induction false} LengthOf(lens: seq<nat>, k: nat, m: nat) returns (l: nat)
    requires k < Offset(lens, m)
    ensures 1 <= l < m && Offset(lens, l) <= k < Offset(lens, l + 1)
    decreases m
  {
    OffsetStep(lens, m - 1);
    if Offset(lens, m - 1) <= k {
      l := m - 1;
    } else {
      l := LengthOf(lens, k, m - 1);
    }
  }

  lemma ListedHere(lens: seq<nat>, ws: seq<nat>, k: nat)
    requires LengthsOk(lens) && SortedTo(lens, ws, |lens|) && k < Offset(lens, 16) <= |ws|
    ensures ListedAt(lens, ws[..Offset(lens, 16)], k)
  {
    var l := LengthOf(lens, k, 16);
    OffsetStep(lens, l);
    assert lens[..|lens|] == lens;
    var s := Occurrence(lens, l, k - Offset(lens, l), |lens|);
    FoundIs(lens, ws, s);
    assert Rank(lens, s) == k;
  }

  lemma SortEnd(lens: seq<nat>, ws: seq<nat>)
    requires LengthsOk(lens) && SortedTo(lens, ws, |lens|) && Offset(lens, 16) <= |ws|
    ensures Listing(lens, ws[..Offset(lens, 16)])
  {
    var w := ws[..Offset(lens, 16)];
    forall k: nat | k < |w|
      ensures ListedAt(lens, w, k)
    {
      ListedHere(lens, ws, k);
    }
    forall s: nat | s < |lens| && lens[s] > 0
      ensures FoundAt(lens, w, s)
    {
      FoundIs(lens, ws, s);
      RankWithin(lens, s);
    }
  }

  lemma {:induction false} OffsetPush(lens: seq<nat>, x: nat, l: nat)
    ensures Offset(lens + [x], l) == Offset(lens, l) + if 1 <= x < l then 1 else 0
    decreases l
  {
    hide *;
    OffsetStep(lens, 0);
    OffsetStep(lens + [x], 0);
    if l > 1 {
      OffsetPush(lens, x, l - 1);
      CountPush(lens, x, l - 1);
      OffsetStep(lens, l - 1);
      OffsetStep(lens + [x], l - 1);
    }
  }

  lemma {:induction false} OffsetOfNone(l: nat)
    ensures Offset([], l) == 0
  {
    if l > 1 { OffsetOfNone(l - 1); }
  }

  lemma {:induction false} OffsetBound(lens: seq<nat>, l: nat)
    ensures Offset(lens, l) <= |lens|
    decreases |lens|
  {
    OffsetOfNone(l);
    if lens != [] {
      var t, x := lens[..|lens| - 1], lens[|lens| - 1];
      assert lens == t + [x];
      OffsetBound(t, l);
      OffsetPush(t, x, l);
    }
  }

  ghost predicate OffsetsTo(lens: seq<nat>, offs: seq<int>, m: nat) {
    m <= |offs| == 16 && forall l: nat :: 1 <= l < m ==> offs[l] == Offset(lens, l)
  }

  lemma OffsetsMore(lens: seq<nat>, offs: seq<int>, m: nat, c: int)
    requires OffsetsTo(lens, offs, m) && 2 <= m < 16 && c == Count(lens, m - 1)
    ensures |offs| == 16 && OffsetsTo(lens, offs[m := offs[m - 1] + c], m + 1)
  {
    OffsetStep(lens, m - 1);
  }

  lemma OffsetsStart(lens: seq<nat>, offs: seq<int>)
    requires |offs| == 16 && offs[1] == 0
    ensures OffsetsTo(lens, offs, 2)
  {
    OffsetStep(lens, 1);
  }

  lemma OffsetsEnd(lens: seq<nat>, offs: seq<int>, ws: seq<nat>)
    requires OffsetsTo(lens, offs, 16)
    ensures OffsetsAre(lens, offs, 0) && SortedTo(lens, ws, 0)
  {
    SortNone(lens, ws, offs);
  }

  /** Lists the symbols in work by length, in symbol order within each length. */
  method SortSymbols(lens: array<nat>, start: nat, codes: nat, count: array<nat>, work: array<nat>)
    requires start + codes <= lens.Length && codes <= work.Length && work != lens
    requires LengthsOk(lens[start..start + codes]) && CountsFrom(lens[start..start + codes], count[..])
    modifies work
    ensures Offset(lens[start..start + codes], 16) <= codes
    ensures Listing(lens[start..start + codes], work[..Offset(lens[start..start + codes], 16)])
  {
    hide *;
    ghost var ln: seq<nat> := lens[start..start + codes];
    var offs := new int[16];
    ghost var w, o := work[..], offs[..];
    offs[1] := 0;
    o := offs[..];
    OffsetsStart(ln, o);
    for len := 1 to 15
      invariant o == offs[..] && OffsetsTo(ln, o, len + 1) && CountsFrom(ln, count[..]) && w == work[..]
    {
      CountsAt(ln, count[..], len);
      OffsetsMore(ln, o, len + 1, count[len]);
      offs[len + 1] := offs[len] + count[len];
      o := o[len + 1 := o[len] + count[len]];
    }
    OffsetsEnd(ln, o, w);
    OffsetBound(ln, 16);
    for sym := 0 to codes
      invariant o == offs[..] && w == work[..] && ln == lens[start..start + codes]
      invariant OffsetsAre(ln, o, sym) && SortedTo(ln, w, sym)
    {
      assert lens[start + sym] == ln[sym];
      if lens[start + sym] != 0 {
        SortOne(ln, w, o, sym);
        OffsetsOne(ln, o, sym);
        work[offs[lens[start + sym]]] := sym;
        w := w[Rank(ln, sym) := sym];
        offs[lens[start + sym]] := offs[lens[start + sym]] + 1;
        o := o[ln[sym] := o[ln[sym]] + 1];
      } else {
        SortSkip(ln, w, o, sym);
      }
    }
    SortEnd(ln, w);
  }
}
