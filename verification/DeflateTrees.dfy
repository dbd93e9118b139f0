/** The codes of deflate's trees, the tables that lead from a match to its codes, and sending a block with them. */
module DeflateTrees {
  import opened Arithmetic
  import opened MachineInts
  import opened SetSums
  import opened Counting
  import opened BitReverse
  import opened DeflateCodes
  import opened CodePlaces
  import opened TableLayout
  import opened DeflateTokens
  import opened DeflateBlocks
  import opened DeflateSender
  import opened DeflateChunks
  import InflateSource
  import opened NextCodes
  import opened InflateStream
  import opened Lz77

  /* ---- reversing the bits of a code ---- */

  /** One more bit, reversed, doubles what the others give. */
  lemma {:induction false} RevLast(x: nat, n: nat)
    ensures Pow2(n) > 0 && 0 <= x / Pow2(n) && Rev(x, n + 1) == 2 * Rev(x, n) + x / Pow2(n) % 2
    decreases n
  {
    hide *;
    RevStep(x, n + 1);
    RevStep(x, n);
    PowPositive(n);
    DivMod(x, Pow2(n));
    if n == 0 {
      RevStep(x / 2, 0);
      HalfBit(x);
    } else {
      RevLast(x / 2, n - 1);
      HalfTwice(x, Pow2(n - 1));
      DoubleIt(x % 2, Pow2(n - 1));
    }
  }

  lemma HalfBit(x: nat)
    ensures x % 2 * 1 == x % 2 && x / 1 == x
  {
  }

  lemma HalfTwice(x: nat, p: nat)
    requires p > 0
    ensures x / 2 / p == x / (2 * p)
  {
    DivTwice(x, 2, p);
  }

  lemma DivTwice(h: nat, p: nat, q: nat)
    requires p > 0 && q > 0 && p * q > 0
    ensures 0 <= h / p && h / p / q == h / (p * q)
  {
    InflateSource.DivTwice(h, p, q);
  }

  lemma DoubleIt(b: nat, p: nat)
    ensures b * (2 * p) == 2 * (b * p)
  {
  }

  /** The low len bits of value, in the opposite order. */
  method BiReverse(value: nat, len0: nat) returns (r: nat)
    requires len0 > 0
    ensures r == Rev(value, len0)
  {
    hide *;
    var code, len, res := value, len0, 0;
    ghost var n: nat := 0;
    RevStep(value, 0);
    HalfBit(value);
    while true
      invariant 0 < len && n + len == len0
      invariant Pow2(n) > 0 && code == value / Pow2(n) && res == 2 * Rev(value, n)
      decreases len
    {
      RevLast(value, n);
      NextHalf(value, n);
      res := res + code % 2;
      code := code / 2;
      res := 2 * res;
      len := len - 1;
      n := n + 1;
      if len == 0 { break; }
    }
    r := res / 2;
  }

  lemma NextHalf(x: nat, n: nat)
    ensures Pow2(n) > 0 && Pow2(n + 1) > 0 && x / Pow2(n) / 2 == x / Pow2(n + 1)
  {
    Pow2Add(n, 1);
    assert Pow2(1) == 2;
    var p := Pow2(n);
    hide *;
    DivTwice(x, p, 2);
  }

  /* ---- the codes of a tree ---- */

  /** Code and length of every symbol; a length of 0 marks a symbol without a code. */
  datatype Tree = Tree(code: array<UInt16>, len: array<UInt16>)

  /** The tree holds the lengths lens, and for each symbol the code that goes with them, its bits reversed. */
  ghost predicate TreeFor(t: Tree, lens: seq<nat>)
    reads t.code, t.len
  {
    && t.code.Length == t.len.Length
    && forall s :: 0 <= s < t.len.Length && s < |lens| ==>
         t.len[s] == lens[s] && (lens[s] > 0 ==> t.code[s] == Rev(CodeOf(lens, s), lens[s]))
  }

  lemma TreeAt(t: Tree, lens: seq<nat>, s: nat)
    requires TreeFor(t, lens) && s < t.len.Length && Coding(lens, s)
    ensures t.code.Length == t.len.Length && s < |lens|
    ensures t.len[s] == lens[s] > 0 && t.code[s] == Rev(CodeOf(lens, s), lens[s])
  {
  }

  /** The next code of each length, when the codes of the first n symbols have been given out. */
  ghost predicate NextAre(next: seq<nat>, lens: seq<nat>, n: nat, top: nat) {
    && |next| == 16 && n <= |lens|
    && forall l: nat :: 1 <= l < top ==> l < 16 && next[l] == FirstCode(lens, l) + Count(lens[..n], l)
  }

  lemma NextStart(next: seq<nat>, lens: seq<nat>, l: nat)
    requires NextAre(next, lens, 0, l) && 1 <= l <= 15
    ensures NextAre(next[l := FirstCode(lens, l)], lens, 0, l + 1)
  {
    assert lens[..0] == [];
  }

  lemma NextGiven(next: seq<nat>, lens: seq<nat>, n: nat)
    requires NextAre(next, lens, n, 16) && n < |lens| && lens[n] <= 15
    ensures lens[n] == 0 ==> NextAre(next, lens, n + 1, 16)
    ensures lens[n] > 0 ==> next[lens[n]] == CodeOf(lens, n)
    ensures lens[n] > 0 ==> NextAre(next[lens[n] := next[lens[n]] + 1], lens, n + 1, 16)
  {
    hide FirstCode, Count;
    forall l: nat | 1 <= l < 16
      ensures Count(lens[..n + 1], l) == Count(lens[..n], l) + if lens[n] == l then 1 else 0
    {
      CountTake(lens, n, l);
    }
  }

  /** No code outgrows its length, so that sixteen bits hold it. */
  lemma CodeFits(lens: seq<nat>, l: nat)
    requires LengthsOk(lens) && Kraft(lens) <= 0x8000 && 1 <= l <= 15
    ensures FirstCode(lens, l) + Count(lens, l) <= Pow2(l) <= 0x8000
  {
    hide *;
    KraftIs(lens);
    KraftToGrows(lens, l, 15);
    FirstCodeAt(lens, l);
    KraftStep(lens, l);
    Spread(FirstCode(lens, l), Count(lens, l), Unit(l));
    UnitIs(l);
    UnitPositive(l);
    Pow2Grows(l, 15);
    Cancel(FirstCode(lens, l) + Count(lens, l), Pow2(l), Unit(l));
  }

  lemma {:induction false} KraftToGrows(lens: seq<nat>, l: nat, m: nat)
    requires l <= m
    ensures KraftTo(lens, l) <= KraftTo(lens, m)
    decreases m
  {
    if l < m {
      KraftToGrows(lens, l, m - 1);
      Share(Count(lens, m), Unit(m));
    }
  }

  /** Gives every symbol up to maxCode its code. */
  method GenCodes(tree: Tree, maxCode: nat, count: array<UInt16>)
    requires maxCode < tree.len.Length == tree.code.Length && count.Length == 16
    requires tree.code != tree.len && tree.code != count
    requires var lens: seq<nat> := tree.len[..maxCode + 1];
             && LengthsOk(lens) && Kraft(lens) <= 0x8000 && count[0] == 0
             && forall l :: 1 <= l <= 15 ==> count[l] == Count(lens, l)
    modifies tree.code
    ensures TreeFor(tree, tree.len[..maxCode + 1])
  {
    hide *;
    ghost var lens: seq<nat> := tree.len[..maxCode + 1];
    var next := new UInt16[16];
    var code := 0;
    NextNone(next[..], lens);
    for bits := 1 to 16
      invariant NextAre(next[..], lens, 0, bits) && code == FirstCode(lens, bits - 1)
      invariant tree.len[..maxCode + 1] == lens && count[0] == 0
      invariant forall l :: 1 <= l <= 15 ==> count[l] == Count(lens, l)
    {
      FirstCodeStep(lens, bits);
      FirstCodeStep(lens, bits - 1);
      CodeFits(lens, bits);
      ghost var was: seq<nat> := next[..];
      NextStart(was, lens, bits);
      code := 2 * (code + count[bits - 1]);
      next[bits] := code;
      assert next[..] == was[bits := code];
    }
    for n := 0 to maxCode + 1
      invariant NextAre(next[..], lens, n, 16) && tree.len[..maxCode + 1] == lens
      invariant forall s :: 0 <= s < n && lens[s] > 0 ==> tree.code[s] == Rev(CodeOf(lens, s), lens[s])
    {
      var len := tree.len[n];
      ghost var was: seq<nat> := next[..];
      LengthOk(lens, n);
      assert len == lens[n];
      NextGiven(was, lens, n);
      if len != 0 {
        CodeFits(lens, len);
        CountPrefix(lens, n + 1, len);
        CountTake(lens, n, len);
        GivenIs(was, lens, n, len);
        RevBound(next[len], len);
        var r := BiReverse(next[len], len);
        tree.code[n] := r;
        next[len] := next[len] + 1;
        assert next[..] == was[len := was[len] + 1];
      } else {
        assert next[..] == was;
      }
    }
    TreeMade(tree, lens);
  }

  lemma NextNone(next: seq<nat>, lens: seq<nat>)
    requires |next| == 16
    ensures NextAre(next, lens, 0, 1) && FirstCode(lens, 0) == 0
  {
  }

  lemma GivenIs(next: seq<nat>, lens: seq<nat>, n: nat, l: nat)
    requires NextAre(next, lens, n, 16) && 1 <= l <= 15
    ensures |next| == 16 && n <= |lens| && next[l] == FirstCode(lens, l) + Count(lens[..n], l)
  {
  }

  lemma LengthOk(lens: seq<nat>, n: nat)
    requires LengthsOk(lens) && n < |lens|
    ensures lens[n] <= 15
  {
  }

  lemma TreeMade(t: Tree, lens: seq<nat>)
    requires t.code.Length == t.len.Length && |lens| <= t.len.Length && t.len[..|lens|] == lens
    requires forall s :: 0 <= s < |lens| && lens[s] > 0 ==> t.code[s] == Rev(CodeOf(lens, s), lens[s])
    ensures TreeFor(t, lens)
  {
    forall s | 0 <= s < |lens|
      ensures t.len[s] == lens[s]
    {
      assert t.len[..|lens|][s] == lens[s];
    }
  }

  /* ---- from a match to its codes ---- */

  /** The range that holds x, when it begins in time and no later one does. */
  lemma {:induction false} RangeIs(bases: seq<nat>, x: nat, k: nat, c: nat)
    requires c <= k < |bases| && (c == 0 || bases[c] <= x) && forall j :: c < j <= k ==> x < bases[j]
    ensures RangeOf(bases, x, k) == c
  {
    if c < k { RangeIs(bases, x, k - 1, c); }
  }

  lemma {:induction false} LengthsApart(i: nat, j: nat)
    requires i < j <= 27
    ensures |LBASE| == 31 && LBASE[i] < LBASE[j]
    decreases j
  {
    hide *;
    LengthRange(j - 1);
    if i < j - 1 { LengthsApart(i, j - 1); }
  }

  /** Where the lengths of a code begin, counted from the shortest match on. */
  ghost function LengthStart(code: nat): nat
    requires code <= 28
  {
    if code < 28 then Over(LBASE[code], 3) else 256
  }

  lemma LengthStarts(code: nat)
    requires code < 28
    ensures LengthStart(code + 1) == LengthStart(code) + Pow2(LengthExtra(code + 257)) <= 256
    ensures LBASE[code] == LengthStart(code) + 3 && LengthStart(0) == 0
  {
    hide *;
    LengthEnds();
    LengthStartIs(code);
    LengthStartIs(0);
    LengthStartEnd();
    if code < 27 {
      LengthRange(code);
      LengthStartIs(code + 1);
      LengthsGrowTo(code + 1);
    }
  }

  lemma LengthStartIs(code: nat)
    requires code < 28
    ensures |LBASE| == 31 && LBASE[code] >= 3 && LengthStart(code) == LBASE[code] - 3
  {
  }

  lemma LengthsGrowTo(code: nat)
    requires code < 28
    ensures |LBASE| == 31 && LBASE[code] <= 227
  {
  }

  /** Among the first 28 codes. */
  ghost function ShortCode(lc: nat): nat {
    RangeOf(LBASE[..29], lc + 3, 27)
  }

  /** The first 28 length codes: the last length belongs to the code after them. */
  lemma LengthCodeIs(code: nat, length: nat)
    requires code < 28 && LengthStart(code) <= length < LengthStart(code + 1)
    ensures length < 256 && ShortCode(length) == code
  {
    var bases: seq<nat> := LBASE[..29];
    LengthStarts(code);
    hide RangeOf, Pow2, LengthStart;
    if code < 27 { LengthStarts(code + 1); }
    forall j | code < j <= 27
      ensures length + 3 < bases[j]
    {
      if code + 1 < j { LengthsApart(code + 1, j); }
    }
    RangeIs(bases, length + 3, 27, code);
  }

  lemma LastLength(c: nat)
    requires c < 256
    ensures LengthCode(c) == if c == 255 then 28 else ShortCode(c)
  {
    assert LBASE[..29][28] == 258;
  }

  lemma DistCodeMeans(dist: nat)
    ensures |DBASE| == 32 && DistCode(dist) == RangeOf(DBASE[..30], dist + 1, 29)
  {
  }

  ghost function DistStart(code: nat): nat
    requires code <= 30
  {
    if code < 30 then Over(DBASE[code], 1) else 32768
  }

  lemma DistStarts(code: nat)
    requires code < 30
    ensures DistStart(code + 1) == DistStart(code) + Pow2(DistExtra(code)) <= 32768
    ensures DBASE[code] == DistStart(code) + 1 && DistStart(0) == 0 && DistStart(16) == 256
    ensures code >= 16 ==> DistExtra(code) >= 7
  {
    DistEnds();
    ExtraPowers();
    hide Pow2;
    if code < 29 { DistRange(code); }
  }

  /** The first distance of code j, and those after it. */
  lemma DistBehind(code: nat, dist: nat, j: nat)
    requires code < j < 30 && dist < DistStart(code + 1)
    ensures dist + 1 < DistStart(j) + 1 == DBASE[j]
  {
    hide *;
    DistStarts(j);
    DistStartsGrow(code + 1, j);
  }

  lemma DistCodeIs(code: nat, dist: nat)
    requires code < 30 && DistStart(code) <= dist < DistStart(code + 1)
    ensures DistCode(dist) == code
  {
    hide *;
    DistStarts(code);
    DistCodeMeans(dist);
    forall j: nat | code < j < 30
      ensures dist + 1 < DBASE[j]
    {
      DistBehind(code, dist, j);
    }
    InRange(DBASE, code, dist);
  }

  lemma InRange(bases: seq<nat>, code: nat, dist: nat)
    requires |bases| >= 30 && code < 30 && bases[code] <= dist + 1
    requires forall j: nat :: code < j < 30 ==> dist + 1 < bases[j]
    ensures RangeOf(bases[..30], dist + 1, 29) == code
  {
    RangeIs(bases[..30], dist + 1, 29, code);
  }

  /** The part of the distances that entry d of the upper half of the table stands for. */
  ghost predicate PartOf(d: nat, code: nat) {
    forall e :: 128 * d <= e < 128 * d + 128 ==> DistCode(e) == code
  }

  /** From code 16 on, the distances of a code are whole parts of 128. */
  lemma PartIs(code: nat, d: nat)
    requires 16 <= code < 30 && DistStart(code) <= 128 * d && 128 * d + 128 <= DistStart(code + 1)
    ensures PartOf(d, code)
  {
    forall e | 128 * d <= e < 128 * d + 128
      ensures DistCode(e) == code
    {
      DistCodeIs(code, e);
    }
  }

  lemma PartsOf(n: nat)
    requires n >= 7
    ensures Pow2(n) == 128 * Pow2(n - 7)
  {
    assert Pow2(7) == 128;
    Pow2Add(7, n - 7);
  }

  /** Finds the codes of matches, and holds the trees of the fixed codes. */
  class StaticTables {
    const length_code: array<Byte>
    const base_length: array<nat>
    const dist_code: array<Byte>
    const base_dist: array<nat>

    ghost predicate LengthsValid()
      reads length_code, base_length
    {
      && length_code.Length == 256 && base_length.Length == 29
      && (forall c: nat :: c < 256 ==> length_code[c] == LengthCode(c))
      && forall k: nat :: k < 28 ==> base_length[k] == LengthStart(k)
    }

    ghost predicate DistsValid()
      reads dist_code, base_dist
    {
      && dist_code.Length == 512 && base_dist.Length == 30
      && (forall d: nat :: d < 256 ==> dist_code[d] == DistCode(d))
      && (forall d: nat :: 258 <= d < 512 ==> PartOf(d - 256, dist_code[d]))
      && forall k: nat :: k < 30 ==> base_dist[k] == DistStart(k)
    }

    ghost predicate Valid()
      reads length_code, base_length, dist_code, base_dist
    {
      LengthsValid() && DistsValid()
    }

    /** The tables do not lie in the buffer that is written to. */
    ghost predicate AwayFrom(mem: array<Byte>) {
      length_code != mem && dist_code != mem
    }

    constructor ()
      ensures Valid() && fresh(length_code) && fresh(base_length) && fresh(dist_code) && fresh(base_dist)
    {
      hide *;
      length_code, base_length := new Byte[256](_ => 0), new nat[29](_ => 0);
      dist_code, base_dist := new Byte[512](_ => 0), new nat[30](_ => 0);
      new;
      InitLengths();
      InitDists();
      InitParts();
      TablesMade();
    }

    lemma TablesMade()
      requires LengthsValid() && DistsValid()
      ensures Valid()
    {
    }

    method InitLengths()
      requires length_code.Length == 256 && base_length.Length == 29
      modifies length_code, base_length
      ensures LengthsValid()
    {
      hide *;
      var length: nat := 0;
      LengthStarts(0);
      for code := 0 to 28
        invariant length == LengthStart(code)
        invariant forall c: nat :: c < length && c < 256 ==> length_code[c] == ShortCode(c)
        invariant forall k: nat :: k < code ==> base_length[k] == LengthStart(k)
      {
        LengthStarts(code);
        base_length[code] := length;
        for n := 0 to Pow2(LengthExtra(code + 257))
          invariant length == LengthStart(code) + n
          invariant forall c: nat :: c < length && c < 256 ==> length_code[c] == ShortCode(c)
          invariant forall k: nat :: k < code + 1 ==> base_length[k] == LengthStart(k)
        {
          LengthCodeIs(code, length);
          length_code[length] := code;
          length := length + 1;
        }
      }
      LengthStartEnd();
      length_code[length - 1] := 28;
      forall c: nat | c < 256
        ensures length_code[c] == LengthCode(c)
      {
        LastLength(c);
      }
      LengthsMade();
    }

    lemma LengthsMade()
      requires length_code.Length == 256 && base_length.Length == 29
      requires forall c: nat :: c < 256 ==> length_code[c] == LengthCode(c)
      requires forall k: nat :: k < 28 ==> base_length[k] == LengthStart(k)
      ensures LengthsValid()
    {
    }

    /** The distances up to 256, one by one. */
    method InitDists()
      requires dist_code.Length == 512 && base_dist.Length == 30
      modifies dist_code, base_dist
      ensures forall d: nat :: d < 256 ==> dist_code[d] == DistCode(d)
      ensures forall k: nat :: k < 16 ==> base_dist[k] == DistStart(k)
    {
      hide *;
      var dist: nat := 0;
      DistStarts(0);
      for code := 0 to 16
        invariant dist == DistStart(code)
        invariant forall d: nat :: d < dist && d < 256 ==> dist_code[d] == DistCode(d)
        invariant forall k: nat :: k < code ==> base_dist[k] == DistStart(k)
      {
        DistStarts(code);
        DistStartsGrow(code + 1, 16);
        base_dist[code] := dist;
        for n := 0 to Pow2(DistExtra(code))
          invariant dist == DistStart(code) + n
          invariant forall d: nat :: d < dist && d < 256 ==> dist_code[d] == DistCode(d)
          invariant forall k: nat :: k < code + 1 ==> base_dist[k] == DistStart(k)
        {
          DistCodeIs(code, dist);
          dist_code[dist] := code;
          dist := dist + 1;
        }
      }
    }

    /** All further distances, in parts of 128. */
    method InitParts()
      requires dist_code.Length == 512 && base_dist.Length == 30
      requires forall d: nat :: d < 256 ==> dist_code[d] == DistCode(d)
      requires forall k: nat :: k < 16 ==> base_dist[k] == DistStart(k)
      modifies dist_code, base_dist
      ensures DistsValid()
    {
      hide *;
      var dist: nat := 2;
      DistStarts(0);
      for code := 16 to 30
        invariant dist >= 2 && 128 * dist == DistStart(code)
        invariant forall d: nat :: d < 256 ==> dist_code[d] == DistCode(d)
        invariant forall d: nat :: 258 <= d < 256 + dist && d < 512 ==> PartOf(d - 256, dist_code[d])
        invariant forall k: nat :: k < code ==> base_dist[k] == DistStart(k)
      {
        DistStarts(code);
        PartsOf(DistExtra(code));
        base_dist[code] := dist * 128;
        ghost var first := dist;
        for n := 0 to Pow2(DistExtra(code) - 7)
          invariant dist == first + n
          invariant forall d: nat :: d < 256 ==> dist_code[d] == DistCode(d)
          invariant forall d: nat :: 258 <= d < 256 + dist && d < 512 ==> PartOf(d - 256, dist_code[d])
          invariant forall k: nat :: k < code + 1 ==> base_dist[k] == DistStart(k)
        {
          PartIs(code, dist);
          dist_code[256 + dist] := code;
          dist := dist + 1;
        }
      }
      LengthStartEnd();
      DistsMade();
    }

    lemma DistsMade()
      requires dist_code.Length == 512 && base_dist.Length == 30
      requires forall d: nat :: d < 256 ==> dist_code[d] == DistCode(d)
      requires forall d: nat :: 258 <= d < 512 ==> PartOf(d - 256, dist_code[d])
      requires forall k: nat :: k < 30 ==> base_dist[k] == DistStart(k)
      ensures DistsValid()
    {
    }

    /** The code of a distance less one. */
    method DCode(dist: nat) returns (code: nat)
      requires Valid() && dist < 32768
      ensures code == DistCode(dist)
    {
      if dist < 256 {
        code := dist_code[dist];
      } else {
        assert PartOf(dist / 128, dist_code[256 + dist / 128]);
        code := dist_code[256 + dist / 128];
      }
    }

    /** The code of a length less three. */
    method LCode(lc: Byte) returns (code: nat)
      requires Valid()
      ensures code == LengthCode(lc)
    {
      code := length_code[lc];
    }
  }

  lemma LengthStartEnd()
    ensures LengthStart(28) == 256 && DistStart(30) == 32768
  {
  }

  lemma {:induction false} DistStartsGrow(i: nat, j: nat)
    requires i <= j <= 30
    ensures DistStart(i) <= DistStart(j)
    decreases j
  {
    if i < j {
      DistStarts(j - 1);
      DistStartsGrow(i, j - 1);
    }
  }

  /* ---- the fixed trees ---- */

  /** Counts are those of the lengths. */
  ghost predicate Counted(count: seq<nat>, lens: seq<nat>) {
    |count| == 16 && forall l: nat :: l < 16 ==> count[l] == Count(lens, l)
  }

  lemma CountedMore(count: seq<nat>, lens: seq<nat>, n: nat)
    requires n < |lens| && Counted(count, lens[..n]) && lens[n] < 16
    ensures Counted(count[lens[n] := count[lens[n]] + 1], lens[..n + 1])
    ensures count[lens[n]] <= n
  {
    forall l: nat | l < 16
      ensures Count(lens[..n + 1], l) == Count(lens[..n], l) + if lens[n] == l then 1 else 0
    {
      CountTake(lens, n, l);
    }
  }

  /** Gives the symbols from lo up to hi the length l. */
  method FillLengths(len: array<UInt16>, count: array<UInt16>, lo: nat, hi: nat, l: nat, ghost lens: seq<nat>)
    requires lo <= hi <= len.Length <= 288 && hi <= |lens| && count.Length == 16 && len != count && l < 16
    requires (forall s :: lo <= s < hi ==> lens[s] == l) && len[..lo] == lens[..lo] && Counted(count[..], lens[..lo])
    modifies len, count
    ensures len[..hi] == lens[..hi] && Counted(count[..], lens[..hi])
  {
    hide *;
    var n := lo;
    while n < hi
      invariant lo <= n <= hi && len[..n] == lens[..n] && count.Length == 16 && Counted(count[..], lens[..n])
    {
      ghost var was: seq<nat> := count[..];
      CountedMore(was, lens, n);
      len[n] := l;
      count[l] := count[l] + 1;
      assert count[..] == was[l := was[l] + 1];
      n := n + 1;
      assert len[..n] == lens[..n];
    }
  }

  /** The fixed tree of literals and lengths. */
  method StaticLTree() returns (t: Tree)
    ensures t.len.Length == 288 && TreeFor(t, FixedLens()) && fresh(t.code) && fresh(t.len)
  {
    hide *;
    ghost var lens := FixedLens();
    var code, len := new UInt16[288](_ => 0), new UInt16[288](_ => 0);
    t := Tree(code, len);
    var count := new UInt16[16](_ => 0);
    NoneCounted(count[..]);
    assert lens[..0] == [] && t.len[..0] == [];
    forall s: nat | s < 288
      ensures lens[s] == if s < 144 then 8 else if s < 256 then 9 else if s < 280 then 7 else 8
    {
      FixedAt(s);
    }
    FillLengths(t.len, count, 0, 144, 8, lens);
    FillLengths(t.len, count, 144, 256, 9, lens);
    FillLengths(t.len, count, 256, 280, 7, lens);
    FillLengths(t.len, count, 280, 288, 8, lens);
    assert lens[..288] == lens;
    CountedParts(count[..], lens);
    FixedKraft();
    FixedWithin();
    GenCodes(t, 287, count);
  }

  lemma NoneCounted(count: seq<nat>)
    requires |count| == 16 && forall l :: 0 <= l < 16 ==> count[l] == 0
    ensures Counted(count, [])
  {
  }

  lemma CountedParts(count: seq<nat>, lens: seq<nat>)
    requires Counted(count, lens) && lens == FixedLens()
    ensures count[0] == 0 && forall l :: 1 <= l <= 15 ==> count[l] == Count(lens, l)
  {
    NoZeros(lens);
  }

  lemma {:induction false} NoZeros(lens: seq<nat>)
    requires forall s :: 0 <= s < |lens| ==> lens[s] != 0
    ensures Count(lens, 0) == 0
  {
    if lens != [] { NoZeros(lens[..|lens| - 1]); }
  }

  /** The fixed tree of distances: each code is the symbol itself. */
  method StaticDTree() returns (t: Tree)
    ensures t.len.Length == 30 && TreeFor(t, FixedDists()) && fresh(t.code) && fresh(t.len)
  {
    hide *;
    ghost var lens := FixedDists();
    var code, len := new UInt16[30](_ => 0), new UInt16[30](_ => 0);
    t := Tree(code, len);
    for n := 0 to 30
      invariant t.code.Length == t.len.Length == 30
      invariant forall s: nat :: s < n ==> t.len[s] == 5 && t.code[s] == Rev(CodeOf(lens, s), 5)
    {
      t.len[n] := 5;
      DistCodeOf(n);
      RevBound(n, 5);
      FivePower();
      var r := BiReverse(n, 5);
      t.code[n] := r;
    }
    forall s: nat | s < 30
      ensures lens[s] == 5
    {
      FixedAt(s);
    }
    DTreeMade(t, lens);
  }

  lemma FivePower()
    ensures Pow2(5) == 32
  {
  }

  lemma DTreeMade(t: Tree, lens: seq<nat>)
    requires t.code.Length == t.len.Length == 30 && |lens| == 32
    requires forall s: nat :: s < 30 ==> lens[s] == 5 && t.len[s] == 5 && t.code[s] == Rev(CodeOf(lens, s), 5)
    ensures TreeFor(t, lens)
  {
  }

  lemma {:induction false} CountRun(n: nat, l: nat, c: nat)
    ensures Count(seq(n, _ => l), c) == if l == c then n else 0
  {
    var s: seq<nat> := seq(n, _ => l);
    if n > 0 {
      assert s[..n - 1] == seq(n - 1, _ => l);
      CountRun(n - 1, l, c);
    }
  }

  /** With all lengths equal the codes count up from 0. */
  lemma DistCodeOf(n: nat)
    requires n < 32
    ensures CodeOf(FixedDists(), n) == n
  {
    var lens := FixedDists();
    assert lens[..n] == seq(n, _ => 5);
    CountRun(n, 5, 5);
    CountRun(32, 5, 1);
    CountRun(32, 5, 2);
    CountRun(32, 5, 3);
    CountRun(32, 5, 4);
    hide Count;
    assert FirstCode(lens, 1) == 0 && FirstCode(lens, 2) == 0 && FirstCode(lens, 3) == 0;
    assert FirstCode(lens, 4) == 0;
  }

  /* ---- sending a block ---- */

  /** Sends the code of a symbol. */
  method SendCode(s: Sender, c: nat, tree: Tree, ghost lens: seq<nat>)
    requires TreeFor(tree, lens) && c < tree.len.Length && Coding(lens, c) && LengthsOk(lens) && s.Room(lens[c])
    modifies s, s.pending_buf
    ensures s.Open() && BitsOn(old(s.Now()), s.Now(), [CodeChunk(lens, c)])
  {
    hide *;
    TreeAt(tree, lens, c);
    LengthOk(lens, c);
    RevBound(CodeOf(lens, c), lens[c]);
    CodeChunkIs(lens, c);
    s.SendBits(tree.code[c], tree.len[c]);
  }

  lemma CodeChunkIs(lens: seq<nat>, s: nat)
    requires s < |lens|
    ensures CodeChunk(lens, s) == Chunk(Rev(CodeOf(lens, s), lens[s]), lens[s])
  {
  }

  /** Sends extra bits, if there are any. */
  method SendExtra(s: Sender, v: nat, n: nat)
    requires s.Room(n) && v < Pow2(n) && n <= 16
    modifies s, s.pending_buf
    ensures s.Open() && BitsOn(old(s.Now()), s.Now(), ExtraChunks(v, n))
  {
    hide *;
    ExtraChunksAre(v, n);
    s.RoomIs(n);
    BitsNone(s.Now());
    if n != 0 { s.SendBits(v, n); }
  }

  lemma ExtraChunksAre(v: nat, n: nat)
    ensures ExtraChunks(v, n) == if n == 0 then [] else [Chunk(v, n)]
  {
  }

  /** The trees of a block, and what they are for. */
  ghost predicate TreesFor(ltree: Tree, dtree: Tree, z: Codes)
    reads ltree.code, ltree.len, dtree.code, dtree.len
  {
    && TreeFor(ltree, z.lens) && TreeFor(dtree, z.dists) && LengthsOk(z.lens) && LengthsOk(z.dists)
    && ltree.len.Length >= 286 && dtree.len.Length >= 30
  }

  lemma TreesParts(ltree: Tree, dtree: Tree, z: Codes)
    ensures TreesFor(ltree, dtree, z) <==>
              && TreeFor(ltree, z.lens) && TreeFor(dtree, z.dists) && LengthsOk(z.lens) && LengthsOk(z.dists)
              && ltree.len.Length >= 286 && dtree.len.Length >= 30
  {
  }

  /** What the form of a match is made of. */
  lemma MatchForm(distance: nat, lc: Byte, x: Coded)
    requires 1 <= distance <= 32768 && x == FormOf(Match(distance, lc + 3))
    ensures FormOk(x) && x.Pair? && PairOk(x)
    ensures x.lsym == LengthCode(lc) + 257 && x.dsym == DistCode(distance - 1)
    ensures LengthExtra(x.lsym) <= 5 && DistExtra(x.dsym) <= 13
    ensures x.lextra < Pow2(LengthExtra(x.lsym)) && x.dextra < Pow2(DistExtra(x.dsym))
    ensures LengthCode(lc) < 28 ==> 0 <= lc - LengthStart(LengthCode(lc)) == x.lextra
    ensures LengthCode(lc) == 28 ==> LengthExtra(x.lsym) == 0 && x.lextra == 0
    ensures 0 <= distance - 1 - DistStart(DistCode(distance - 1)) == x.dextra
  {
    hide *;
    var l, d := LengthCode(lc), DistCode(distance - 1);
    MatchFormIs(distance, lc);
    MatchSound(distance, lc);
    FormIs(Match(distance, lc + 3));
    FormPairs(x);
    LengthForm(lc + 3);
    DistForm(distance);
    OverIs(distance, DBASE[d]);
    DistStarts(d);
    FullMatch(x.lextra);
    if l < 28 {
      LengthStarts(l);
      OverIs(lc + 3, LBASE[l]);
    }
  }

  lemma MatchSound(distance: nat, lc: Byte)
    requires 1 <= distance <= 32768
    ensures Sound(Match(distance, lc + 3), 32768)
  {
  }

  lemma FullMatch(v: nat)
    ensures LengthExtra(285) == 0 && (v < Pow2(0) ==> v == 0)
  {
  }

  /** The bits of a match: symbol, extra bits, symbol, extra bits. */
  lemma MatchTotal(z: Codes, x: Coded)
    requires HasCode(z, x) && FormOk(x) && x.Pair?
    ensures PairOk(x) && 257 <= x.lsym <= 285 && x.dsym < 30 && Coding(z.lens, x.lsym) && Coding(z.dists, x.dsym)
    ensures Total(TokenChunks(z, x))
            == z.lens[x.lsym] + LengthExtra(x.lsym) + z.dists[x.dsym] + DistExtra(x.dsym)
  {
    hide *;
    TokenChunksAre(z, x);
    CodingIs(z.lens, x.lsym);
    CodingIs(z.dists, x.dsym);
    var a, b := [CodeChunk(z.lens, x.lsym)], ExtraChunks(x.lextra, LengthExtra(x.lsym));
    var c, d := [CodeChunk(z.dists, x.dsym)], ExtraChunks(x.dextra, DistExtra(x.dsym));
    TotalAdd(a, b);
    TotalAdd(a + b, c);
    TotalAdd(a + b + c, d);
    CodeTotal(z.lens, x.lsym);
    CodeTotal(z.dists, x.dsym);
    ExtraTotal(x.lextra, LengthExtra(x.lsym));
    ExtraTotal(x.dextra, DistExtra(x.dsym));
  }

  lemma CodeTotal(lens: seq<nat>, s: nat)
    requires s < |lens|
    ensures Total([CodeChunk(lens, s)]) == lens[s]
  {
    hide Total;
    OneChunk(CodeChunk(lens, s));
  }

  lemma ExtraTotal(v: nat, n: nat)
    ensures Total(ExtraChunks(v, n)) == n
  {
    hide Total;
    NoChunks();
    OneChunk(Chunk(v, n));
  }

  /** Sends a match. */
  method SendMatch(s: Sender, tables: StaticTables, distance: nat, lc0: Byte, ltree: Tree, dtree: Tree, ghost z: Codes)
    requires tables.Valid() && TreesFor(ltree, dtree, z) && 1 <= distance <= 32768
    requires HasCode(z, FormOf(Match(distance, lc0 + 3))) && FormOk(FormOf(Match(distance, lc0 + 3)))
    requires s.Room(Total(TokenChunks(z, FormOf(Match(distance, lc0 + 3))))) && tables.AwayFrom(s.pending_buf)
    modifies s, s.pending_buf
    ensures s.Open() && BitsOn(old(s.Now()), s.Now(), TokenChunks(z, FormOf(Match(distance, lc0 + 3))))
  {
    hide *;
    ghost var x := FormOf(Match(distance, lc0 + 3));
    MatchForm(distance, lc0, x);
    TreesParts(ltree, dtree, z);
    TokenChunksAre(z, x);
    TablesAre(tables);
    MatchTotal(z, x);
    CodingIs(z.lens, x.lsym);
    CodingIs(z.dists, x.dsym);
    AwayIs(tables, s.pending_buf);
    ghost var a, b := [CodeChunk(z.lens, x.lsym)], ExtraChunks(x.lextra, LengthExtra(x.lsym));
    ghost var c, d := [CodeChunk(z.dists, x.dsym)], ExtraChunks(x.dextra, DistExtra(x.dsym));
    CodeTotal(z.lens, x.lsym);
    CodeTotal(z.dists, x.dsym);
    ExtraTotal(x.lextra, LengthExtra(x.lsym));
    ghost var s0 := s.Now();
    s.RoomIs(Total(TokenChunks(z, x)));
    s.RoomIs(z.lens[x.lsym]);
    var code := tables.LCode(lc0);
    SendCode(s, code + 257, ltree, z.lens);
    ghost var s1 := s.Now();
    BitsOnIs(s0, s1, a);
    s.RoomIs(LengthExtra(x.lsym));
    var extra := LengthExtra(code + 257);
    if extra != 0 {
      var lc := lc0 - tables.base_length[code];
      SendExtra(s, lc, extra);
    } else {
      ExtraChunksAre(x.lextra, 0);
      BitsNone(s1);
    }
    ghost var s2 := s.Now();
    BitsOnIs(s1, s2, b);
    BitsThen(s0, s1, s2, a, b);
    s.RoomIs(z.dists[x.dsym]);
    var dist := distance - 1;
    code := tables.DCode(dist);
    SendCode(s, code, dtree, z.dists);
    ghost var s3 := s.Now();
    BitsOnIs(s2, s3, c);
    BitsThen(s0, s2, s3, a + b, c);
    s.RoomIs(DistExtra(x.dsym));
    extra := DistExtra(code);
    if extra != 0 {
      dist := dist - tables.base_dist[code];
      SendExtra(s, dist, extra);
    } else {
      ExtraChunksAre(x.dextra, 0);
      BitsNone(s3);
    }
    BitsThen(s0, s3, s.Now(), a + b + c, d);
  }

  lemma AwayIs(tables: StaticTables, mem: array<Byte>)
    ensures tables.AwayFrom(mem) <==> tables.length_code != mem && tables.dist_code != mem
  {
  }

  lemma TablesAre(tables: StaticTables)
    requires tables.Valid()
    ensures tables.base_length.Length == 29 && tables.base_dist.Length == 30
    ensures forall k: nat :: k < 28 ==> tables.base_length[k] == LengthStart(k)
    ensures forall k: nat :: k < 30 ==> tables.base_dist[k] == DistStart(k)
  {
  }
}
