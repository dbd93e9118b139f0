/** Canonical prefix codes: their assignment from lengths, and decoding by limit, base and perm. */
module CanonicalCode {
  import opened Arithmetic
  import opened MachineInts
  import opened BzConstants
  import opened SetSums
  import opened Counting
  import opened Bwt
  import opened BitStream

  /* ---- the code that lengths define ---- */

  /** The first code of length n. */
  ghost function First(len: seq<Byte>, n: int): (r: nat) {
    if n <= 0 then 0 else 2 * (First(len, n - 1) + Count(len, n - 1))
  }

  /** The code of symbol i: codes of one length count up in symbol order. */
  ghost function CodeOf(len: seq<Byte>, i: nat): (r: nat)
    requires i < |len|
  {
    First(len, len[i]) + Count(len[..i], len[i])
  }

  ghost function CodeBits(len: seq<Byte>, i: nat): (r: seq<bool>)
    requires i < |len|
    ensures |r| == len[i]
  {
    ToBits(CodeOf(len, i), len[i])
  }

  ghost predicate LengthsIn(len: seq<Byte>, lo: int, hi: int) {
    forall i :: 0 <= i < |len| ==> lo <= len[i] <= hi
  }

  /** Code space taken by symbols of length at most n, in units of 2^-n. */
  ghost function Used(len: seq<Byte>, n: int): (r: nat) {
    First(len, n) + Count(len, n)
  }

  lemma {:induction false} NoneBelow(len: seq<Byte>, lo: int, hi: int, n: int)
    requires LengthsIn(len, lo, hi) && (n < lo || n > hi)
    ensures Count(len, n) == 0
  {
    if len != [] { NoneBelow(len[..|len| - 1], lo, hi, n); }
  }

  lemma {:induction false} FirstBelow(len: seq<Byte>, lo: int, hi: int, n: int)
    requires LengthsIn(len, lo, hi) && n <= lo
    ensures First(len, n) == 0
  {
    if n > 0 {
      FirstBelow(len, lo, hi, n - 1);
      NoneBelow(len, lo, hi, n - 1);
    }
  }

  /** Longer codes start above everything shorter, extended with zeros. */
  lemma {:induction false} FirstAbove(len: seq<Byte>, m: nat, n: nat)
    requires m < n
    ensures First(len, n) >= Used(len, m) * Pow2(n - m)
    decreases n
  {
    if n == m + 1 {
      assert Pow2(1) == 2;
    } else {
      FirstAbove(len, m, n - 1);
      assert Pow2(n - m) == 2 * Pow2(n - 1 - m);
      DoubleProduct(Used(len, m), Pow2(n - 1 - m));
    }
  }

  lemma DoubleProduct(a: int, p: int)
    ensures a * (2 * p) == 2 * (a * p)
  {
  }

  /** Below its own length a code lies above every shorter code. */
  lemma CodePrefixAbove(len: seq<Byte>, i: nat, m: nat)
    requires i < |len| && m < len[i]
    ensures CodeOf(len, i) / Pow2(len[i] - m) >= Used(len, m)
  {
    hide *;
    FirstAbove(len, m, len[i]);
    CodeWithin(len, i);
    QuotientAtLeast(CodeOf(len, i), Pow2(len[i] - m), Used(len, m));
  }

  lemma CodeWithin(len: seq<Byte>, i: nat)
    requires i < |len|
    ensures First(len, len[i]) <= CodeOf(len, i) < Used(len, len[i])
  {
    CountRoom(len, i);
  }

  /** No code is a prefix of another. */
  lemma PrefixFree(len: seq<Byte>, i: nat, j: nat)
    requires i < |len| && j < |len| && i != j && len[j] <= len[i]
    ensures CodeOf(len, i) / Pow2(len[i] - len[j]) != CodeOf(len, j)
  {
    hide *;
    if len[j] < len[i] {
      CodePrefixAbove(len, i, len[j]);
      CodeWithin(len, j);
    } else {
      SameLength(len, i, j);
    }
  }

  lemma SameLength(len: seq<Byte>, i: nat, j: nat)
    requires i < |len| && j < |len| && i != j && len[j] == len[i]
    ensures CodeOf(len, i) / Pow2(0) != CodeOf(len, j)
  {
    if i < j { SlotOrder(len, i, j); } else { SlotOrder(len, j, i); }
  }

  /* ---- Kraft's inequality keeps codes within their length ---- */

  lemma {:induction false} UsedGrows(len: seq<Byte>, m: nat, n: nat)
    requires m <= n
    ensures Used(len, m) * Pow2(n - m) <= Used(len, n)
  {
    if m < n { FirstAbove(len, m, n); }
  }

  /** The lengths fit the code space: the sum of 2^-len is at most one. */
  ghost predicate Fits(len: seq<Byte>, maxLen: nat) {
    Used(len, maxLen) <= Pow2(maxLen)
  }

  lemma CodeFits(len: seq<Byte>, i: nat, maxLen: nat)
    requires Fits(len, maxLen) && i < |len| && len[i] <= maxLen
    ensures CodeOf(len, i) < Pow2(len[i])
  {
    var n := len[i];
    UsedGrows(len, n, maxLen);
    Pow2Add(n, maxLen - n);
    Cancel(Used(len, n), Pow2(n), Pow2(maxLen - n));
    CodeWithin(len, i);
  }

  /* ---- assigning codes ---- */

  ghost predicate Assigned(len: seq<Byte>, code: seq<int>, n: int, i: int) {
    && |len| <= |code|
    && forall s :: 0 <= s < |len| && (len[s] < n || (len[s] == n && s < i)) ==> code[s] == CodeOf(len, s)
  }

  lemma AssignOne(len: seq<Byte>, code: seq<int>, n: int, i: nat, vec: nat)
    requires Assigned(len, code, n, i) && i < |len| && vec == First(len, n) + Count(len[..i], n)
    ensures len[i] == n ==> Assigned(len, code[i := vec], n, i + 1)
    ensures len[i] != n ==> Assigned(len, code, n, i + 1)
    ensures First(len, n) + Count(len[..i + 1], n) == vec + if len[i] == n then 1 else 0
  {
    CountTake(len, i, n);
  }

  lemma AssignRound(len: seq<Byte>, code: seq<int>, n: int, vec: nat)
    requires Assigned(len, code, n, |len|) && vec == First(len, n) + Count(len[..|len|], n) && n >= 0
    ensures Assigned(len, code, n + 1, 0) && 2 * vec == First(len, n + 1)
  {
    assert len[..|len|] == len;
  }

  lemma AssignStart(len: seq<Byte>, code: seq<int>, lo: nat, hi: nat)
    requires LengthsIn(len, lo, hi) && |len| <= |code|
    ensures Assigned(len, code, lo, 0) && First(len, lo) == 0
  {
    FirstBelow(len, lo, hi, lo);
  }

  lemma AssignRoundStart(len: seq<Byte>, n: int)
    ensures First(len, n) == First(len, n) + Count(len[..0], n)
  {
    assert len[..0] == [];
  }

  lemma AssignEnd(len: seq<Byte>, code: seq<int>, lo: nat, hi: nat)
    requires LengthsIn(len, lo, hi) && Assigned(len, code, hi + 1, 0)
    ensures forall s :: 0 <= s < |len| ==> code[s] == CodeOf(len, s)
  {
  }

  /** Hands out codes in order of length, then of symbol. */
  method AssignCodes(code: array<int>, length: array<Byte>, minLen: nat, maxLen: nat, alphaSize: nat)
    requires alphaSize <= code.Length && alphaSize <= length.Length && minLen <= maxLen
    requires LengthsIn(length[..alphaSize], minLen, maxLen)
    modifies code
    ensures forall s :: 0 <= s < alphaSize ==> code[s] == CodeOf(length[..alphaSize], s)
  {
    hide *;
    ghost var len := length[..alphaSize];
    AssignStart(len, code[..], minLen, maxLen);
    var vec := 0;
    for n := minLen to maxLen + 1
      invariant length[..alphaSize] == len && Assigned(len, code[..], n, 0) && vec == First(len, n)
    {
      AssignRoundStart(len, n);
      for i := 0 to alphaSize
        invariant length[..alphaSize] == len && Assigned(len, code[..], n, i) && vec >= 0
        invariant vec == First(len, n) + Count(len[..i], n)
      {
        ghost var c := code[..];
        AssignOne(len, c, n, i, vec);
        assert length[i] == len[i];
        if length[i] == n {
          code[i] := vec;
          assert code[..] == c[i := vec];
          vec := vec + 1;
        }
      }
      AssignRound(len, code[..], n, vec);
      vec := 2 * vec;
    }
    AssignEnd(len, code[..], minLen, maxLen);
  }

  /* ---- decoding tables ---- */

  /** What the decoder relies on: per length the last code and the offset into the sorted symbols. */
  ghost predicate Tables(len: seq<Byte>, limit: seq<int>, base: seq<int>, perm: seq<int>, lo: nat, hi: nat) {
    && |len| <= |perm| && hi < |limit| && hi < |base|
    && (forall n :: lo <= n <= hi ==> limit[n] == Used(len, n) - 1 && base[n] == First(len, n) - Less(len, n))
    && (forall s :: 0 <= s < |len| ==> perm[Slot(len, s)] == s)
  }

  ghost predicate Sorted(len: seq<Byte>, perm: seq<int>, n: int, j: int) {
    && |len| <= |perm|
    && forall s :: 0 <= s < |len| && (len[s] < n || (len[s] == n && s < j)) ==> perm[Slot(len, s)] == s
  }

  lemma SortOne(len: seq<Byte>, perm: seq<int>, n: int, j: nat, pp: nat)
    requires Sorted(len, perm, n, j) && j < |len| && pp == Less(len, n) + Count(len[..j], n)
    ensures len[j] == n ==> pp < |len| && Sorted(len, perm[pp := j], n, j + 1)
    ensures len[j] != n ==> Sorted(len, perm, n, j + 1)
    ensures Less(len, n) + Count(len[..j + 1], n) == pp + if len[j] == n then 1 else 0
  {
    CountTake(len, j, n);
    if len[j] == n {
      assert pp == Slot(len, j);
      forall s | 0 <= s < |len| && s != j ensures Slot(len, s) != pp { SlotDistinct(len, s, j); }
    }
  }

  lemma SortRound(len: seq<Byte>, perm: seq<int>, n: int, pp: nat)
    requires Sorted(len, perm, n, |len|) && pp == Less(len, n) + Count(len[..|len|], n)
    ensures Sorted(len, perm, n + 1, 0) && pp == Less(len, n + 1)
  {
    assert len[..|len|] == len;
    LessNext(len, n);
  }

  lemma SortStart(len: seq<Byte>, perm: seq<int>, lo: nat, hi: nat)
    requires LengthsIn(len, lo, hi) && |len| <= |perm|
    ensures Sorted(len, perm, lo, 0) && Less(len, lo) == 0
  {
    NoneLess(len, lo, hi);
  }

  lemma {:induction false} NoneLess(len: seq<Byte>, lo: nat, hi: nat)
    requires LengthsIn(len, lo, hi)
    ensures Less(len, lo) == 0
  {
    if len != [] { NoneLess(len[..|len| - 1], lo, hi); }
  }

  lemma SortRoundStart(len: seq<Byte>, n: int)
    ensures Less(len, n) == Less(len, n) + Count(len[..0], n)
  {
    assert len[..0] == [];
  }

  lemma SortEnd(len: seq<Byte>, perm: seq<int>, lo: nat, hi: nat)
    requires LengthsIn(len, lo, hi) && Sorted(len, perm, hi + 1, 0)
    ensures forall s :: 0 <= s < |len| ==> perm[Slot(len, s)] == s
  {
  }

  method SortSymbols(perm: array<int>, length: array<Byte>, minLen: nat, maxLen: nat, alphaSize: nat)
    requires alphaSize <= perm.Length && alphaSize <= length.Length && minLen <= maxLen
    requires LengthsIn(length[..alphaSize], minLen, maxLen)
    modifies perm
    ensures forall s :: 0 <= s < alphaSize ==> perm[Slot(length[..alphaSize], s)] == s
    ensures forall k :: 0 <= k < perm.Length ==> perm[k] == old(perm[k]) || 0 <= perm[k] < alphaSize
  {
    hide *;
    ghost var len := length[..alphaSize];
    SortStart(len, perm[..], minLen, maxLen);
    var pp := 0;
    for i := minLen to maxLen + 1
      invariant length[..alphaSize] == len && Sorted(len, perm[..], i, 0) && pp == Less(len, i)
      invariant forall k :: 0 <= k < perm.Length ==> perm[k] == old(perm[k]) || 0 <= perm[k] < alphaSize
    {
      SortRoundStart(len, i);
      for j := 0 to alphaSize
        invariant length[..alphaSize] == len && Sorted(len, perm[..], i, j) && pp >= 0
        invariant pp == Less(len, i) + Count(len[..j], i)
        invariant forall k :: 0 <= k < perm.Length ==> perm[k] == old(perm[k]) || 0 <= perm[k] < alphaSize
      {
        ghost var q := perm[..];
        SortOne(len, q, i, j, pp);
        assert length[j] == len[j];
        if length[j] == i {
          perm[pp] := j;
          assert perm[..] == q[pp := j];
          pp := pp + 1;
        }
      }
      SortRound(len, perm[..], i, pp);
    }
    SortEnd(len, perm[..], minLen, maxLen);
  }

  /** base[k] counts the symbols of length below k. */
  method CountShorter(base: array<int>, length: array<Byte>, alphaSize: nat)
    requires MAX_CODE_LEN <= base.Length && alphaSize <= length.Length
    requires LengthsIn(length[..alphaSize], 0, MAX_CODE_LEN - 2)
    modifies base
    ensures Shorter(length[..alphaSize], base[..])
  {
    ghost var len := length[..alphaSize];
    for i := 0 to MAX_CODE_LEN
      invariant forall k :: 0 <= k < i ==> base[k] == 0
    {
      base[i] := 0;
    }
    assert len[..0] == [];
    for i := 0 to alphaSize
      invariant length[..alphaSize] == len && base[0] == 0
      invariant forall c :: 0 <= c < MAX_CODE_LEN - 1 ==> base[c + 1] == Count(len[..i], c)
    {
      assert length[i] == len[i];
      ghost var seen, more := len[..i], len[..i + 1];
      forall c | 0 <= c < MAX_CODE_LEN - 1 ensures Count(more, c) == Count(seen, c) + if len[i] == c then 1 else 0 {
        CountTake(len, i, c);
      }
      var l: int := length[i];
      base[l + 1] := base[l + 1] + 1;
    }
    assert len[..alphaSize] == len;
    LessEnds(len);
    for i := 1 to MAX_CODE_LEN
      invariant forall k :: 0 <= k < i ==> base[k] == Less(len, k)
      invariant forall c :: i - 1 <= c < MAX_CODE_LEN - 1 ==> base[c + 1] == Count(len, c)
    {
      LessNext(len, i - 1);
      assert base[(i - 1) + 1] == Count(len, i - 1);
      base[i] := base[i] + base[i - 1];
    }
  }

  ghost predicate LimitsSet(len: seq<Byte>, limit: seq<int>, lo: nat, i: int) {
    i <= |limit| && forall n :: lo <= n < i ==> limit[n] == Used(len, n) - 1
  }

  ghost predicate Shorter(len: seq<Byte>, base: seq<int>) {
    |base| >= MAX_CODE_LEN && forall k :: 0 <= k < MAX_CODE_LEN ==> base[k] == Less(len, k)
  }

  /** base has been turned into offsets below i, and still counts shorter codes from there on. */
  ghost predicate BasesSet(len: seq<Byte>, base: seq<int>, lo: nat, hi: nat, i: int) {
    && hi < |base| && 0 <= i <= |base|
    && (forall n :: lo <= n < i ==> base[n] == First(len, n) - Less(len, n))
    && (forall n :: i <= n <= hi ==> base[n] == Less(len, n))
  }

  lemma LimitStep(len: seq<Byte>, limit: seq<int>, base: seq<int>, lo: nat, i: nat, vec: int)
    requires LimitsSet(len, limit, lo, i) && Shorter(len, base) && i + 1 < MAX_CODE_LEN && i < |limit|
    requires vec == First(len, i)
    ensures LimitsSet(len, limit[i := vec + (base[i + 1] - base[i]) - 1], lo, i + 1)
    ensures 2 * (vec + (base[i + 1] - base[i])) == First(len, i + 1)
  {
    LessNext(len, i);
  }

  lemma BaseStep(len: seq<Byte>, limit: seq<int>, base: seq<int>, lo: nat, hi: nat, i: nat)
    requires LimitsSet(len, limit, lo, hi + 1) && BasesSet(len, base, lo, hi, i) && lo < i <= hi
    ensures BasesSet(len, base[i := 2 * (limit[i - 1] + 1) - base[i]], lo, hi, i + 1)
  {
  }

  lemma LimitsStart(len: seq<Byte>, limit: seq<int>, base: seq<int>, lo: nat, hi: nat)
    requires LengthsIn(len, lo, hi) && Shorter(len, base) && lo <= hi < MAX_CODE_LEN && lo <= |limit|
    ensures LimitsSet(len, limit, lo, lo) && First(len, lo) == 0 && BasesSet(len, base, lo, hi, lo + 1)
  {
    FirstBelow(len, lo, hi, lo);
    NoneLess(len, lo, hi);
  }

  lemma LimitsEnd(len: seq<Byte>, limit: seq<int>, base: seq<int>, lo: nat, hi: nat)
    requires LimitsSet(len, limit, lo, hi + 1) && BasesSet(len, base, lo, hi, hi + 1)
    ensures hi < |limit| && hi < |base|
    ensures forall n :: lo <= n <= hi ==> limit[n] == Used(len, n) - 1 && base[n] == First(len, n) - Less(len, n)
  {
  }

  /** Sets limit and adjusts base, length by length. */
  method SetLimits(limit: array<int>, base: array<int>, minLen: nat, maxLen: nat, ghost len: seq<Byte>)
    requires limit != base && MAX_CODE_LEN <= limit.Length && MAX_CODE_LEN <= base.Length
    requires minLen <= maxLen < MAX_CODE_LEN - 1
    requires LengthsIn(len, minLen, maxLen) && Shorter(len, base[..])
    modifies limit, base
    ensures forall n :: minLen <= n <= maxLen ==>
      limit[n] == Used(len, n) - 1 && base[n] == First(len, n) - Less(len, n)
  {
    hide *;
    MaxCodeLen();
    ghost var b0 := base[..];
    for i := 0 to MAX_CODE_LEN
      invariant base[..] == b0
    {
      limit[i] := 0;
    }
    LimitsStart(len, limit[..], b0, minLen, maxLen);
    var vec := 0;
    for i := minLen to maxLen + 1
      invariant vec == First(len, i) && base[..] == b0 && LimitsSet(len, limit[..], minLen, i)
    {
      ghost var l := limit[..];
      LimitStep(len, l, b0, minLen, i, vec);
      vec := vec + (base[i + 1] - base[i]);
      limit[i] := vec - 1;
      assert limit[..] == l[i := vec - 1];
      vec := 2 * vec;
    }
    for i := minLen + 1 to maxLen + 1
      invariant LimitsSet(len, limit[..], minLen, maxLen + 1) && BasesSet(len, base[..], minLen, maxLen, i)
    {
      ghost var b := base[..];
      BaseStep(len, limit[..], b, minLen, maxLen, i);
      base[i] := 2 * (limit[i - 1] + 1) - base[i];
      assert base[..] == b[i := 2 * (limit[i - 1] + 1) - b[i]];
    }
    LimitsEnd(len, limit[..], base[..], minLen, maxLen);
  }

  method CreateDecodeTables(limit: array<int>, base: array<int>, perm: array<int>, length: array<Byte>,
                            minLen: nat, maxLen: nat, alphaSize: nat)
    requires limit != base && limit != perm && base != perm
    requires MAX_CODE_LEN <= limit.Length && MAX_CODE_LEN <= base.Length && alphaSize <= perm.Length
    requires alphaSize <= length.Length
    requires minLen <= maxLen < MAX_CODE_LEN - 1 && LengthsIn(length[..alphaSize], minLen, maxLen)
    modifies limit, base, perm
    ensures Tables(length[..alphaSize], limit[..], base[..], perm[..], minLen, maxLen)
    ensures forall k :: 0 <= k < perm.Length ==> perm[k] == old(perm[k]) || 0 <= perm[k] < alphaSize
  {
    hide *;
    ghost var len := length[..alphaSize];
    MaxCodeLen();
    SortSymbols(perm, length, minLen, maxLen, alphaSize);
    LengthsWiden(len, minLen, maxLen);
    ghost var p := perm[..];
    CountShorter(base, length, alphaSize);
    assert length[..alphaSize] == len && perm[..] == p;
    SetLimits(limit, base, minLen, maxLen, len);
    assert perm[..] == p && forall k :: 0 <= k < perm.Length ==> perm[k] == p[k];
    TablesAre(len, limit[..], base[..], perm[..], minLen, maxLen);
  }

  lemma LengthsWiden(len: seq<Byte>, lo: nat, hi: nat)
    requires LengthsIn(len, lo, hi) && hi <= 21
    ensures LengthsIn(len, 0, MAX_CODE_LEN - 2)
  {
  }

  lemma TablesAre(len: seq<Byte>, limit: seq<int>, base: seq<int>, perm: seq<int>, lo: nat, hi: nat)
    requires |len| <= |perm| && hi < |limit| && hi < |base|
    requires forall n :: lo <= n <= hi ==> limit[n] == Used(len, n) - 1 && base[n] == First(len, n) - Less(len, n)
    requires forall s :: 0 <= s < |len| ==> perm[Slot(len, s)] == s
    ensures Tables(len, limit, base, perm, lo, hi)
  {
  }

  /* ---- decoding one symbol ---- */

  lemma CodeBitsIs(len: seq<Byte>, i: nat)
    requires i < |len|
    ensures CodeBits(len, i) == ToBits(CodeOf(len, i), len[i])
  {
  }

  /** The first n bits of symbol i's code. */
  lemma CodePrefix(len: seq<Byte>, i: nat, n: nat)
    requires i < |len| && n <= len[i]
    ensures CodeBits(len, i)[..n] == ToBits(CodeOf(len, i) / Pow2(len[i] - n), n)
    ensures CodeBits(len, i) == CodeBits(len, i)[..n] + CodeBits(len, i)[n..]
  {
    hide *;
    CodeBitsIs(len, i);
    var p := Pow2(len[i] - n);
    DivMod(CodeOf(len, i), p);
    BitsAppend(CodeOf(len, i) / p, n, CodeOf(len, i) % p, len[i] - n);
  }

  lemma PrefixValue(len: seq<Byte>, i: nat, n: nat, maxLen: nat)
    requires i < |len| && n <= len[i] <= maxLen && Fits(len, maxLen)
    ensures CodeOf(len, i) / Pow2(len[i] - n) < Pow2(n)
    ensures FromBits(CodeBits(len, i)[..n]) == CodeOf(len, i) / Pow2(len[i] - n)
  {
    hide *;
    CodeFits(len, i, maxLen);
    Pow2Add(n, len[i] - n);
    QuotientBound(CodeOf(len, i), Pow2(len[i] - n), Pow2(n));
    CodePrefix(len, i, n);
    FromTo(CodeOf(len, i) / Pow2(len[i] - n), n);
  }

  lemma TablesAt(len: seq<Byte>, limit: seq<int>, base: seq<int>, perm: seq<int>, lo: nat, hi: nat, n: nat)
    requires Tables(len, limit, base, perm, lo, hi) && lo <= n <= hi
    ensures n < |limit| && n < |base| && limit[n] == Used(len, n) - 1 && base[n] == First(len, n) - Less(len, n)
  {
  }

  lemma TablesSymbol(len: seq<Byte>, limit: seq<int>, base: seq<int>, perm: seq<int>, lo: nat, hi: nat, i: nat)
    requires Tables(len, limit, base, perm, lo, hi) && i < |len| && lo <= len[i] <= hi
    ensures len[i] < |base| && CodeOf(len, i) - base[len[i]] == Slot(len, i) < |len| <= |perm|
    ensures perm[Slot(len, i)] == i
  {
  }

  lemma NoShift(x: int)
    ensures x / Pow2(0) == x
  {
    assert Pow2(0) == 1;
  }

  /** At its own length, and no sooner, the bits read fall under the limit. */
  lemma LimitTest(len: seq<Byte>, limit: seq<int>, base: seq<int>, perm: seq<int>, lo: nat, hi: nat, i: nat, n: nat)
    requires Tables(len, limit, base, perm, lo, hi) && Fits(len, hi) && i < |len| && lo <= n <= len[i] <= hi
    ensures n < |limit| && n < |base| && |len| <= |perm|
    ensures FromBits(CodeBits(len, i)[..n]) <= limit[n] <==> n == len[i]
    ensures n == len[i] ==> 0 <= FromBits(CodeBits(len, i)[..n]) - base[n] < |len|
    ensures n == len[i] ==> perm[FromBits(CodeBits(len, i)[..n]) - base[n]] == i
  {
    hide *;
    PrefixValue(len, i, n, hi);
    TablesAt(len, limit, base, perm, lo, hi, n);
    TablesSymbol(len, limit, base, perm, lo, hi, i);
    if n < len[i] {
      CodePrefixAbove(len, i, n);
    } else {
      CodeWithin(len, i);
      NoShift(CodeOf(len, i));
    }
  }

  /** A code that starts the unread bits. */
  ghost predicate Starts(len: seq<Byte>, sym: int, bits: seq<bool>) {
    0 <= sym < |len| && CodeBits(len, sym) <= bits
  }

  lemma {:induction false} StartsPrefix(len: seq<Byte>, sym: nat, bits: seq<bool>, n: nat)
    requires Starts(len, sym, bits) && n <= len[sym]
    ensures len[sym] <= |bits| && bits[..n] == CodeBits(len, sym)[..n]
  {
  }

  lemma {:induction false} NextBit(bits: seq<bool>, n: nat, v: nat)
    requires n < |bits| && ToBits(v, 1) == bits[n..][..1] && v < Pow2(1)
    ensures FromBits(bits[..n + 1]) == 2 * FromBits(bits[..n]) + v && bits[n..][1..] == bits[n + 1..]
  {
    assert bits[..n + 1][..n] == bits[..n];
    assert ToBits(v, 1) == ToBits(v / 2, 0) + [v % 2 == 1];
    assert ToBits(v, 1)[0] == bits[n];
    assert Pow2(1) == 2;
  }

  lemma {:induction false} FirstBits(bits: seq<bool>, n: nat, v: nat)
    requires n <= |bits| && ToBits(v, n) == bits[..n] && v < Pow2(n)
    ensures FromBits(bits[..n]) == v
  {
    FromTo(v, n);
  }

  /** Where the symbol scan stands after n bits, if a code does start the input. */
  ghost predicate Scanning(len: seq<Byte>, sym: int, bits: seq<bool>, n: nat, lo: nat, hi: nat) {
    Starts(len, sym, bits) ==> lo <= n <= len[sym] <= hi
  }

  lemma {:induction false} ScanTest(len: seq<Byte>, limit: seq<int>, base: seq<int>, perm: seq<int>, lo: nat, hi: nat,
                                    sym: int, bits: seq<bool>, n: nat)
    requires Tables(len, limit, base, perm, lo, hi) && (sym >= 0 ==> Fits(len, hi)) && hi <= 20
    requires |len| <= MAX_ALPHA_SIZE
    requires Scanning(len, sym, bits, n, lo, hi) && n <= |bits|
    ensures Starts(len, sym, bits) ==> n <= 20 && n < |limit| && n < |base|
    ensures Starts(len, sym, bits) ==> (FromBits(bits[..n]) <= limit[n] <==> n == len[sym])
    ensures Starts(len, sym, bits) && n == len[sym] ==>
      0 <= FromBits(bits[..n]) - base[n] < MAX_ALPHA_SIZE && FromBits(bits[..n]) - base[n] < |perm|
    ensures Starts(len, sym, bits) && n == len[sym] ==> perm[FromBits(bits[..n]) - base[n]] == sym
    ensures Starts(len, sym, bits) && n < len[sym] ==> n < |bits|
  {
    if Starts(len, sym, bits) {
      StartsPrefix(len, sym, bits, n);
      LimitTest(len, limit, base, perm, lo, hi, sym, n);
    }
  }

  /** Reads one symbol; sym names the symbol whose code starts the unread bits, if there is one. */
  method ReadSymbol(r: BitReader, limit: seq<int>, base: seq<int>, perm: seq<int>, minLen: nat,
                    ghost len: seq<Byte>, ghost maxLen: nat, ghost sym: int)
    returns (res: Outcome<int>)
    requires r.Valid() && |limit| == |base| == |perm| == MAX_ALPHA_SIZE
    requires Tables(len, limit, base, perm, minLen, maxLen) && (sym >= 0 ==> Fits(len, maxLen))
    requires LengthsIn(len, minLen, maxLen) && 1 <= minLen <= 20 && maxLen <= 20 && |len| <= MAX_ALPHA_SIZE
    modifies r
    ensures r.Valid() && |r.Rest()| <= old(|r.Rest()|)
    ensures Starts(len, sym, old(r.Rest())) ==> res == Value(sym) && r.Rest() == old(r.Rest())[len[sym]..]
    ensures res.Value? ==> res.v in perm && |r.Rest()| < |old(r.Rest())|
  {
    hide *;
    MaxAlpha();
    ghost var bits := r.Rest();
    ScanStarts(len, sym, bits, minLen, maxLen);
    var zn := minLen;
    var ok, zvec := r.GetBits(zn);
    if !ok { return NeedInput; }
    FirstBits(bits, zn, zvec);
    while true
      invariant r.Valid() && |r.Rest()| <= old(|r.Rest()|) && zn <= |bits| && minLen <= zn
      invariant zvec == FromBits(bits[..zn]) && r.Rest() == bits[zn..]
      invariant Scanning(len, sym, bits, zn, minLen, maxLen)
      decreases |bits| - zn
    {
      ScanTest(len, limit, base, perm, minLen, maxLen, sym, bits, zn);
      if zn > 20 { return DataError; }
      if zvec <= limit[zn] { break; }
      ScanOn(len, sym, bits, zn, minLen, maxLen);
      var okj, zj := r.GetBits(1);
      if !okj { return NeedInput; }
      NextBit(bits, zn, zj);
      zn := zn + 1;
      zvec := 2 * zvec + zj;
    }
    if zvec - base[zn] < 0 || zvec - base[zn] >= MAX_ALPHA_SIZE { return DataError; }
    res := Value(perm[zvec - base[zn]]);
  }

  lemma {:induction false} ScanStarts(len: seq<Byte>, sym: int, bits: seq<bool>, lo: nat, hi: nat)
    requires LengthsIn(len, lo, hi)
    ensures Scanning(len, sym, bits, lo, lo, hi) && (Starts(len, sym, bits) ==> lo <= |bits|)
  {
  }

  lemma {:induction false} ScanOn(len: seq<Byte>, sym: int, bits: seq<bool>, n: nat, lo: nat, hi: nat)
    requires Scanning(len, sym, bits, n, lo, hi) && (Starts(len, sym, bits) ==> n != len[sym])
    ensures Scanning(len, sym, bits, n + 1, lo, hi) && (Starts(len, sym, bits) ==> n < |bits|)
  {
  }
}
