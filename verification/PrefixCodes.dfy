/** Binary prefix codes obey Kraft's inequality, so the Huffman lengths beat every prefix code. */
module PrefixCodes {
  import opened Arithmetic
  import opened MachineInts
  import opened SetSums
  import opened Counting
  import opened CanonicalCode
  import opened HuffmanTheory
  import opened HuffmanLengths
  import DeflateCodes

  type Code = seq<seq<bool>>

  ghost predicate IsPrefixFree(codes: Code) {
    forall i, j :: 0 <= i < |codes| && 0 <= j < |codes| && i != j ==> !(codes[i] <= codes[j])
  }

  ghost function LengthsOf(codes: Code): (l: seq<nat>)
    ensures |l| == |codes| && forall i :: 0 <= i < |l| ==> l[i] == |codes[i]|
  {
    seq(|codes|, i requires 0 <= i < |codes| => |codes[i]|)
  }

  ghost predicate NoLonger(codes: Code, bound: nat) {
    forall i :: 0 <= i < |codes| ==> |codes[i]| <= bound
  }

  /** Space taken by the codes, in units of 2^-bound. */
  ghost function Space(codes: Code, bound: nat): nat {
    if codes == [] then 0 else Space(codes[..|codes| - 1], bound) + Pow2(bound - |codes[|codes| - 1]|)
  }

  /** What follows bit b in the codes that start with it. */
  ghost function Tails(codes: Code, b: bool): (r: Code) {
    if codes == [] then []
    else
      var c, rest := codes[|codes| - 1], Tails(codes[..|codes| - 1], b);
      if c != [] && c[0] == b then rest + [c[1..]] else rest
  }

  /** The codes that two tails come from. */
  lemma {:induction false} TailsFrom(codes: Code, b: bool, i: nat, j: nat) returns (i': nat, j': nat)
    requires i < j < |Tails(codes, b)|
    ensures i' < j' < |codes| && codes[i'] == [b] + Tails(codes, b)[i] && codes[j'] == [b] + Tails(codes, b)[j]
  {
    var k := |codes| - 1;
    var c, rest := codes[k], Tails(codes[..k], b);
    if j < |rest| {
      i', j' := TailsFrom(codes[..k], b, i, j);
    } else {
      i' := TailFrom(codes[..k], b, i);
      j' := k;
      assert c == [b] + c[1..];
    }
  }

  lemma {:induction false} TailFrom(codes: Code, b: bool, i: nat) returns (i': nat)
    requires i < |Tails(codes, b)|
    ensures i' < |codes| && codes[i'] == [b] + Tails(codes, b)[i]
  {
    var k := |codes| - 1;
    var c, rest := codes[k], Tails(codes[..k], b);
    if i < |rest| {
      i' := TailFrom(codes[..k], b, i);
    } else {
      i' := k;
      assert c == [b] + c[1..];
    }
  }

  lemma {:induction false} InFront(b: bool, x: seq<bool>, y: seq<bool>)
    requires x <= y
    ensures [b] + x <= [b] + y
  {
  }

  lemma TailsPrefixFree(codes: Code, b: bool, bound: nat)
    requires IsPrefixFree(codes) && NoLonger(codes, bound + 1)
    ensures IsPrefixFree(Tails(codes, b)) && NoLonger(Tails(codes, b), bound)
  {
    var t := Tails(codes, b);
    forall i, j | 0 <= i < |t| && 0 <= j < |t| && i != j ensures !(t[i] <= t[j]) {
      var i', j';
      if i < j { i', j' := TailsFrom(codes, b, i, j); } else { j', i' := TailsFrom(codes, b, j, i); }
      assert !(codes[i'] <= codes[j']);
      if t[i] <= t[j] { InFront(b, t[i], t[j]); }
    }
    forall i | 0 <= i < |t| ensures |t[i]| <= bound { var i' := TailFrom(codes, b, i); }
  }

  lemma {:induction false} SpacePush(codes: Code, c: seq<bool>, bound: nat)
    ensures Space(codes + [c], bound) == Space(codes, bound) + Pow2(bound - |c|)
  {
    assert (codes + [c])[..|codes|] == codes;
  }

  lemma {:induction false} TailsPush(codes: Code, c: seq<bool>)
    requires c != []
    ensures Tails(codes + [c], c[0]) == Tails(codes, c[0]) + [c[1..]]
    ensures Tails(codes + [c], !c[0]) == Tails(codes, !c[0])
  {
    assert (codes + [c])[..|codes|] == codes;
  }

  lemma {:induction false} SpaceSplits(codes: Code, bound: nat)
    requires forall i :: 0 <= i < |codes| ==> codes[i] != []
    ensures Space(codes, bound + 1) == Space(Tails(codes, false), bound) + Space(Tails(codes, true), bound)
  {
    if codes == [] {
    } else {
      var k := |codes| - 1;
      var c := codes[k];
      hide Space, Tails, Pow2;
      SpaceSplits(codes[..k], bound);
      assert codes == codes[..k] + [c];
      SpacePush(codes[..k], c, bound + 1);
      TailsPush(codes[..k], c);
      SpacePush(Tails(codes[..k], c[0]), c[1..], bound);
    }
  }

  lemma {:induction false} EmptyIsPrefix(x: seq<bool>, y: seq<bool>)
    requires x == []
    ensures x <= y
  {
  }

  /** The empty code is a prefix of everything, so it stands alone. */
  lemma EmptyAlone(codes: Code, e: nat, bound: nat)
    requires IsPrefixFree(codes) && e < |codes| && codes[e] == []
    ensures Space(codes, bound) == Pow2(bound)
  {
    if |codes| > 1 { EmptyIsPrefix(codes[e], codes[if e == 0 then 1 else 0]); }
    assert codes[..|codes| - 1] == [];
  }

  /** Kraft's inequality. */
  lemma {:induction false} PrefixFreeFits(codes: Code, bound: nat)
    requires IsPrefixFree(codes) && NoLonger(codes, bound)
    ensures Space(codes, bound) <= Pow2(bound)
    decreases bound
  {
    hide Tails;
    if e :| 0 <= e < |codes| && codes[e] == [] {
      EmptyAlone(codes, e, bound);
    } else if codes != [] {
      assert |codes[0]| > 0;
      SpaceSplits(codes, bound - 1);
      TailsPrefixFree(codes, false, bound - 1);
      TailsPrefixFree(codes, true, bound - 1);
      PrefixFreeFits(Tails(codes, false), bound - 1);
      PrefixFreeFits(Tails(codes, true), bound - 1);
    }
  }

  lemma {:induction false} SpaceIsTotal(codes: Code, bound: nat)
    ensures Space(codes, bound) == Total(Terms(LengthsOf(codes), bound))
  {
    if codes != [] {
      var k := |codes| - 1;
      SpaceIsTotal(codes[..k], bound);
      assert Terms(LengthsOf(codes), bound)[..k] == Terms(LengthsOf(codes[..k]), bound);
    }
  }

  lemma PrefixFreeWorkable(codes: Code, bound: nat)
    requires IsPrefixFree(codes) && NoLonger(codes, bound)
    ensures Workable(LengthsOf(codes), bound)
  {
    PrefixFreeFits(codes, bound);
    SpaceIsTotal(codes, bound);
  }

  /** No prefix code gives these weights a shorter total than optimal lengths do. */
  lemma BeatsPrefixCodes(ws: seq<nat>, len: seq<nat>, codes: Code, bound: nat)
    requires OptimalFor(ws, len) && |codes| == |len| && IsPrefixFree(codes) && NoLonger(codes, bound)
    ensures Total(Products(ws, len)) <= Total(Products(ws, LengthsOf(codes)))
  {
    PrefixFreeWorkable(codes, bound);
  }

  /* ---- Huffman lengths suit canonical codes ---- */

  /** Space of the codes of length at most n, in units of 2^-n. */
  ghost function ShareUpTo(len: seq<Byte>, n: nat): nat {
    if len == [] then 0
    else ShareUpTo(len[..|len| - 1], n) + (if len[|len| - 1] <= n then Pow2(n - len[|len| - 1]) else 0)
  }

  lemma {:induction false} ShareNext(len: seq<Byte>, n: nat)
    ensures ShareUpTo(len, n + 1) == 2 * ShareUpTo(len, n) + Count(len, n + 1)
  {
    if len != [] { ShareNext(len[..|len| - 1], n); }
  }

  lemma {:induction false} ShareNone(len: seq<Byte>, hi: nat)
    requires LengthsIn(len, 1, hi)
    ensures ShareUpTo(len, 0) == 0
  {
    if len != [] { ShareNone(len[..|len| - 1], hi); }
  }

  lemma {:induction false} UsedIsShare(len: seq<Byte>, hi: nat, n: nat)
    requires LengthsIn(len, 1, hi)
    ensures Used(len, n) == ShareUpTo(len, n)
  {
    if n == 0 {
      ShareNone(len, hi);
      NoneBelow(len, 1, hi, 0);
    } else {
      UsedIsShare(len, hi, n - 1);
      ShareNext(len, n - 1);
    }
  }

  lemma {:induction false} ShareIsTotal(len: seq<Byte>, hi: nat)
    requires LengthsIn(len, 1, hi)
    ensures ShareUpTo(len, hi) == Total(Terms(len, hi))
  {
    if len != [] {
      var k := |len| - 1;
      ShareIsTotal(len[..k], hi);
      assert Terms(len, hi)[..k] == Terms(len[..k], hi);
    }
  }

  /** Lengths that the Huffman construction yields leave room for canonical codes. */
  lemma GoodLengthsFit(len: seq<Byte>, ws: seq<nat>, maxLen: nat)
    requires GoodLengths(len, ws, maxLen)
    ensures LengthsIn(len, 1, maxLen) && Fits(len, maxLen)
  {
    UsedIsShare(len, maxLen, maxLen);
    ShareIsTotal(len, maxLen);
  }

  /** Unused lengths add no code space. */
  lemma FitsAtLongest(len: seq<Byte>, longest: nat, maxLen: nat)
    requires LengthsIn(len, 1, longest) && longest <= maxLen && Fits(len, maxLen)
    ensures Fits(len, longest)
  {
    UsedGrows(len, longest, maxLen);
    Pow2Add(longest, maxLen - longest);
    Cancel(Used(len, longest), Pow2(longest), Pow2(maxLen - longest));
  }

  /* ---- the same codes in the other format ---- */

  /** Deflate marks a symbol without a code by length 0; where there is none, its codes are the same. */
  lemma {:induction false} SameFirst(len: seq<Byte>, n: nat)
    requires Count(len, 0) == 0
    ensures DeflateCodes.FirstCode(len, n) == First(len, n)
  {
    if n > 1 {
      SameFirst(len, n - 1);
    } else if n == 1 {
      SameFirst(len, 0);
    }
  }

  lemma SameCode(len: seq<Byte>, i: nat)
    requires i < |len| && Count(len, 0) == 0
    ensures DeflateCodes.CodeOf(len, i) == CodeOf(len, i)
  {
    SameFirst(len, len[i]);
  }
}
