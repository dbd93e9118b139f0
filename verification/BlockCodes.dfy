/** The symbols of a block as codes: fifty at a time, each group with the table its selector names. */
module BlockCodes {
  import opened MachineInts
  import opened BzConstants
  import opened SetSums
  import opened Words
  import opened BitStream
  import opened BitFields
  import opened CanonicalCode
  import opened PrefixCodes
  import opened TableChoice

  /** Tables, selectors and symbols that go together. */
  ghost predicate Coding(lens: seq<seq<Byte>>, selector: seq<nat>, syms: seq<nat>, alphaSize: nat) {
    && 2 <= |lens| <= 6 && 3 <= alphaSize <= 258 && 0 < |syms|
    && |selector| == GroupCount(|syms|) <= 18002
    && (forall t :: 0 <= t < |lens| ==> |lens[t]| == alphaSize && LengthsIn(lens[t], 1, 17) && Fits(lens[t], 17))
    && (forall g :: 0 <= g < |selector| ==> selector[g] < |lens|)
    && SymsBelow(syms, alphaSize)
  }

  lemma CodingAt(lens: seq<seq<Byte>>, selector: seq<nat>, syms: seq<nat>, alphaSize: nat, i: nat)
    requires Coding(lens, selector, syms, alphaSize) && i < |syms|
    ensures i / 50 < |selector| <= 18002 && selector[i / 50] < |lens| && syms[i] < alphaSize == |lens[selector[i / 50]]|
    ensures LengthsIn(lens[selector[i / 50]], 1, 17) && Fits(lens[selector[i / 50]], 17)
  {
    assert |selector| == GroupCount(|syms|);
  }

  ghost function CodePieces(lens: seq<seq<Byte>>, selector: seq<nat>, syms: seq<nat>,
                            alphaSize: nat): (r: seq<seq<bool>>)
    requires Coding(lens, selector, syms, alphaSize)
    ensures |r| == |syms|
  {
    seq(|syms|, i requires 0 <= i < |syms| =>
      CodingAt(lens, selector, syms, alphaSize, i);
      CodeBits(lens[selector[i / 50]], syms[i]))
  }

  lemma CodePieceAt(lens: seq<seq<Byte>>, selector: seq<nat>, syms: seq<nat>, alphaSize: nat, i: nat)
    requires Coding(lens, selector, syms, alphaSize) && i < |syms|
    ensures i / 50 < |selector| && selector[i / 50] < |lens| && syms[i] < |lens[selector[i / 50]]|
    ensures |CodePieces(lens, selector, syms, alphaSize)| == |syms|
    ensures CodePieces(lens, selector, syms, alphaSize)[i] == CodeBits(lens[selector[i / 50]], syms[i])
  {
    CodingAt(lens, selector, syms, alphaSize, i);
  }

  lemma CodePiecesSize(lens: seq<seq<Byte>>, selector: seq<nat>, syms: seq<nat>, alphaSize: nat)
    requires Coding(lens, selector, syms, alphaSize)
    ensures |CodePieces(lens, selector, syms, alphaSize)| == |syms| > 0 && |selector| == GroupCount(|syms|) <= 18002
  {
  }

  /* ---- codes for the tables ---- */

  /** The shortest and the longest length of a table. */
  method LengthRange(len: seq<Byte>) returns (minLen: nat, maxLen: nat)
    requires 0 < |len| && LengthsIn(len, 1, 20)
    ensures 1 <= minLen <= maxLen <= 20 && LengthsIn(len, minLen, maxLen)
    ensures (exists i :: 0 <= i < |len| && len[i] == minLen) && (exists i :: 0 <= i < |len| && len[i] == maxLen)
  {
    minLen, maxLen := 32, 0;
    for i := 0 to |len|
      invariant i == 0 ==> minLen == 32 && maxLen == 0
      invariant i > 0 ==> 1 <= minLen <= maxLen <= 20
      invariant i > 0 ==> (exists k :: 0 <= k < i && len[k] == minLen) && (exists k :: 0 <= k < i && len[k] == maxLen)
      invariant forall k :: 0 <= k < i ==> minLen <= len[k] <= maxLen
    {
      if len[i] > maxLen { maxLen := len[i]; }
      if len[i] < minLen { minLen := len[i]; }
    }
  }

  ghost predicate CodesFor(len: seq<Byte>, code: seq<int>) {
    |code| == |len| && forall v :: 0 <= v < |len| ==> code[v] == CodeOf(len, v)
  }

  method AssignTable(len: seq<Byte>) returns (code: seq<int>)
    requires 0 < |len| && LengthsIn(len, 1, 20)
    ensures CodesFor(len, code)
  {
    var n := |len|;
    var minLen, maxLen := LengthRange(len);
    var length := new Byte[n](i requires 0 <= i < n => len[i]);
    var codes := new int[n];
    assert length[..n] == len;
    AssignCodes(codes, length, minLen, maxLen, n);
    code := codes[..];
  }

  lemma WidenTo20(len: seq<Byte>)
    requires LengthsIn(len, 1, 17)
    ensures LengthsIn(len, 1, 20)
  {
  }

  method AssignTables(lens: seq<seq<Byte>>) returns (codes: seq<seq<int>>)
    requires forall t :: 0 <= t < |lens| ==> 0 < |lens[t]| && LengthsIn(lens[t], 1, 17)
    ensures |codes| == |lens| && forall t :: 0 <= t < |lens| ==> CodesFor(lens[t], codes[t])
  {
    codes := [];
    for t := 0 to |lens|
      invariant |codes| == t && forall s :: 0 <= s < t ==> CodesFor(lens[s], codes[s])
    {
      WidenTo20(lens[t]);
      var code := AssignTable(lens[t]);
      codes := codes + [code];
    }
  }

  /* ---- sending ---- */

  lemma CodeReady(len: seq<Byte>, code: seq<int>, v: nat)
    requires CodesFor(len, code) && v < |len| && LengthsIn(len, 1, 17) && Fits(len, 17)
    ensures |code| == |len| && len[v] <= 25 && 0 <= code[v] < Pow2(len[v])
    ensures ToBits(code[v], len[v]) == CodeBits(len, v)
  {
    CodeFits(len, v, 17);
  }

  /** Sends the symbols gs..ge, all with one table. */
  method SendGroup(w: BitWriter, len: seq<Byte>, code: seq<int>, arr1: array<UInt32>, nMTF: nat, gs: nat, ge: nat,
                   sel: nat,
                   ghost lens: seq<seq<Byte>>, ghost selector: seq<nat>, ghost syms: seq<nat>, ghost alphaSize: nat)
    requires w.Valid() && nMTF <= 2 * arr1.Length && syms == HalfView(arr1[..], nMTF)
    requires Coding(lens, selector, syms, alphaSize)
    requires gs <= ge < nMTF && sel < |selector| && gs == 50 * sel && ge < gs + 50
    requires selector[sel] < |lens| && len == lens[selector[sel]] && CodesFor(len, code)
    modifies w
    ensures w.Valid() && old(w.zbits) <= w.zbits
    ensures gs <= ge + 1 <= |CodePieces(lens, selector, syms, alphaSize)| == |syms|
    ensures w.Bits() + Flat(CodePieces(lens, selector, syms, alphaSize), ge + 1)
         == old(w.Bits()) + Flat(CodePieces(lens, selector, syms, alphaSize), gs)
  {
    hide *;
    HalfSize(arr1[..], nMTF);
    CodePiecesSize(lens, selector, syms, alphaSize);
    ghost var ps := CodePieces(lens, selector, syms, alphaSize);
    ghost var goal := w.Bits() + Flat(ps, gs);
    for i := gs to ge + 1
      invariant w.Valid() && w.Bits() + Flat(ps, i) == goal && old(w.zbits) <= w.zbits
      invariant syms == HalfView(arr1[..], nMTF)
    {
      var v := GetHalf(arr1, i, nMTF);
      FlatNext(ps, i);
      CodePieceAt(lens, selector, syms, alphaSize, i);
      CodingAt(lens, selector, syms, alphaSize, i);
      InGroup(i, gs, sel);
      Shift(w.Bits(), ps[i], Flat(ps, i + 1));
      CodeReady(len, code, v);
      w.W(len[v], code[v]);
    }
  }

  lemma InGroup(i: nat, gs: nat, sel: nat)
    requires gs == 50 * sel && gs <= i < gs + 50
    ensures i / 50 == sel
  {
  }

  method SendCodes(w: BitWriter, nGroups: nat, codes: seq<seq<int>>, selector: array<Byte>, nSelectors: nat,
                   arr1: array<UInt32>, nMTF: nat,
                   lens: seq<seq<Byte>>, ghost syms: seq<nat>, ghost alphaSize: nat)
    requires w.Valid() && nMTF <= 2 * arr1.Length && syms == HalfView(arr1[..], nMTF)
    requires nSelectors <= selector.Length && Coding(lens, selector[..nSelectors], syms, alphaSize)
    requires |codes| == |lens| == nGroups && forall t :: 0 <= t < |lens| ==> CodesFor(lens[t], codes[t])
    modifies w
    ensures w.Valid() && old(w.zbits) <= w.zbits
    ensures w.Bits() == old(w.Bits()) + Flat(CodePieces(lens, selector[..nSelectors], syms, alphaSize), 0)
  {
    hide *;
    GroupSizes();
    HalfSize(arr1[..], nMTF);
    ghost var sel := selector[..nSelectors];
    CodePiecesSize(lens, sel, syms, alphaSize);
    ghost var ps := CodePieces(lens, sel, syms, alphaSize);
    ghost var goal := w.Bits() + Flat(ps, 0);
    var selCtr, gs := 0, 0;
    while gs < nMTF
      invariant 0 <= gs <= nMTF && 0 <= selCtr && (gs < nMTF ==> gs == 50 * selCtr)
      invariant gs == nMTF ==> selCtr == GroupCount(nMTF)
      invariant w.Valid() && w.Bits() + Flat(ps, gs) == goal && old(w.zbits) <= w.zbits
      invariant selector[..nSelectors] == sel && syms == HalfView(arr1[..], nMTF)
    {
      var ge := gs + BZ_G_SIZE - 1;
      if ge >= nMTF { ge := nMTF - 1; }
      GroupAt(nMTF, selCtr, gs, ge);
      CodingAt(lens, sel, syms, alphaSize, gs);
      InGroup(gs, gs, selCtr);
      assert selector[selCtr] == sel[selCtr];
      var t := selector[selCtr];
      SendGroup(w, lens[t], codes[t], arr1, nMTF, gs, ge, selCtr, lens, sel, syms, alphaSize);
      gs := ge + 1;
      selCtr := selCtr + 1;
    }
    FlatEnd(ps);
    assert w.Bits() + [] == w.Bits();
  }

  /* ---- receiving ---- */

  datatype DecodeTable = DecodeTable(limit: seq<int>, base: seq<int>, perm: seq<int>, minLen: nat)

  ghost predicate TableFor(d: DecodeTable, len: seq<Byte>) {
    && |d.limit| == |d.base| == |d.perm| == MAX_ALPHA_SIZE && 0 < |len| <= MAX_ALPHA_SIZE && 1 <= d.minLen <= 20
    && LengthsIn(len, d.minLen, Longest(len)) && Longest(len) <= 20
    && Tables(len, d.limit, d.base, d.perm, d.minLen, Longest(len))
    && forall k :: 0 <= k < MAX_ALPHA_SIZE ==> 0 <= d.perm[k] < |len|
  }

  ghost function Longest(len: seq<Byte>): (r: nat)
    requires |len| > 0
    ensures LengthsIn(len, 0, r) && exists i :: 0 <= i < |len| && len[i] == r
  {
    if |len| == 1 then len[0] else
      var m := Longest(len[..|len| - 1]);
      assert forall i :: 0 <= i < |len| - 1 ==> len[i] == len[..|len| - 1][i];
      if len[|len| - 1] > m then len[|len| - 1] else m
  }

  lemma LongestIs(len: seq<Byte>, m: nat)
    requires |len| > 0 && LengthsIn(len, 0, m) && exists i :: 0 <= i < |len| && len[i] == m
    ensures Longest(len) == m
  {
  }

  method BuildDecodeTable(len: seq<Byte>) returns (d: DecodeTable)
    requires 0 < |len| <= 258 && LengthsIn(len, 1, 20)
    ensures TableFor(d, len)
  {
    MaxAlpha();
    MaxCodeLen();
    var n := |len|;
    var minLen, maxLen := LengthRange(len);
    LongestIs(len, maxLen);
    var length := new Byte[n](i requires 0 <= i < n => len[i]);
    var limit, base, perm := new int[258](_ => 0), new int[258](_ => 0), new int[258](_ => 0);
    assert length[..n] == len;
    CreateDecodeTables(limit, base, perm, length, minLen, maxLen, n);
    d := DecodeTable(limit[..], base[..], perm[..], minLen);
  }

  method BuildDecodeTables(lens: seq<seq<Byte>>) returns (tables: seq<DecodeTable>)
    requires forall t :: 0 <= t < |lens| ==> 0 < |lens[t]| <= 258 && LengthsIn(lens[t], 1, 20)
    ensures |tables| == |lens| && forall t :: 0 <= t < |lens| ==> TableFor(tables[t], lens[t])
  {
    tables := [];
    for t := 0 to |lens|
      invariant |tables| == t && forall s :: 0 <= s < t ==> TableFor(tables[s], lens[s])
    {
      var d := BuildDecodeTable(lens[t]);
      tables := tables + [d];
    }
  }

  lemma TableParts(d: DecodeTable, len: seq<Byte>)
    requires TableFor(d, len)
    ensures |d.limit| == |d.base| == |d.perm| == MAX_ALPHA_SIZE && 0 < |len| <= MAX_ALPHA_SIZE && 1 <= d.minLen <= 20
    ensures LengthsIn(len, d.minLen, Longest(len)) && Longest(len) <= 20
    ensures Tables(len, d.limit, d.base, d.perm, d.minLen, Longest(len))
    ensures forall x :: x in d.perm ==> 0 <= x < |len|
  {
  }

  lemma LongestFits(len: seq<Byte>)
    requires |len| > 0 && LengthsIn(len, 1, 17) && Fits(len, 17)
    ensures Fits(len, Longest(len))
  {
    FitsAtLongest(len, Longest(len), 17);
  }

  lemma {:induction false} BeginsWith(len: seq<Byte>, v: nat, rest: seq<bool>)
    requires v < |len|
    ensures Starts(len, v, CodeBits(len, v) + rest) && (CodeBits(len, v) + rest)[len[v]..] == rest
  {
  }

  /** Delivers the symbols of a block one at a time, changing tables every fifty symbols. */
  class SymbolSource {
    const r: BitReader
    const selector: seq<nat>
    const tables: seq<DecodeTable>
    ghost const lens: seq<seq<Byte>>
    var groupNo: int
    var groupPos: nat
    var gSel: nat

    ghost predicate Valid()
      reads this, r
    {
      && r.Valid() && |tables| == |lens| && -1 <= groupNo && groupPos <= 50
      && (forall t :: 0 <= t < |tables| ==> TableFor(tables[t], lens[t]))
      && (forall g :: 0 <= g < |selector| ==> selector[g] < |tables|)
      && (groupPos > 0 ==> gSel < |tables|)
    }

    /** The reader stands before symbol k of syms, coded by these tables and selectors, with tail behind them. */
    ghost predicate At(syms: seq<nat>, alphaSize: nat, k: nat, tail: seq<bool>)
      reads this, r
    {
      && k <= |syms| && Coding(lens, selector, syms, alphaSize)
      && r.Rest() == Flat(CodePieces(lens, selector, syms, alphaSize), k) + tail
      && (k % 50 == 0 ==> groupPos == 0 && groupNo == k / 50 - 1)
      && (k % 50 != 0 ==> groupPos == 50 - k % 50 && groupNo == k / 50)
      && (k % 50 != 0 ==> groupNo < |selector| && gSel == selector[groupNo])
    }

    constructor (r: BitReader, selector: seq<nat>, tables: seq<DecodeTable>, ghost lens: seq<seq<Byte>>)
      requires r.Valid() && |tables| == |lens|
      requires forall t :: 0 <= t < |tables| ==> TableFor(tables[t], lens[t])
      requires forall g :: 0 <= g < |selector| ==> selector[g] < |tables|
      ensures Valid() && this.r == r && this.selector == selector && this.tables == tables && this.lens == lens
      ensures forall syms, alphaSize: nat, tail |
        Coding(lens, selector, syms, alphaSize) && r.Rest() == Flat(CodePieces(lens, selector, syms, alphaSize),
              0) + tail ::
        At(syms, alphaSize, 0, tail)
    {
      this.r, this.selector, this.tables, this.lens := r, selector, tables, lens;
      groupNo, groupPos, gSel := -1, 0, 0;
    }

    lemma Facts()
      requires Valid()
      ensures r.Valid() && |tables| == |lens| && -1 <= groupNo && groupPos <= 50
      ensures forall g :: 0 <= g < |selector| ==> selector[g] < |tables|
      ensures groupPos > 0 ==> gSel < |tables|
    {
    }

    lemma StillValid()
      requires r.Valid() && |tables| == |lens| && -1 <= groupNo && groupPos <= 50
      requires forall t :: 0 <= t < |tables| ==> TableFor(tables[t], lens[t])
      requires forall g :: 0 <= g < |selector| ==> selector[g] < |tables|
      requires groupPos > 0 ==> gSel < |tables|
      ensures Valid()
    {
    }

    lemma AllTables()
      requires Valid()
      ensures |tables| == |lens| && forall t :: 0 <= t < |tables| ==> TableFor(tables[t], lens[t])
    {
    }

    lemma AtParts(syms: seq<nat>, alphaSize: nat, k: nat, tail: seq<bool>)
      ensures At(syms, alphaSize, k, tail) <==>
        && k <= |syms| && Coding(lens, selector, syms, alphaSize)
        && r.Rest() == Flat(CodePieces(lens, selector, syms, alphaSize), k) + tail
        && (k % 50 == 0 ==> groupPos == 0 && groupNo == k / 50 - 1)
        && (k % 50 != 0 ==> groupPos == 50 - k % 50 && groupNo == k / 50)
        && (k % 50 != 0 ==> groupNo < |selector| && gSel == selector[groupNo])
    {
    }

    /** Reads the next symbol. */
    method GetMtfVal(ghost syms: seq<nat>, ghost alphaSize: nat, ghost k: nat, ghost tail: seq<bool>)
      returns (o: Outcome<nat>)
      requires Valid() && forall t :: 0 <= t < |lens| ==> |lens[t]| <= alphaSize
      modifies this, r
      ensures Valid() && |r.Rest()| <= old(|r.Rest()|)
      ensures o.Value? ==> o.v < alphaSize && |r.Rest()| < |old(r.Rest())|
      ensures old(At(syms, alphaSize, k, tail)) && k < |syms| ==> o == Value(syms[k])
      ensures old(At(syms, alphaSize, k, tail)) && k < |syms| ==> At(syms, alphaSize, k + 1, tail)
    {
      hide *;
      GroupSizes();
      Facts();
      AllTables();
      AtParts(syms, alphaSize, k, tail);
      ghost var good := At(syms, alphaSize, k, tail) && k < |syms|;
      if good { CodingAt(lens, selector, syms, alphaSize, k); }
      if groupPos == 0 {
        groupNo := groupNo + 1;
        if groupNo >= |selector| {
          StillValid();
          return DataError;
        }
        groupPos := BZ_G_SIZE;
        gSel := selector[groupNo];
      }
      groupPos := groupPos - 1;
      var t := tables[gSel];
      ghost var len := lens[gSel];
      TableParts(t, len);
      ghost var sym: int, rest: seq<bool> := -1, [];
      if good {
        assert gSel == selector[k / 50];
        sym := syms[k];
        LongestFits(len);
        CodePieceAt(lens, selector, syms, alphaSize, k);
        ghost var ps := CodePieces(lens, selector, syms, alphaSize);
        FlatNext(ps, k);
        rest := Flat(ps, k + 1) + tail;
        Shift(ps[k], Flat(ps, k + 1), tail);
        BeginsWith(len, sym, rest);
      }
      var res := ReadSymbol(r, t.limit, t.base, t.perm, t.minLen, len, Longest(len), sym);
      StillValid();
      if good {
        NextPlace(k);
        AtParts(syms, alphaSize, k + 1, tail);
      }
      if !res.Value? { return if res.NeedInput? then NeedInput else DataError; }
      o := Value(res.v);
    }
  }

  lemma NextPlace(k: nat)
    ensures (k + 1) % 50 == 0 ==> k % 50 == 49 && (k + 1) / 50 - 1 == k / 50
    ensures (k + 1) % 50 != 0 ==> (k + 1) / 50 == k / 50 && (k + 1) % 50 == k % 50 + 1
  {
  }
}
