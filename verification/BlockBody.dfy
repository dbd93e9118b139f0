/** The coded body of a block: which bytes occur, selectors, code tables, and the symbols themselves. */
module BlockBody {
  import opened MachineInts
  import opened BzConstants
  import opened SetSums
  import opened Words
  import opened BitStream
  import opened BitFields
  import opened CanonicalCode
  import opened MtfTheory
  import opened MtfEncode
  import opened MtfDecode
  import opened Selectors
  import opened TableChoice
  import opened CodingTables
  import opened TableFormat
  import opened MappingTable
  import opened BlockCodes

  /** Everything the coded form of a column depends on. */
  ghost predicate Plan(inUse: seq<bool>, last: seq<Byte>, lens: seq<seq<Byte>>, selector: seq<nat>) {
    && AllUsed(inUse, last) && 0 < |last| <= 900_000 && AllIn(Renumbered(inUse, last), Ident(Rank(inUse, 256)))
    && 1 <= Rank(inUse, 256) <= 256
    && Coding(lens, selector, Symbols(inUse, last), Rank(inUse, 256) + 2)
    && AllIn(selector, Ident(|lens|))
  }

  /** The move-to-front symbols of a column. */
  ghost function Symbols(inUse: seq<bool>, last: seq<Byte>): (r: seq<nat>)
    requires AllUsed(inUse, last) && AllIn(Renumbered(inUse, last), Ident(Rank(inUse, 256))) && 1 <= Rank(inUse, 256)
  {
    Encode(Ident(Rank(inUse, 256)), 0, Renumbered(inUse, last), Rank(inUse, 256) + 1)
  }

  lemma {:induction false} PlanParts(inUse: seq<bool>, last: seq<Byte>, lens: seq<seq<Byte>>, selector: seq<nat>)
    requires Plan(inUse, last, lens, selector)
    ensures |inUse| == 256 && AllUsed(inUse, last) && 0 < |last| <= 900_000 && 1 <= Rank(inUse, 256) <= 256
    ensures AllIn(Renumbered(inUse, last), Ident(Rank(inUse, 256)))
    ensures Coding(lens, selector, Symbols(inUse, last), Rank(inUse, 256) + 2) && AllIn(selector, Ident(|lens|))
    ensures 2 <= |lens| <= 6 && 0 < |selector| <= 18002
    ensures forall t :: 0 <= t < |lens| ==>
      |lens[t]| == Rank(inUse, 256) + 2 && LengthsIn(lens[t], 1, 17) && LengthsIn(lens[t], 1, 20)
  {
  }

  /** Six fields, one after the other. */
  ghost function Chain(a: seq<bool>, b: seq<bool>, c: seq<bool>, d: seq<bool>, e: seq<bool>, f: seq<bool>): seq<bool> {
    a + (b + (c + (d + (e + f))))
  }

  ghost function BodyBits(inUse: seq<bool>, last: seq<Byte>, lens: seq<seq<Byte>>, selector: seq<nat>): seq<bool>
    requires Plan(inUse, last, lens, selector)
  {
    Chain(MappingBits(inUse), ToBits(|lens|, 3), ToBits(|selector|, 15),
          Flat(Unaries(Ranks(Ident(|lens|), selector)), 0), Flat(TablePieces(lens, |lens|), 0),
          Flat(CodePieces(lens, selector, Symbols(inUse, last), Rank(inUse, 256) + 2), 0))
  }

  /** The bits that tell the tables apart: the places of the selectors, the lengths, and the symbols in their groups. */
  ghost function TableFields(lens: seq<seq<Byte>>, selector: seq<nat>, syms: seq<nat>, alphaSize: nat): (seq<bool>,
        seq<bool>, seq<bool>)
    requires AllIn(selector, Ident(|lens|)) && Coding(lens, selector, syms, alphaSize)
    requires forall t :: 0 <= t < |lens| ==> |lens[t]| > 0
  {
    (Flat(Unaries(Ranks(Ident(|lens|), selector)), 0), Flat(TablePieces(lens, |lens|), 0),
     Flat(CodePieces(lens, selector, syms, alphaSize), 0))
  }

  lemma {:induction false} FieldsAre(lens: seq<seq<Byte>>, selector: seq<nat>, syms: seq<nat>, alphaSize: nat)
    requires AllIn(selector, Ident(|lens|)) && Coding(lens, selector, syms, alphaSize)
    requires forall t :: 0 <= t < |lens| ==> |lens[t]| > 0
    ensures TableFields(lens, selector, syms, alphaSize) ==
      (Flat(Unaries(Ranks(Ident(|lens|), selector)), 0), Flat(TablePieces(lens, |lens|), 0),
       Flat(CodePieces(lens, selector, syms, alphaSize), 0))
  {
  }

  lemma {:induction false} BodyIs(inUse: seq<bool>, last: seq<Byte>, lens: seq<seq<Byte>>, selector: seq<nat>,
                                  syms: seq<nat>, alphaSize: nat)
    requires Plan(inUse, last, lens, selector)
    requires AllIn(selector, Ident(|lens|)) && Coding(lens, selector, syms, alphaSize)
    requires forall t :: 0 <= t < |lens| ==> |lens[t]| > 0
    requires |inUse| == 256 && AllUsed(inUse, last) && 1 <= Rank(inUse, 256)
    requires AllIn(Renumbered(inUse, last), Ident(Rank(inUse, 256)))
    requires syms == Symbols(inUse, last) && alphaSize == Rank(inUse, 256) + 2
    ensures var f := TableFields(lens, selector, syms, alphaSize);
      BodyBits(inUse, last, lens, selector) == Chain(MappingBits(inUse), ToBits(|lens|, 3), ToBits(|selector|, 15),
                                                     f.0, f.1, f.2)
  {
    hide Plan, AllUsed, Renumbered, AllIn, Coding, Chain, MappingBits, TablePieces, CodePieces, Ranks, Unaries, Ident,
      Flat, ToBits, Rank, Symbols, LengthsIn, Fits, Longest, TableBits, Marks, Pieces;
  }

  lemma PlacesSize(lens: seq<seq<Byte>>, selector: seq<nat>)
    requires AllIn(selector, Ident(|lens|))
    ensures |Ranks(Ident(|lens|), selector)| == |selector| == |Unaries(Ranks(Ident(|lens|), selector))|
  {
  }

  lemma FieldPowers()
    ensures Pow2(3) == 8 && Pow2(15) == 0x8000
  {
    assert Pow2(8) == 256;
  }

  /* ---- sending ---- */

  /** The tables in use, once fitted, and the chosen selectors make a plan. */
  lemma {:induction false} PlanMade(inUse: seq<bool>, last: seq<Byte>, rows: seq<seq<Byte>>, nGroups: nat,
                                    rfreq: seq<seq<nat>>, rounds: seq<nat>, selector: seq<nat>)
    requires AllUsed(inUse, last) && 0 < |last| <= 900_000 && AllIn(Renumbered(inUse, last), Ident(Rank(inUse, 256)))
    requires 1 <= Rank(inUse, 256) <= 256 && 2 <= nGroups <= 6 && Rows(rows, Rank(inUse, 256) + 2, 20)
    requires |rounds| == nGroups && AllFitted(rows, nGroups, rfreq, rounds)
    requires |selector| == GroupCount(|Symbols(inUse, last)|) <= 18002 && forall g :: 0 <= g < |selector| ==>
      selector[g] < nGroups
    requires EndMarked(Symbols(inUse, last), Rank(inUse, 256) + 1)
    ensures Plan(inUse, last, rows[..nGroups], selector)
    ensures forall t :: 0 <= t < nGroups ==> |rows[t]| > 0 && rows[t][0] < 32 && LengthsIn(rows[t], 1, 17)
  {
    var lens, n := rows[..nGroups], Rank(inUse, 256);
    forall t | 0 <= t < nGroups ensures |lens[t]| == n + 2 && LengthsIn(lens[t], 1, 17) && Fits(lens[t], 17) {
      FittedMeans(rows[t], rfreq[t], rounds[t]);
    }
    SelectorsListed(selector, nGroups);
    assert SymsBelow(Symbols(inUse, last), n + 2);
  }

  /** What has been sent so far, and what the column still needs, make up the goal. */
  method SendBody(w: BitWriter, inUse: array<bool>, nGroups: nat, nSelectors: nat, selector: array<Byte>,
                  selectorMtf: array<Byte>,
                  lens: seq<seq<Byte>>, codes: seq<seq<int>>, arr1: array<UInt32>, nMTF: nat, ghost last: seq<Byte>)
    requires w.Valid() && inUse.Length == 256 && nSelectors <= selector.Length && nSelectors <= selectorMtf.Length
    requires Plan(inUse[..], last, lens, selector[..nSelectors]) && |lens| == nGroups == |codes|
    requires selectorMtf[..nSelectors] == Ranks(Ident(nGroups), selector[..nSelectors])
    requires forall t :: 0 <= t < nGroups ==> |lens[t]| > 0 && lens[t][0] < 32 && CodesFor(lens[t], codes[t])
    requires nMTF <= 2 * arr1.Length && HalfView(arr1[..], nMTF) == Symbols(inUse[..], last)
    modifies w
    ensures w.Valid() && old(w.zbits) <= w.zbits
    ensures w.Bits() == old(w.Bits()) + BodyBits(inUse[..], last, lens, selector[..nSelectors])
  {
    hide *;
    ghost var u, sel := inUse[..], selector[..nSelectors];
    PlanParts(u, last, lens, sel);
    BodyIs(u, last, lens, sel, Symbols(u, last), Rank(u, 256) + 2);
    FieldsAre(lens, sel, Symbols(u, last), Rank(u, 256) + 2);
    PlacesSize(lens, sel);
    FieldPowers();
    ghost var syms, alphaSize := Symbols(u, last), Rank(u, 256) + 2;
    ghost var start := w.Bits();
    SendMapping(w, inUse);
    w.W(3, nGroups);
    w.W(15, nSelectors);
    SendSelectors(w, selectorMtf, nSelectors);
    SendTables(w, lens, nGroups);
    SendCodes(w, nGroups, codes, selector, nSelectors, arr1, nMTF, lens, syms, alphaSize);
    Nested(start, MappingBits(u), ToBits(nGroups, 3), ToBits(nSelectors, 15),
           Flat(Unaries(Ranks(Ident(|lens|), sel)), 0),
           Flat(TablePieces(lens, |lens|), 0), Flat(CodePieces(lens, sel, syms, alphaSize), 0));
  }

  lemma {:induction false} Nested(s: seq<bool>, a: seq<bool>, b: seq<bool>, c: seq<bool>, d: seq<bool>, e: seq<bool>,
                                  f: seq<bool>)
    ensures s + a + b + c + d + e + f == s + Chain(a, b, c, d, e, f)
  {
  }

  /** Chooses tables for the symbols in arr1 and sends everything the decoder needs. */
  method SendMtfValues(w: BitWriter, arr1: array<UInt32>, nMTF: nat, mtfFreq: array<nat>, inUse: array<bool>,
                       nInUse: nat, ghost last: seq<Byte>)
    returns (ghost lens: seq<seq<Byte>>, ghost sel: seq<nat>)
    requires w.Valid() && inUse.Length == 256 && mtfFreq.Length == 258 && nMTF <= 2 * arr1.Length
    requires AllUsed(inUse[..], last) && 0 < |last| <= 900_000 && nInUse == Rank(inUse[..], 256) && 1 <= nInUse <= 256
    requires AllIn(Renumbered(inUse[..], last), Ident(nInUse)) && HalfView(arr1[..], nMTF) == Symbols(inUse[..], last)
    requires nMTF <= |last| + 1 && Tallied(mtfFreq[..], HalfView(arr1[..], nMTF), nInUse + 1)
    modifies w
    ensures w.Valid() && old(w.zbits) <= w.zbits && Plan(inUse[..], last, lens, sel)
    ensures w.Bits() == old(w.Bits()) + BodyBits(inUse[..], last, lens, sel)
  {
    hide *;
    ghost var u := inUse[..];
    var alphaSize := nInUse + 2;
    ghost var syms := Symbols(u, last);
    SymbolsMarked(u, last);
    HalfSize(arr1[..], nMTF);
    var nGroups := TableCount(nMTF);
    var selector := new Byte[18002];
    var rows, nSelectors;
    ghost var prev, rfreq, rounds;
    rows, nSelectors, prev, rfreq, rounds := BuildTables(arr1, nMTF, mtfFreq, alphaSize, nGroups, selector, syms);
    sel := selector[..nSelectors];
    PlanMade(u, last, rows, nGroups, rfreq, rounds, sel);
    var selectorMtf := new Byte[18002];
    RankSelectors(selector, selectorMtf, nSelectors, nGroups);
    RowsParts(rows, alphaSize, 20, 0);
    var used := rows[..nGroups];
    lens := used;
    var codes := AssignTables(used);
    assert selector[..nSelectors] == sel;
    SendBody(w, inUse, nGroups, nSelectors, selector, selectorMtf, used, codes, arr1, nMTF, last);
  }

  lemma {:induction false} SymbolsMarked(inUse: seq<bool>, last: seq<Byte>)
    requires AllUsed(inUse, last) && AllIn(Renumbered(inUse, last), Ident(Rank(inUse, 256))) && 1 <= Rank(inUse, 256)
    ensures EndMarked(Symbols(inUse, last), Rank(inUse, 256) + 1)
    ensures SymsBelow(Symbols(inUse, last), Rank(inUse, 256) + 2) && |Symbols(inUse, last)| > 0
    ensures Symbols(inUse, last)[|Symbols(inUse, last)| - 1] == Rank(inUse, 256) + 1
  {
    SymbolsInRange(Ident(Rank(inUse, 256)), 0, Renumbered(inUse, last), Rank(inUse, 256) + 1);
  }

  /* ---- receiving ---- */

  lemma {:induction false} ChainTail(a: seq<bool>, b: seq<bool>, c: seq<bool>, d: seq<bool>, e: seq<bool>,
                                     f: seq<bool>, tail: seq<bool>)
    ensures Chain(a, b, c, d, e, f) + tail == a + (b + (c + (d + (e + (f + tail)))))
  {
  }

  /** The stream goes on with a column coded by this plan. */
  ghost predicate Sent(rest: seq<bool>, inUse: seq<bool>, last: seq<Byte>, lens: seq<seq<Byte>>, selector: seq<nat>,
                       tail: seq<bool>)
  {
    Plan(inUse, last, lens, selector) && rest == BodyBits(inUse, last, lens, selector) + tail
  }

  lemma {:induction false} SentParts(rest: seq<bool>, inUse: seq<bool>, last: seq<Byte>, lens: seq<seq<Byte>>,
                                     selector: seq<nat>, tail: seq<bool>)
    requires Sent(rest, inUse, last, lens, selector, tail)
    ensures Plan(inUse, last, lens, selector) && rest == BodyBits(inUse, last, lens, selector) + tail
  {
  }

  /** Zeros in the stream are all taken as selectors. */
  lemma {:induction false} ZerosTaken(m: nat, n: nat, k: nat)
    requires m > 0 && n <= k
    ensures |Places(seq(k, _ => false), m, n)| == n
    decreases n
  {
    hide *;
    var s := seq(k, _ => false);
    OnesIs(s, m);
    TakesIs(s, m);
    if n == 0 {
      PlacesNone(s, m, n);
    } else {
      PlacesNext(s, m, n);
      assert s[1..] == seq(k - 1, _ => false);
      ZerosTaken(m, n - 1, k - 1);
    }
  }

  /** Whatever the stream holds, the selectors stored stay within the arrays of the source exactly if no more than
      BZ_MAX_SELECTORS are announced; the source lets any positive 15-bit number pass. */
  lemma BoundedSelectors(nGroups: nat, n: nat)
    requires 2 <= nGroups <= 6 && 1 <= n < 0x8000
    ensures (forall rest: seq<bool> :: |Places(rest, nGroups, n)| <= BZ_MAX_SELECTORS) <==> n <= BZ_MAX_SELECTORS
  {
    ZerosTaken(nGroups, n, n);
  }

  /** A number that passes, and a stream on which the decoder takes all selectors and stores one too many. */
  lemma SelectorsBeyond(nGroups: nat)
    requires 2 <= nGroups <= 6
    ensures 1 <= 18003 < 0x8000 && |Places(seq(18003, _ => false), nGroups, 18003)| == 18003 == BZ_MAX_SELECTORS + 1
  {
    ZerosTaken(nGroups, 18003, 18003);
  }

  /** On a column that was sent, the decoder reads the number of tables and of selectors and then stores exactly the
      places of the selectors, within bounds. */
  lemma PlanInBounds(rest: seq<bool>, inUse: seq<bool>, last: seq<Byte>, lens: seq<seq<Byte>>, selector: seq<nat>,
                     tail: seq<bool>)
    returns (at: seq<bool>)
    requires Sent(rest, inUse, last, lens, selector, tail)
    ensures |inUse| == 256 && AllIn(selector, Ident(|lens|))
    ensures rest == MappingBits(inUse) + (ToBits(|lens|, 3) + (ToBits(|selector|, 15) + at))
    ensures Places(at, |lens|, |selector|) == Ranks(Ident(|lens|), selector)
    ensures |Places(at, |lens|, |selector|)| == |selector| <= BZ_MAX_SELECTORS
  {
    hide *;
    SentParts(rest, inUse, last, lens, selector, tail);
    PlanParts(inUse, last, lens, selector);
    GroupSizes();
    var syms, alphaSize := Symbols(inUse, last), Rank(inUse, 256) + 2;
    BodyIs(inUse, last, lens, selector, syms, alphaSize);
    FieldsAre(lens, selector, syms, alphaSize);
    var f := TableFields(lens, selector, syms, alphaSize);
    ChainTail(MappingBits(inUse), ToBits(|lens|, 3), ToBits(|selector|, 15), f.0, f.1, f.2, tail);
    at := f.0 + (f.1 + (f.2 + tail));
    PicksOfRanks(Ident(|lens|), selector);
    IdentSize(|lens|);
    PlacesSize(lens, selector);
    var js := Ranks(Ident(|lens|), selector);
    assert js[0..] == js;
    PlacesSent(js, 0, |lens|, f.1 + (f.2 + tail));
  }

  /** Reads the selectors of nGroups tables, with room for any number that the source lets pass. */
  method ReceiveSelectors(r: BitReader, nSelectors: nat, nGroups: nat, ghost sel: seq<nat>, ghost tail: seq<bool>)
    returns (o: Outcome<seq<nat>>)
    requires r.Valid() && 1 <= nGroups <= 6 && nSelectors <= 0x8000
    modifies r
    ensures r.Valid() && |r.Rest()| <= old(|r.Rest()|) && (o.Value? ==> forall g :: 0 <= g < |o.v| ==> o.v[g] < nGroups)
    ensures o.Value? <==> |Places(old(r.Rest()), nGroups, nSelectors)| == nSelectors
    ensures |sel| == nSelectors && AllIn(sel, Ident(nGroups)) &&
            old(r.Rest()) == Flat(Unaries(Ranks(Ident(nGroups), sel)), 0) + tail ==>
      o == Value(sel) && r.Rest() == tail
  {
    hide *;
    ghost var js: seq<nat> := [];
    ghost var good := |sel| ==
      nSelectors && AllIn(sel, Ident(nGroups)) && r.Rest() == Flat(Unaries(Ranks(Ident(nGroups), sel)), 0) + tail;
    if good {
      js := Ranks(Ident(nGroups), sel);
      PicksOfRanks(Ident(nGroups), sel);
      IdentSize(nGroups);
      PlacesSent(js, 0, nGroups, tail);
      assert js[0..] == js;
    }
    var selectorMtf := new Byte[0x8000];
    var selector := new Byte[0x8000];
    var s := ReadSelectors(r, selectorMtf, nSelectors, nGroups);
    if !s.Value? { return if s.NeedInput? then NeedInput else DataError; }
    PickSelectors(selectorMtf, selector, nSelectors, nGroups);
    PicksBelow(nGroups, selectorMtf[..nSelectors]);
    o := Value(selector[..nSelectors]);
  }

  lemma IdentSize(n: nat)
    ensures |Ident(n)| == n
  {
  }

  lemma PicksBelow(n: nat, js: seq<nat>)
    requires forall k :: 0 <= k < |js| ==> js[k] < n
    ensures |Ident(n)| == n && forall k :: 0 <= k < |js| ==> Picks(Ident(n), js)[k] < n
  {
    PicksIn(Ident(n), js);
    forall k | 0 <= k < |js| ensures Picks(Ident(n), js)[k] < n { assert Picks(Ident(n), js)[k] in Ident(n); }
  }

  lemma {:induction false} PicksIn(list: seq<nat>, js: seq<nat>)
    requires forall k :: 0 <= k < |js| ==> js[k] < |list|
    ensures forall k :: 0 <= k < |js| ==> Picks(list, js)[k] in list
    decreases |js|
  {
    if js != [] {
      FrontKeeps(list, js[0]);
      PicksIn(ToFront(list, js[0]), js[1..]);
    }
  }

  /** Reads which bytes occur and numbers them. */
  method ReceiveMapping(r: BitReader, seqToUnseq: array<Byte>, ghost u: seq<bool>, ghost tail: seq<bool>)
    returns (o: Outcome<nat>)
    requires r.Valid() && seqToUnseq.Length == 256
    modifies r, seqToUnseq
    ensures r.Valid() && |r.Rest()| <= old(|r.Rest()|) && (o.Value? ==> o.v <= 256)
    ensures |u| == 256 && old(r.Rest()) == MappingBits(u) + tail ==>
      o == Value(Rank(u, 256)) && MapsBack(u, seqToUnseq[..]) && r.Rest() == tail
  {
    hide *;
    ghost var good := |u| == 256 && r.Rest() == MappingBits(u) + tail;
    ghost var v := if good then u else seq(256, _ => false);
    var inUse := new bool[256];
    var m := ReadMapping(r, inUse, v, tail);
    if !m.Value? { return if m.NeedInput? then NeedInput else DataError; }
    RankBound(inUse[..]);
    var nInUse := MakeMapsBack(inUse, seqToUnseq);
    o := Value(nInUse);
  }

  lemma {:induction false} RankBound(u: seq<bool>)
    requires |u| == 256
    ensures Rank(u, 256) <= 256
  {
  }

  /** Reads the code tables and the symbols they code. */
  method ReceiveCodes(r: BitReader, selector: seq<nat>, nGroups: nat, alphaSize: nat, small: bool, tt: array<UInt32>,
                      ll16: array<UInt16>,
                      unzftab: array<int>, seqToUnseq: array<Byte>, nblockMAX: nat,
                      ghost lens: seq<seq<Byte>>, ghost syms: seq<nat>, ghost goal: seq<Byte>, ghost tail: seq<bool>)
    returns (o: Outcome<nat>, ghost out: seq<Byte>)
    requires r.Valid() && 2 <= nGroups <= 6 && 3 <= alphaSize <= 258 && forall g :: 0 <= g < |selector| ==>
      selector[g] < nGroups
    requires unzftab.Length == 256 && seqToUnseq.Length == 256
    requires if small then nblockMAX <= ll16.Length else nblockMAX <= tt.Length
    modifies r, tt, ll16, unzftab
    ensures r.Valid() && |r.Rest()| <= old(|r.Rest()|)
    ensures o.Value? ==> Collected(small, tt[..], ll16[..], unzftab[..], o.v, nblockMAX, out)
    ensures Coded(old(r.Rest()), lens, nGroups, selector, syms, alphaSize, tail)
      && Announced(seqToUnseq[..], syms, alphaSize, goal) && |goal| <= nblockMAX
      ==> o == Value(|goal|) && r.Rest() == tail && out == goal
  {
    hide *;
    ghost var back := seqToUnseq[..];
    ghost var good := Coded(r.Rest(), lens, nGroups, selector, syms, alphaSize, tail);
    ghost var l, more := seq(nGroups, _ => seq(alphaSize, _ => 1)), [];
    out := [];
    if good {
      CodedParts(r.Rest(), lens, nGroups, selector, syms, alphaSize, tail);
      l, more := lens, Flat(CodePieces(lens, selector, syms, alphaSize), 0) + tail;
    }
    var rows := ReadTables(r, nGroups, alphaSize, l, more);
    if !rows.Value? { return if rows.NeedInput? then NeedInput else DataError, out; }
    var tables := BuildDecodeTables(rows.v);
    var src := new SymbolSource(r, selector, tables, rows.v);
    o, out := ReadColumn(src, small, tt, ll16, unzftab, seqToUnseq, alphaSize, nblockMAX, syms, goal, tail);
    src.Facts();
  }

  /** Code tables and then symbols, as coded with them. */
  ghost predicate Coded(rest: seq<bool>, lens: seq<seq<Byte>>, nGroups: nat, selector: seq<nat>, syms: seq<nat>,
                        alphaSize: nat, tail: seq<bool>)
  {
    && |lens| == nGroups && (forall t :: 0 <= t < nGroups ==> |lens[t]| == alphaSize > 0 && LengthsIn(lens[t], 1, 20))
    && Coding(lens, selector, syms, alphaSize)
    && rest == Flat(TablePieces(lens, nGroups), 0) + (Flat(CodePieces(lens, selector, syms, alphaSize), 0) + tail)
  }

  lemma {:induction false} CodedParts(rest: seq<bool>, lens: seq<seq<Byte>>, nGroups: nat, selector: seq<nat>,
                                      syms: seq<nat>, alphaSize: nat, tail: seq<bool>)
    requires Coded(rest, lens, nGroups, selector, syms, alphaSize, tail)
    ensures |lens| == nGroups && (forall t :: 0 <= t < nGroups ==> |lens[t]| == alphaSize && LengthsIn(lens[t], 1, 20))
    ensures forall t :: 0 <= t < nGroups ==> |lens[t]| > 0
    ensures Coding(lens, selector, syms, alphaSize)
    ensures rest == Flat(TablePieces(lens, nGroups), 0) + (Flat(CodePieces(lens, selector, syms, alphaSize), 0) + tail)
  {
  }

  /** Reads the body of a block; if it was sent by a plan for a column, that column is what is read. */
  method ReceiveBody(r: BitReader, small: bool, tt: array<UInt32>, ll16: array<UInt16>, unzftab: array<int>,
                     nblockMAX: nat,
                     ghost u: seq<bool>, ghost last: seq<Byte>, ghost lens: seq<seq<Byte>>, ghost sel: seq<nat>,
                     ghost tail: seq<bool>)
    returns (o: Outcome<nat>, ghost out: seq<Byte>)
    requires r.Valid() && unzftab.Length == 256
    requires if small then nblockMAX <= ll16.Length else nblockMAX <= tt.Length
    modifies r, tt, ll16, unzftab
    ensures r.Valid() && |r.Rest()| <= old(|r.Rest()|)
    ensures o.Value? ==> Collected(small, tt[..], ll16[..], unzftab[..], o.v, nblockMAX, out)
    ensures Sent(old(r.Rest()), u, last, lens, sel, tail) && |last| <= nblockMAX ==>
      o == Value(|last|) && r.Rest() == tail && out == last
  {
    hide *;
    ghost var good := Sent(r.Rest(), u, last, lens, sel, tail) && |last| <= nblockMAX;
    ghost var b, c, d, e, f: seq<bool> := [], [], [], [], [];
    ghost var syms: seq<nat> := [];
    out := [];
    FieldPowers();
    if good {
      SentParts(r.Rest(), u, last, lens, sel, tail);
      PlanParts(u, last, lens, sel);
      BodyIs(u, last, lens, sel, Symbols(u, last), Rank(u, 256) + 2);
      FieldsAre(lens, sel, Symbols(u, last), Rank(u, 256) + 2);
      syms := Symbols(u, last);
      f := Flat(CodePieces(lens, sel, syms, Rank(u, 256) + 2), 0) + tail;
      e := Flat(TablePieces(lens, |lens|), 0) + f;
      d := Flat(Unaries(Ranks(Ident(|lens|), sel)), 0) + e;
      c := ToBits(|sel|, 15) + d;
      b := ToBits(|lens|, 3) + c;
      ChainTail(MappingBits(u), ToBits(|lens|, 3), ToBits(|sel|, 15), Flat(Unaries(Ranks(Ident(|lens|), sel)), 0),
                Flat(TablePieces(lens, |lens|), 0), Flat(CodePieces(lens, sel, syms, Rank(u, 256) + 2), 0), tail);
    }
    var seqToUnseq := new Byte[256];
    var m := ReceiveMapping(r, seqToUnseq, u, b);
    if !m.Value? { return m, out; }
    var nInUse := m.v;
    if nInUse == 0 { return DataError, out; }
    var alphaSize := nInUse + 2;
    ghost var all := r.Rest();
    var groups := ReadField(r, 3);
    if good { FieldRead(groups, 3, all, r.Rest(), |lens|, c); }
    if groups.NeedInput? { return NeedInput, out; }
    var nGroups := groups.v;
    if nGroups < 2 || nGroups > 6 { return DataError, out; }
    all := r.Rest();
    var count := ReadField(r, 15);
    if good { FieldRead(count, 15, all, r.Rest(), |sel|, d); }
    if count.NeedInput? { return NeedInput, out; }
    var nSelectors := count.v;
    if nSelectors < 1 { return DataError, out; }
    var s := ReceiveSelectors(r, nSelectors, nGroups, sel, e);
    if !s.Value? { return if s.NeedInput? then NeedInput else DataError, out; }
    if good {
      PlanDecodes(u, last, lens, sel, seqToUnseq[..]);
      CodedFrom(r.Rest(), u, last, lens, sel, tail);
    }
    o, out := ReceiveCodes(r, s.v, nGroups, alphaSize, small, tt, ll16, unzftab, seqToUnseq, nblockMAX, lens, syms,
                           last, tail);
  }

  lemma {:induction false} PlanDecodes(u: seq<bool>, last: seq<Byte>, lens: seq<seq<Byte>>, sel: seq<nat>,
                                       back: seq<Byte>)
    requires Plan(u, last, lens, sel) && |u| == 256 && MapsBack(u, back)
    requires AllUsed(u, last) && AllIn(Renumbered(u, last), Ident(Rank(u, 256))) && 1 <= Rank(u, 256)
    ensures Announced(back, Symbols(u, last), Rank(u, 256) + 2, last)
  {
    SymbolsMarked(u, last);
    DecodesToColumn(u, back, last);
  }

  lemma {:induction false} CodedFrom(rest: seq<bool>, u: seq<bool>, last: seq<Byte>, lens: seq<seq<Byte>>,
                                     sel: seq<nat>, tail: seq<bool>)
    requires Plan(u, last, lens, sel) && |u| == 256
    requires AllUsed(u, last) && AllIn(Renumbered(u, last), Ident(Rank(u, 256))) && 1 <= Rank(u, 256)
    requires (forall t :: 0 <= t < |lens| ==> |lens[t]| > 0) && Coding(lens, sel, Symbols(u, last), Rank(u, 256) + 2)
    requires rest ==
      Flat(TablePieces(lens, |lens|), 0) + (Flat(CodePieces(lens, sel, Symbols(u, last), Rank(u, 256) + 2), 0) + tail)
    ensures Coded(rest, lens, |lens|, sel, Symbols(u, last), Rank(u, 256) + 2, tail)
  {
    hide *;
    PlanParts(u, last, lens, sel);
    CodedIs(rest, lens, |lens|, sel, Symbols(u, last), Rank(u, 256) + 2, tail);
  }

  lemma {:induction false} CodedIs(rest: seq<bool>, lens: seq<seq<Byte>>, nGroups: nat, selector: seq<nat>,
                                   syms: seq<nat>, alphaSize: nat, tail: seq<bool>)
    requires |lens| == nGroups
    requires (forall t :: 0 <= t < nGroups ==> |lens[t]| == alphaSize > 0 && LengthsIn(lens[t], 1, 20))
    requires Coding(lens, selector, syms, alphaSize)
    requires rest == Flat(TablePieces(lens, nGroups), 0) + (Flat(CodePieces(lens, selector, syms, alphaSize), 0) + tail)
    ensures Coded(rest, lens, nGroups, selector, syms, alphaSize, tail)
  {
  }
}
