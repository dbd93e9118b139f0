/** How tokens follow each other in a compressed block (section 3.2.5 of RFC 1951). */
module DeflateTokens {
  import opened Arithmetic
  import opened MachineInts
  import opened SetSums
  import opened DeflateCodes
  import opened TableLayout
  import opened InflateTable
  import opened InflateBits
  import opened Lz77

  /** A literal, a length and distance with their extra bits, or the end of the block. */
  datatype Coded = Byte0(c: Byte) | Pair(lsym: nat, lextra: nat, dsym: nat, dextra: nat) | End

  /** What is left of h after n bits. */
  ghost function After(h: nat, n: nat): nat {
    Quotient(h, Pow2(n))
  }

  lemma AfterIs(h: nat, n: nat)
    ensures Pow2(n) > 0 && After(h, n) == h / Pow2(n)
  {
  }

  ghost predicate PairOk(x: Coded) {
    x.Pair? && 257 <= x.lsym <= 285 && x.dsym < 30
  }

  function LengthExtra(sym: nat): nat
    requires 257 <= sym <= 285
  {
    LEXT[sym - 257] - 16
  }

  function DistExtra(sym: nat): nat
    requires sym < 30
  {
    DEXT[sym] - 16
  }

  ghost function LengthOf(x: Coded): nat
    requires PairOk(x)
  {
    LBASE[x.lsym - 257] + x.lextra
  }

  ghost function DistanceOf(x: Coded): nat
    requires PairOk(x)
  {
    DBASE[x.dsym] + x.dextra
  }

  /** The bits in h where the distance of a pair begins. */
  ghost function AtDistance(lens: seq<nat>, x: Coded, h: nat): nat
    requires PairOk(x) && x.lsym < |lens|
  {
    After(After(h, lens[x.lsym]), LengthExtra(x.lsym))
  }

  /** The bits h begin with x: the code of its symbol, the extra bits, and likewise for the distance. */
  ghost predicate Begins(lens: seq<nat>, dists: seq<nat>, x: Coded, h: nat) {
    match x
    case Byte0(c) => Leads(lens, c, h)
    case End => Leads(lens, 256, h)
    case Pair(lsym, lextra, dsym, dextra) =>
      && PairOk(x) && Leads(lens, lsym, h) && ExtraIs(After(h, lens[lsym]), LengthExtra(lsym), lextra)
      && var g := AtDistance(lens, x, h);
         Leads(dists, dsym, g) && ExtraIs(After(g, dists[dsym]), DistExtra(dsym), dextra)
  }

  ghost predicate ExtraIs(h: nat, n: nat, v: nat) {
    h % Pow2(n) == v
  }

  /** What follows x in h. */
  ghost function Beyond(lens: seq<nat>, dists: seq<nat>, x: Coded, h: nat): nat
    requires Begins(lens, dists, x, h)
  {
    match x
    case Byte0(c) => After(h, lens[c])
    case End => After(h, lens[256])
    case Pair(lsym, lextra, dsym, dextra) =>
      After(After(AtDistance(lens, x, h), dists[dsym]), DistExtra(dsym))
  }

  /** How many bits x takes. */
  ghost function Size(lens: seq<nat>, dists: seq<nat>, x: Coded, h: nat): nat
    requires Begins(lens, dists, x, h)
  {
    match x
    case Byte0(c) => lens[c]
    case End => lens[256]
    case Pair(lsym, lextra, dsym, dextra) => lens[lsym] + LengthExtra(lsym) + dists[dsym] + DistExtra(dsym)
  }

  /** The token x stands for. */
  ghost function TokenOf(x: Coded): Token
    requires x.Byte0? || PairOk(x)
  {
    match x
    case Byte0(c) => Literal(c)
    case Pair(lsym, lextra, dsym, dextra) => Match(DistanceOf(x), LengthOf(x))
  }

  /* ---- what an entry tells ---- */

  lemma EntryKinds(s: nat, b: Byte)
    requires s < 288
    ensures var e := SymbolEntry(LENS, s, b);
            && (s < 256 ==> e.op == 0 && e.val == s)
            && (s == 256 ==> e.op == 96)
            && (257 <= s <= 285 ==> e.op == 16 + LengthExtra(s) <= 21 && e.val == LBASE[s - 257])
            && (257 <= s <= 285 ==> 3 <= e.val && e.val + Pow2(LengthExtra(s)) <= 259)
            && (s > 285 ==> e.op == 72 || e.op == 78)
  {
  }

  lemma DistKinds(s: nat, b: Byte)
    requires s < 32
    ensures var e := SymbolEntry(DISTS, s, b);
            && (s < 30 ==> e.op == 16 + DistExtra(s) <= 29 && e.val == DBASE[s] && e.val >= 1)
            && (s >= 30 ==> e.op == 64)
  {
  }

  lemma OpBits(op: Byte)
    ensures op < 32 ==> op / 32 % 2 == 0 && op / 64 % 2 == 0
    ensures 16 <= op < 32 ==> op % 16 == op - 16
    ensures op == 96 ==> op / 32 % 2 == 1
    ensures op == 64 || op == 72 || op == 78 ==> op / 32 % 2 == 0 && op / 64 % 2 == 1
  {
  }

  /** Whatever entry is found for a length code, its kind shows in its op. */
  lemma LensEntry(t: seq<Code>, root: nat, lens: seq<nat>, h: nat, e: Code, n: nat)
    requires TablesFor(t, root, lens, LENS) && Finds(t, root, h, e, n)
    ensures e.op == 0 || e.op == 96 || e.op == 64 || e.op == 72 || e.op == 78 || 16 <= e.op <= 21
    ensures e.op == 0 ==> e.val < 256
    ensures 16 <= e.op <= 21 ==> 3 <= e.val && e.val + Pow2(e.op - 16) <= 259
  {
    var s, f := EntryOf(t, root, lens, LENS, h, e, n);
    if !f { EntryKinds(s, e.bits); }
  }

  lemma DistEntryFound(t: seq<Code>, root: nat, lens: seq<nat>, h: nat, e: Code, n: nat)
    requires TablesFor(t, root, lens, DISTS) && Finds(t, root, h, e, n)
    ensures e.op == 64 || 16 <= e.op <= 29
    ensures 16 <= e.op <= 29 ==> e.val >= 1
  {
    var s, f := EntryOf(t, root, lens, DISTS, h, e, n);
    if !f { DistKinds(s, e.bits); }
  }

  /** The symbol whose entry was found, if any. */
  lemma EntryOf(t: seq<Code>, root: nat, lens: seq<nat>, ct: CodeType, h: nat, e: Code, n: nat)
    returns (s: nat, none: bool)
    requires TablesFor(t, root, lens, ct) && Finds(t, root, h, e, n)
    ensures if none then e == InvalidEntry() else s < Alphabet(ct) && e == SymbolEntry(ct, s, e.bits)
  {
    if NoneLeads(lens, h) {
      s, none := 0, true;
      FindsOnce(t, root, h, e, n, InvalidEntry(), 1);
    } else {
      s :| Leads(lens, s, h);
      none := false;
      TablesGive(t, root, lens, ct, s, h);
      FindsOnce(t, root, h, e, n, SymbolEntry(ct, s, LastBits(lens[s], root)), lens[s]);
    }
  }

  /** The entry found is that of the symbol the bits begin with. */
  lemma EntryIs(t: seq<Code>, root: nat, lens: seq<nat>, ct: CodeType, s: nat, h: nat, e: Code, n: nat)
    requires TablesFor(t, root, lens, ct) && Leads(lens, s, h) && Finds(t, root, h, e, n)
    ensures s < |lens| <= Alphabet(ct) && n == lens[s] && e == SymbolEntry(ct, s, e.bits)
  {
    TablesGive(t, root, lens, ct, s, h);
    FindsOnce(t, root, h, e, n, SymbolEntry(ct, s, LastBits(lens[s], root)), lens[s]);
  }

  /* ---- every token can be coded ---- */

  lemma ExtraPowers()
    ensures Pow2(0) == 1 && Pow2(1) == 2 && Pow2(2) == 4 && Pow2(3) == 8 && Pow2(4) == 16 && Pow2(5) == 32
    ensures Pow2(6) == 64 && Pow2(7) == 128 && Pow2(8) == 256 && Pow2(9) == 512 && Pow2(10) == 1024
    ensures Pow2(11) == 2048 && Pow2(12) == 4096 && Pow2(13) == 8192
  {
  }

  /** The ranges of lengths follow each other without a gap. */
  lemma LengthRange(k: nat)
    requires k < 27
    ensures |LBASE| == 31 && LBASE[k + 1] == LBASE[k] + Pow2(LengthExtra(k + 257))
  {
    ExtraPowers();
    hide Pow2;
  }

  lemma LengthEnds()
    ensures |LBASE| == 31 && LBASE[0] == 3 && LBASE[27] + Pow2(LengthExtra(284)) == 259
  {
    ExtraPowers();
    hide Pow2;
  }

  /** And so do the ranges of distances. */
  lemma DistRange(k: nat)
    requires k < 29
    ensures |DBASE| == 32 && DBASE[k + 1] == DBASE[k] + Pow2(DistExtra(k))
  {
    ExtraPowers();
    hide Pow2;
  }

  lemma DistEnds()
    ensures |DBASE| == 32 && DBASE[0] == 1 && DBASE[29] + Pow2(DistExtra(29)) == 32769
  {
    ExtraPowers();
    hide Pow2;
  }

  lemma {:induction false} LengthSymbol(length: nat, k: nat) returns (sym: nat, extra: nat)
    requires k <= 27 && |LBASE| == 31 && 3 <= length < LBASE[k] + Pow2(LengthExtra(k + 257))
    ensures 257 <= sym <= 284 && length == LBASE[sym - 257] + extra && extra < Pow2(LengthExtra(sym))
  {
    hide *;
    LengthEnds();
    if LBASE[k] <= length {
      sym, extra := k + 257, length - LBASE[k];
    } else {
      LengthRange(k - 1);
      sym, extra := LengthSymbol(length, k - 1);
    }
  }

  lemma {:induction false} DistSymbol(distance: nat, k: nat) returns (sym: nat, extra: nat)
    requires k < 30 && |DBASE| == 32 && 1 <= distance < DBASE[k] + Pow2(DistExtra(k))
    ensures sym < 30 && distance == DBASE[sym] + extra && extra < Pow2(DistExtra(sym))
  {
    hide *;
    DistEnds();
    if DBASE[k] <= distance {
      sym, extra := k, distance - DBASE[k];
    } else {
      DistRange(k - 1);
      sym, extra := DistSymbol(distance, k - 1);
    }
  }

  lemma PairToken(lsym: nat, lextra: nat, dsym: nat, dextra: nat)
    requires 257 <= lsym <= 284 && dsym < 30
    ensures |LBASE| == 31 && |DBASE| == 32 && PairOk(Pair(lsym, lextra, dsym, dextra))
    ensures TokenOf(Pair(lsym, lextra, dsym, dextra)) == Match(DBASE[dsym] + dextra, LBASE[lsym - 257] + lextra)
  {
  }

  lemma SoundParts(t: Token)
    requires Sound(t, 32768)
    ensures t.Match? ==> 1 <= t.distance <= 32768 && 3 <= t.length <= 258
    ensures t.Literal? ==> TokenOf(Byte0(t.c)) == t
  {
  }

  /** Every literal and every match of 3 to 258 bytes, up to 32768 back, has a coded form. */
  lemma TokenCoded(t: Token) returns (x: Coded)
    requires Sound(t, 32768)
    ensures (x.Byte0? || PairOk(x)) && TokenOf(x) == t
    ensures x.Pair? ==> 257 <= x.lsym <= 285 && x.dsym < 30
    ensures x.Pair? ==> x.lextra < Pow2(LengthExtra(x.lsym)) && x.dextra < Pow2(DistExtra(x.dsym))
  {
    hide *;
    SoundParts(t);
    LengthEnds();
    DistEnds();
    match t
    case Literal(c) => x := Byte0(c);
    case Match(distance, length) =>
      var ls, lx := LengthSymbol(length, 27);
      var ds, dx := DistSymbol(distance, 29);
      PairToken(ls, lx, ds, dx);
      x := Pair(ls, lx, ds, dx);
  }
}
