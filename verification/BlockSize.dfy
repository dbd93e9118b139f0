/** How many bits a block can take at most. */
module BlockSize {
  import opened MachineInts
  import opened BitStream
  import opened BitFields
  import opened CanonicalCode
  import opened Selectors
  import opened MtfEncode
  import opened MtfTheory
  import opened TableFormat
  import opened MappingTable
  import opened BlockCodes
  import opened BlockBody
  import opened BlockCrc
  import opened BlockEncoder
  import opened RunLength
  import opened StreamFormat

  ghost predicate EachAtMost(ps: seq<seq<bool>>, m: nat) {
    forall k :: 0 <= k < |ps| ==> |ps[k]| <= m
  }

  lemma {:induction false} FlatSize(ps: seq<seq<bool>>, m: nat, i: nat)
    requires EachAtMost(ps, m) && i <= |ps|
    ensures |Flat(ps, i)| <= m * (|ps| - i)
    decreases |ps| - i
  {
    if i < |ps| {
      FlatSize(ps, m, i + 1);
      OneLess(m, |ps| - i);
    }
  }

  lemma OneLess(m: nat, k: int)
    ensures m * k == m * (k - 1) + m
  {
  }

  lemma {:induction false} UnarySize(j: nat)
    ensures |Unary(j)| == j + 1
  {
    if j > 0 { UnarySize(j - 1); }
  }

  lemma {:induction false} StepsSize(curr: nat, l: nat)
    ensures |Steps(curr, l)| == 2 * (if curr < l then l - curr else curr - l) + 1
    decreases if curr < l then l - curr else curr - l
  {
    if curr < l {
      StepsSize(curr + 1, l);
    } else if curr > l {
      StepsSize(curr - 1, l);
    }
  }

  /** The zeros before a symbol and its place come to no more symbols than bytes. */
  lemma {:induction false} EncodeSize(list: seq<nat>, z: nat, ll: seq<nat>, eob: nat)
    requires |list| > 0 && AllIn(ll, list)
    ensures |Encode(list, z, ll, eob)| <= z + |ll| + 1
    decreases |ll|
  {
    if ll != [] {
      if ll[0] == list[0] {
        EncodeSize(list, z + 1, ll[1..], eob);
      } else {
        var j := IndexOf(list, ll[0]);
        FrontKeeps(list, j);
        EncodeSize(ToFront(list, j), 0, ll[1..], eob);
      }
    }
  }

  lemma MappingSize(u: seq<bool>)
    requires |u| == 256
    ensures |MappingBits(u)| <= 272
  {
    FlatSize(Pieces(u), 16, 0);
  }

  lemma TableSize(len: seq<Byte>)
    requires 0 < |len| <= 258 && LengthsIn(len, 1, 17)
    ensures |TableBits(len)| <= 8519
  {
    forall k | 0 <= k < |len|
      ensures |Deltas(len)[k]| <= 33
    {
      StepsSize(Before(len, k), len[k]);
    }
    FlatSize(Deltas(len), 33, 0);
  }

  lemma TablesSize(lens: seq<seq<Byte>>)
    requires |lens| <= 6 && forall t :: 0 <= t < |lens| ==> 0 < |lens[t]| <= 258 && LengthsIn(lens[t], 1, 17)
    ensures |Flat(TablePieces(lens, |lens|), 0)| <= 51114
  {
    forall t | 0 <= t < |lens|
      ensures |TablePieces(lens, |lens|)[t]| <= 8519
    {
      TableSize(lens[t]);
    }
    FlatSize(TablePieces(lens, |lens|), 8519, 0);
  }

  lemma SelectorsSize(list: seq<nat>, selector: seq<nat>)
    requires AllIn(selector, list) && |list| <= 6
    requires forall k :: 0 <= k < |selector| ==> Ranks(list, selector)[k] < |list|
    ensures |Flat(Unaries(Ranks(list, selector)), 0)| <= 6 * |selector|
  {
    var js := Ranks(list, selector);
    forall k | 0 <= k < |js|
      ensures |Unaries(js)[k]| <= 6
    {
      UnarySize(js[k]);
    }
    FlatSize(Unaries(js), 6, 0);
  }

  lemma CodesSize(lens: seq<seq<Byte>>, selector: seq<nat>, syms: seq<nat>, alphaSize: nat)
    requires Coding(lens, selector, syms, alphaSize)
    ensures |Flat(CodePieces(lens, selector, syms, alphaSize), 0)| <= 17 * |syms|
  {
    var ps := CodePieces(lens, selector, syms, alphaSize);
    forall k | 0 <= k < |ps|
      ensures |ps[k]| <= 17
    {
      CodePieceAt(lens, selector, syms, alphaSize, k);
      CodingAt(lens, selector, syms, alphaSize, k);
    }
    FlatSize(ps, 17, 0);
  }

  lemma SymbolsSize(inUse: seq<bool>, last: seq<Byte>)
    requires AllUsed(inUse, last) && AllIn(Renumbered(inUse, last), Ident(Rank(inUse, 256))) && 1 <= Rank(inUse, 256)
    ensures |Symbols(inUse, last)| <= |last| + 1
  {
    EncodeSize(Ident(Rank(inUse, 256)), 0, Renumbered(inUse, last), Rank(inUse, 256) + 1);
  }

  lemma IdentSizes(n: nat)
    ensures |Ident(n)| == n
  {
  }

  lemma ChainSize(a: seq<bool>, b: seq<bool>, c: seq<bool>, d: seq<bool>, e: seq<bool>, f: seq<bool>)
    ensures |Chain(a, b, c, d, e, f)| == |a| + |b| + |c| + |d| + |e| + |f|
  {
  }

  /** The three fields whose size depends on the block. */
  lemma FieldsSize(inUse: seq<bool>, last: seq<Byte>, lens: seq<seq<Byte>>, selector: seq<nat>)
    requires Plan(inUse, last, lens, selector)
    ensures |BodyBits(inUse, last, lens, selector)| <= 51428 + 18 * |last|
  {
    hide *;
    PlanParts(inUse, last, lens, selector);
    var syms, alphaSize := Symbols(inUse, last), Rank(inUse, 256) + 2;
    BodyIs(inUse, last, lens, selector, syms, alphaSize);
    FieldsAre(lens, selector, syms, alphaSize);
    var f := TableFields(lens, selector, syms, alphaSize);
    SymbolsSize(inUse, last);
    MappingSize(inUse);
    TablesSize(lens);
    IdentSizes(|lens|);
    PicksOfRanks(Ident(|lens|), selector);
    SelectorsSize(Ident(|lens|), selector);
    CodesSize(lens, selector, syms, alphaSize);
    CodePiecesSize(lens, selector, syms, alphaSize);
    ChainSize(MappingBits(inUse), ToBits(|lens|, 3), ToBits(|selector|, 15), f.0, f.1, f.2);
  }

  /** The bits that hold a block of b bytes. */
  lemma HoldsSize(bits: seq<bool>, b: seq<Byte>, crc: nat)
    requires HoldsBlock(bits, b, crc)
    ensures |bits| <= 51540 + 18 * |b|
  {
    var c: BlockCode :| CodesBlock(c, b) && bits == BytesToBits(BLOCK_MAGIC) + BlockBits(c, crc);
    hide *;
    CodesParts(c, b);
    BlockBitsIs(c, crc);
    MagicBytes();
    FieldsSize(c.inUse, c.last, c.lens, c.selector);
  }

  /** The bits of a block fit the area behind it, in an array of 4 * (n + 34) bytes that begins with the block; so do
      the header of the stream before them, the trailer and its padding after them, and the bits a writer holds back. */
  lemma FitsBehind(bits: seq<bool>, b: seq<Byte>, crc: nat, level: nat)
    requires HoldsBlock(bits, b, crc) && 1 <= level <= 9 && |b| <= 100000 * level - 10
    ensures 32 + |bits| + 80 + 7 + 32 <= 8 * (4 * (100000 * level + 34) - |b|)
  {
    hide *;
    HoldsSize(bits, b, crc);
  }

  lemma MagicBytes()
    ensures |BLOCK_MAGIC| == 6
  {
  }

  /* ---- all blocks of a stream ---- */

  /** The bytes of the blocks, as they are stored. */
  ghost function Stored(rss: seq<seq<Pair>>): nat {
    if rss == [] then 0
    else Stored(rss[..|rss| - 1]) + (if Separated(rss[|rss| - 1]) then |Pack(rss[|rss| - 1])| else 0)
  }

  lemma StoredPush(rss: seq<seq<Pair>>, rs: seq<Pair>)
    requires Separated(rs)
    ensures Stored(rss + [rs]) == Stored(rss) + |Pack(rs)| && Stored([]) == 0
  {
    assert (rss + [rs])[..|rss|] == rss;
  }

  /** Storing runs takes at most a quarter more. */
  lemma {:induction false} PackSize(rs: seq<Pair>)
    requires Separated(rs)
    ensures 4 * |Pack(rs)| <= 5 * |Expand(rs)|
  {
    if rs != [] { PackSize(rs[1..]); }
  }

  lemma {:induction false} StoredSize(rss: seq<seq<Pair>>, pieces: seq<seq<bool>>, level: nat)
    requires HoldsAll(pieces, rss, level)
    ensures 4 * Stored(rss) <= 5 * |Content(rss)|
    ensures |Flat(pieces, 0)| <= 51540 * |rss| + 18 * Stored(rss)
    decreases |rss|
  {
    hide *;
    HoldsPieces(pieces, rss, level);
    if rss == [] {
      FlatEnd(pieces);
      StoredNone();
    } else {
      var k := |rss| - 1;
      var piece, rs := pieces[k], rss[k];
      assert pieces == pieces[..k] + [piece] && rss == rss[..k] + [rs];
      StoredSize(rss[..k], pieces[..k], level);
      HoldsRunsParts(piece, rs, level);
      HoldsSize(piece, Pack(rs), FinalCrc(CrcOf(Expand(rs))) as nat);
      PackSize(rs);
      StoredPush(rss[..k], rs);
      ContentPush(rss[..k], rs);
      FlatPush(pieces[..k], piece, 0);
    }
  }

  lemma StoredNone()
    ensures Stored([]) == 0
  {
  }

  lemma HoldsPieces(pieces: seq<seq<bool>>, rss: seq<seq<Pair>>, level: nat)
    requires HoldsAll(pieces, rss, level)
    ensures |pieces| == |rss|
    ensures |rss| > 0 ==> HoldsRuns(pieces[|rss| - 1], rss[|rss| - 1], level)
                          && HoldsAll(pieces[..|rss| - 1], rss[..|rss| - 1], level)
  {
    hide HoldsRuns;
  }

  lemma HoldsRunsParts(bits: seq<bool>, rs: seq<Pair>, level: nat)
    requires HoldsRuns(bits, rs, level)
    ensures Separated(rs) && 0 < |Pack(rs)| <= 100_000 * level
    ensures HoldsBlock(bits, Pack(rs), FinalCrc(CrcOf(Expand(rs))) as nat)
  {
  }

  /** All blocks but a few are full. */
  ghost predicate MostlyFull(rss: seq<seq<Pair>>, short: nat, full: nat) {
    full * (|rss| - short) <= Stored(rss)
  }

  lemma FullPush(rss: seq<seq<Pair>>, rs: seq<Pair>, short: nat, full: nat)
    requires MostlyFull(rss, short, full) && Separated(rs)
    ensures |Pack(rs)| >= full ==> MostlyFull(rss + [rs], short, full)
    ensures MostlyFull(rss + [rs], short + 1, full)
  {
    StoredPush(rss, rs);
    OneLess(full, |rss| - short + 1);
  }

  lemma FullNone(full: nat)
    ensures MostlyFull([], 0, full)
  {
  }

  /** With all blocks but one full, the bytes handed over are at most three times the content and 6460. */
  lemma SizeBound(rss: seq<seq<Pair>>, pieces: seq<seq<bool>>, level: nat, short: nat, full: nat, n: nat, bits: nat)
    requires HoldsAll(pieces, rss, level) && MostlyFull(rss, short, full) && short <= 1 && full >= 99_000
    requires |Content(rss)| <= n && bits <= 119 + |Flat(pieces, 0)|
    ensures bits < 8 * (3 * n + 6460)
  {
    hide *;
    StoredSize(rss, pieces, level);
    MostlyFullIs(rss, short, full);
    FullBlocks(full, |rss| - short);
  }

  lemma MostlyFullIs(rss: seq<seq<Pair>>, short: nat, full: nat)
    requires MostlyFull(rss, short, full)
    ensures full * (|rss| - short) <= Stored(rss)
  {
  }

  lemma FullBlocks(full: nat, k: int)
    requires full >= 99_000
    ensures k >= 0 ==> full * k >= 99_000 * k
  {
    if k >= 0 { assert (full - 99_000) * k >= 0; }
  }
}
