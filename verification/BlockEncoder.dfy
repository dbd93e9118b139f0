/** One block, sorted, coded and sent; and the same block received again. */
module BlockEncoder {
  import opened MachineInts
  import opened Permutations
  import opened Rotations
  import opened Words
  import opened BitTables
  import opened Bwt
  import opened MtfTheory
  import opened MtfEncode
  import opened BitStream
  import opened BitFields
  import opened BlockHeader
  import opened BlockBody
  import opened BlockSource
  import opened SortArea
  import FallbackSort
  import MainSort

  /** Finds the row that holds the block itself. */
  method FindOrigPtr(ptr: array<UInt32>, nblock: nat) returns (origPtr: nat)
    requires 0 < nblock <= ptr.Length && IsPermutation(ptr[..nblock], nblock)
    ensures origPtr < nblock && ptr[origPtr] == 0
  {
    ghost var p := ptr[..nblock];
    ghost var z := Find(p, nblock, 0);
    assert ptr[z] == p[z];
    var found := -1;
    for i := 0 to nblock
      invariant found == -1 && forall k :: 0 <= k < i ==> ptr[k] != 0
    {
      if ptr[i] == 0 {
        found := i;
        break;
      }
    }
    origPtr := found;
  }

  /** How much work the main sort may spend on a block. */
  function BudgetFor(nblock: nat, workFactor: int): (r: nat) {
    var wfact := if workFactor < 1 then 1 else if workFactor > 100 then 100 else workFactor;
    nblock * ((wfact - 1) / 3)
  }

  /** Sorts the rotations of the block held in arr2 and finds where the block itself ended up: short blocks by the
      fallback sort, others by the main sort unless that gives up. The source keeps its table in ftab, too. */
  method BlockSort(arr1: array<UInt32>, arr2: array<UInt32>, ftab: array<Word>, nblock: nat, workFactor: int)
    returns (origPtr: nat)
    requires arr1 != arr2 && 0 < nblock <= 900_000 && nblock <= arr1.Length && nblock + 34 <= arr2.Length
    requires ftab.Length == 65537
    modifies arr1, arr2, ftab
    ensures SortedRotations(old(ByteView(arr2[..], nblock)), arr1[..nblock])
    ensures ByteView(arr2[..], nblock) == old(ByteView(arr2[..], nblock))
    ensures origPtr < nblock && arr1[origPtr] == 0
  {
    hide *;
    ghost var b := ByteView(arr2[..], nblock);
    ViewSize(arr2[..], nblock);
    if nblock < 10000 {
      FallbackSort.Sort(arr1, arr2, ftab, nblock);
    } else {
      AreaEnough(arr2[..], nblock);
      var pairTable := new UInt32[65537];
      var budget := MainSort.Sort(arr1, arr2, pairTable, nblock, BudgetFor(nblock, workFactor), b);
      if budget < 0 {
        FallbackSort.Sort(arr1, arr2, ftab, nblock);
      }
    }
    SortedPermutes(b, arr1[..nblock]);
    origPtr := FindOrigPtr(arr1, nblock);
  }

  lemma SortedPermutes(b: seq<Byte>, ptr: seq<nat>)
    requires SortedRotations(b, ptr)
    ensures IsPermutation(ptr, |b|)
  {
  }

  /* ---- the coded form of a block ---- */

  const BLOCK_MAGIC: seq<Byte> := [0x31, 0x41, 0x59, 0x26, 0x53, 0x59]

  /** The choices that the coded form of a block records. */
  datatype BlockCode = BlockCode(inUse: seq<bool>, last: seq<Byte>, lens: seq<seq<Byte>>, selector: seq<nat>,
                                 origPtr: nat)

  /** c codes the block b. */
  ghost predicate CodesBlock(c: BlockCode, b: seq<Byte>) {
    && Plan(c.inUse, c.last, c.lens, c.selector) && Transforms(b, c.last, c.origPtr)
    && |b| == |c.last| && c.origPtr < 0x100_0000
  }

  ghost function BlockBits(c: BlockCode, crc: nat): seq<bool>
    requires Plan(c.inUse, c.last, c.lens, c.selector)
  {
    ToBits(crc, 32) + ([false] + (ToBits(c.origPtr, 24) + BodyBits(c.inUse, c.last, c.lens, c.selector)))
  }

  lemma CodesParts(c: BlockCode, b: seq<Byte>)
    requires CodesBlock(c, b)
    ensures Plan(c.inUse, c.last, c.lens, c.selector) && Transforms(b, c.last, c.origPtr) && |b| == |c.last|
    ensures c.origPtr < 0x100_0000
  {
  }

  lemma {:induction false} CodesIs(c: BlockCode, b: seq<Byte>, ptr: seq<nat>)
    requires Plan(c.inUse, c.last, c.lens, c.selector) && |b| == |c.last| <= 900_000
    requires SortedRotations(b, ptr) && c.origPtr < |b| && ptr[c.origPtr] == 0 && IsLastColumn(b, ptr, c.last)
    ensures CodesBlock(c, b)
  {
  }

  lemma BlockBitsIs(c: BlockCode, crc: nat)
    requires Plan(c.inUse, c.last, c.lens, c.selector)
    ensures BlockBits(c, crc) ==
      ToBits(crc, 32) + ([false] + (ToBits(c.origPtr, 24) + BodyBits(c.inUse, c.last, c.lens, c.selector)))
  {
  }

  /** Bits that hold the block b and its checksum. */
  ghost predicate HoldsBlock(bits: seq<bool>, b: seq<Byte>, crc: nat) {
    exists c: BlockCode :: CodesBlock(c, b) && bits == BytesToBits(BLOCK_MAGIC) + BlockBits(c, crc)
  }

  /** The column that sorted rotations select. */
  ghost function LastColumn(b: seq<Byte>, ptr: seq<nat>): (last: seq<Byte>)
    requires SortedRotations(b, ptr)
    ensures IsLastColumn(b, ptr, last)
  {
    seq(|b|, i requires 0 <= i < |b| => b[Prev(|b|, ptr[i])])
  }

  lemma ColumnSize(b: seq<Byte>, ptr: seq<nat>, last: seq<Byte>)
    requires IsLastColumn(b, ptr, last)
    ensures |last| == |ptr| == |b|
  {
  }

  /** Sorts, codes and sends a block that is not empty. */
  method SendBlock(w: BitWriter, arr1: array<UInt32>, arr2: array<UInt32>, ftab: array<Word>, inUse: array<bool>,
                   unseqToSeq: array<Byte>, mtfFreq: array<nat>, nblock: nat, crc: UInt32, workFactor: int)
    returns (ghost piece: seq<bool>)
    requires w.Valid() && arr1 != arr2 && 0 < nblock <= 900_000 && nblock <= arr1.Length && nblock + 34 <= arr2.Length
    requires ftab.Length == 65537 && inUse.Length == unseqToSeq.Length == 256 && mtfFreq.Length == 258
    requires AllUsed(inUse[..], ByteView(arr2[..], nblock))
    modifies w, arr1, arr2, ftab, unseqToSeq, mtfFreq
    ensures w.Valid() && old(w.zbits) <= w.zbits
    ensures w.Bits() == old(w.Bits()) + piece && HoldsBlock(piece, old(ByteView(arr2[..], nblock)), crc)
  {
    hide *;
    ghost var b, u, start := ByteView(arr2[..], nblock), inUse[..], w.Bits();
    ViewSize(arr2[..], nblock);
    EightBits();
    var origPtr := BlockSort(arr1, arr2, ftab, nblock, workFactor);
    ghost var ptr := arr1[..nblock];
    ghost var last := LastColumn(b, ptr);
    ColumnSize(b, ptr, last);
    PutBytes(w, BLOCK_MAGIC);
    PutUInt32(w, crc);
    PutBit(w, false);
    w.W(24, origPtr);
    var nInUse, nMTF := GenerateMtfValues(arr1, arr2, inUse, unseqToSeq, mtfFreq, nblock, last);
    ColumnUsed(b, ptr, last, u);
    SymbolsAre(u, last);
    ghost var lens, sel := SendMtfValues(w, arr1, nMTF, mtfFreq, inUse, nInUse, last);
    ghost var c := BlockCode(u, last, lens, sel, origPtr);
    CodesIs(c, b, ptr);
    BlockBitsIs(c, crc);
    piece := BytesToBits(BLOCK_MAGIC) + BlockBits(c, crc);
    HoldsIs(piece, b, crc, c);
    FiveFields(start, BytesToBits(BLOCK_MAGIC), ToBits(crc, 32), [false], ToBits(origPtr, 24),
               BodyBits(u, last, lens, sel));
  }

  lemma FiveFields(s: seq<bool>, a: seq<bool>, b: seq<bool>, c: seq<bool>, d: seq<bool>, e: seq<bool>)
    ensures s + a + b + c + d + e == s + (a + (b + (c + (d + e))))
  {
  }

  lemma {:induction false} HoldsIs(bits: seq<bool>, b: seq<Byte>, crc: nat, c: BlockCode)
    requires CodesBlock(c, b) && Plan(c.inUse, c.last, c.lens, c.selector)
    requires bits == BytesToBits(BLOCK_MAGIC) + BlockBits(c, crc)
    ensures HoldsBlock(bits, b, crc)
  {
  }

  lemma {:induction false} SymbolsAre(u: seq<bool>, last: seq<Byte>)
    requires AllUsed(u, last) && |u| == 256 && AllIn(Renumbered(u, last), Ident(Rank(u, 256))) && 1 <= Rank(u, 256)
    ensures Symbols(u, last) == Encode(Ident(Rank(u, 256)), 0, Renumbered(u, last), Rank(u, 256) + 1)
  {
  }
}
