/** The bytes of a decoded block, fetched one at a time by following the inverse permutation. */
module BlockSource {
  import opened MachineInts
  import opened Permutations
  import opened Rotations
  import opened Counting
  import opened Bwt
  import opened BwtDecode
  import opened BwtSmall
  import opened MtfDecode

  /** last is the column of b's sorted rotations, and row origPtr holds b itself. */
  ghost predicate Transforms(b: seq<Byte>, last: seq<Byte>, origPtr: nat) {
    exists ptr: seq<nat> :: SortedRotations(b, ptr) && origPtr < |b| && ptr[origPtr] == 0 && IsLastColumn(b, ptr, last)
  }

  lemma SlotFound(last: seq<Byte>, j: nat)
    requires j < |last|
    ensures exists i: nat :: i < |last| && Slot(last, i) == j
  {
    SlotsPermute(last);
    var i := Find(Slots(last), |last|, j);
    assert Slot(last, i) == j;
  }

  /** The row whose byte takes slot j. */
  ghost function RowOf(last: seq<Byte>, j: nat): (i: nat)
    requires j < |last|
    ensures i < |last| && Slot(last, i) == j
  {
    SlotFound(last, j);
    var i: nat :| i < |last| && Slot(last, i) == j;
    i
  }

  /** The inverse permutation that a column determines. */
  ghost function Inverse(last: seq<Byte>): (t: seq<nat>)
    ensures Undoes(last, t) && |t| == |last| && Below(t, |t|)
  {
    var t := seq(|last|, j requires 0 <= j < |last| => RowOf(last, j));
    RowsUndo(last, t);
    t
  }

  lemma RowsUndo(last: seq<Byte>, t: seq<nat>)
    requires |t| == |last| && forall j :: 0 <= j < |last| ==> t[j] == RowOf(last, j)
    ensures Undoes(last, t) && Below(t, |t|)
  {
    forall i | 0 <= i < |last| ensures t[Slot(last, i)] == i {
      var r := RowOf(last, Slot(last, i));
      if r != i { SlotDistinct(last, r, i); }
    }
  }

  /** There is only one. */
  lemma InverseUnique(last: seq<Byte>, t: seq<nat>)
    requires Undoes(last, t)
    ensures t == Inverse(last)
  {
    var u := Inverse(last);
    forall j | 0 <= j < |last| ensures t[j] == u[j] {
      UndoesAt(last, t, j);
      assert u[Slot(last, t[j])] == t[j];
    }
  }

  /** The block a column and a row stand for. */
  ghost function Restored(last: seq<Byte>, o: nat): (b: seq<Byte>)
    requires o < |last|
    ensures |b| == |last|
  {
    Walk(last, Inverse(last), o, |last|)
  }

  /** The inverse transform gives back the block. */
  lemma RestoredIs(b: seq<Byte>, last: seq<Byte>, o: nat)
    requires Transforms(b, last, o)
    ensures o < |last| && Restored(last, o) == b
  {
    var ptr: seq<nat> :| SortedRotations(b, ptr) && o < |b| && ptr[o] == 0 && IsLastColumn(b, ptr, last);
    UndoesPermutes(last, Inverse(last));
    WalkRecovers(b, ptr, last, Inverse(last), o);
  }

  /* ---- the position, in both forms ---- */

  /** FAST: the links above the bytes are the inverse permutation; tPos is one row ahead of the byte last fetched. */
  ghost predicate FastAt(tt: seq<UInt32>, last: seq<Byte>, o: nat, tPos: nat, k: nat) {
    && o < |last| <= |tt| && Links(tt, |last|) == Inverse(last)
    && (forall j :: 0 <= j < |last| ==> tt[j] % 256 == last[j])
    && tPos == Row(Inverse(last), o, k + 1)
  }

  /** SMALL: the reversed links lead through the same rows, and cftab holds the bucket starts. */
  ghost predicate SmallAt(ll16: seq<UInt16>, ll4: seq<Byte>, cftab: seq<int>, last: seq<Byte>, o: nat, tPos: nat,
                          k: nat)
  {
    && o < |last| <= |ll16| && |last| <= 2 * |ll4| && AreStarts(last, cftab)
    && Follows(SmallLinks(ll16, ll4, |last|), Inverse(last), o)
    && tPos == Row(Inverse(last), o, k)
  }

  lemma FastStep(tt: seq<UInt32>, last: seq<Byte>, o: nat, tPos: nat, k: nat)
    requires FastAt(tt, last, o, tPos, k)
    ensures tPos < |last| <= |tt| && tt[tPos] % 256 == last[Row(Inverse(last), o, k + 1)]
    ensures FastAt(tt, last, o, tt[tPos] / 256, k + 1)
  {
    assert Links(tt, |last|)[tPos] == tt[tPos] / 256;
  }

  lemma SmallStep(ll16: seq<UInt16>, ll4: seq<Byte>, cftab: seq<int>, last: seq<Byte>, o: nat, tPos: nat, k: nat)
    requires SmallAt(ll16, ll4, cftab, last, o, tPos, k)
    ensures tPos < |last| <= |ll16| && |last| <= 2 * |ll4| && AreStarts(last, cftab)
    ensures Bucket(last, tPos) == last[Row(Inverse(last), o, k + 1)]
    ensures SmallAt(ll16, ll4, cftab, last, o, SmallLinks(ll16, ll4, |last|)[tPos], k + 1)
  {
    var ll := SmallLinks(ll16, ll4, |last|);
    SmallAgrees(last, Inverse(last), ll, o, k);
    assert Row(ll, o, k + 1) == ll[Row(ll, o, k)];
  }

  lemma RestoredAt(last: seq<Byte>, o: nat, k: nat)
    requires o < |last| && k < |last|
    ensures Restored(last, o)[k] == last[Row(Inverse(last), o, k + 1)]
  {
  }

  lemma FastStart(tt: seq<UInt32>, last: seq<Byte>, o: nat)
    requires o < |last| <= |tt| && Undoes(last, Links(tt, |last|)) && forall j :: 0 <= j < |last| ==>
      tt[j] % 256 == last[j]
    ensures FastAt(tt, last, o, tt[o] / 256, 0)
  {
    InverseUnique(last, Links(tt, |last|));
    assert Row(Inverse(last), o, 0) == o;
  }

  lemma SmallStart(ll16: seq<UInt16>, ll4: seq<Byte>, cftab: seq<int>, last: seq<Byte>, o: nat)
    requires o < |last| <= |ll16| && |last| <= 2 * |ll4| && AreStarts(last, cftab)
    requires Follows(SmallLinks(ll16, ll4, |last|), Inverse(last), o)
    ensures SmallAt(ll16, ll4, cftab, last, o, o, 0)
  {
  }

  /** The storage a decoder keeps for one block, in the FAST or the SMALL form, and the place reached in it. */
  class BlockStore {
    const small: bool
    const limit: nat
    const tt: array<UInt32>
    const ll16: array<UInt16>
    const ll4: array<Byte>
    const unzftab: array<int>
    const cftab: array<int>
    var tPos: nat
    var nblock: nat
    ghost var last: seq<Byte>
    ghost var row: nat
    ghost var used: nat

    ghost predicate Sized()
      reads this
    {
      && unzftab.Length == 256 && cftab.Length == 257 && unzftab != cftab && limit <= 900_000
      && (if small then limit == ll16.Length && limit <= 2 * ll4.Length else limit == tt.Length)
    }

    /** A block is in place, and used of its bytes have been fetched. */
    ghost predicate Ready()
      reads this, tt, ll16, ll4, cftab
    {
      && Sized() && nblock == |last| <= limit && row < |last|
      && (if small then SmallAt(ll16[..], ll4[..], cftab[..], last, row, tPos, used)
          else FastAt(tt[..], last, row, tPos, used))
    }

    ghost function Block(): seq<Byte>
      requires row < |last|
      reads this
    {
      Restored(last, row)
    }

    constructor (small: bool, blockSize100k: nat)
      requires 1 <= blockSize100k <= 9
      ensures Sized() && this.small == small && limit == 100_000 * blockSize100k
      ensures fresh(tt) && fresh(ll16) && fresh(ll4) && fresh(unzftab) && fresh(cftab)
    {
      this.small := small;
      limit := 100_000 * blockSize100k;
      tt := new UInt32[if small then 0 else 100_000 * blockSize100k];
      ll16 := new UInt16[if small then 100_000 * blockSize100k else 0];
      ll4 := new Byte[if small then (1 + 100_000 * blockSize100k) / 2 else 0];
      unzftab := new int[256];
      cftab := new int[257];
      tPos, nblock, last, row, used := 0, 0, [], 0, 0;
    }

    lemma ReadyParts()
      requires Ready()
      ensures Sized() && nblock == |last| <= limit && row < |last|
      ensures small ==> SmallAt(ll16[..], ll4[..], cftab[..], last, row, tPos, used) && limit == ll16.Length
      ensures small ==> limit <= 2 * ll4.Length
      ensures !small ==> FastAt(tt[..], last, row, tPos, used) && limit == tt.Length
    {
    }

    lemma ReadyAgain()
      requires Sized() && nblock == |last| <= limit && row < |last|
      requires small ==> SmallAt(ll16[..], ll4[..], cftab[..], last, row, tPos, used)
      requires !small ==> FastAt(tt[..], last, row, tPos, used)
      ensures Ready()
    {
    }

    lemma SizedParts()
      requires Sized()
      ensures unzftab.Length == 256 && cftab.Length == 257 && unzftab != cftab && limit <= 900_000
      ensures small ==> limit == ll16.Length && limit <= 2 * ll4.Length
      ensures !small ==> limit == tt.Length
    {
    }

    lemma BlockIs()
      requires row < |last|
      ensures Block() == Restored(last, row)
    {
    }

    /** Fetches the next byte; never fails once a block is in place. */
    method Get() returns (corrupt: bool, c: Byte)
      requires Ready()
      modifies `tPos, `used
      ensures Ready() && !corrupt && used == old(used) + 1
      ensures old(used) < |last| ==> c == Block()[old(used)]
    {
      hide *;
      ReadyParts();
      BlockIs();
      var next;
      if used < |last| { RestoredAt(last, row, used); }
      if small {
        SmallStep(ll16[..], ll4[..], cftab[..], last, row, tPos, used);
        corrupt, c, next := GetSmall(ll16, ll4, cftab, tPos, limit, last);
      } else {
        FastStep(tt[..], last, row, tPos, used);
        corrupt, c, next := GetFast(tt, tPos, limit);
      }
      if corrupt { return; }
      tPos := next;
      used := used + 1;
      ReadyAgain();
      BlockIs();
    }

    /** Links up a column that has been read, so that its bytes can be fetched in block order from row origPtr on. */
    method Link(nblock: nat, origPtr: nat, ghost column: seq<Byte>) returns (ok: bool)
      requires Sized() && Collected(small, tt[..], ll16[..], unzftab[..], nblock, limit, column) && origPtr < nblock
      modifies this, tt, ll16, ll4, cftab
      ensures ok && Ready() && last == column && row == origPtr && used == 0
    {
      hide *;
      SizedParts();
      CollectedParts(small, tt[..], ll16[..], unzftab[..], nblock, limit, column);
      ok := BuildCftab(unzftab, cftab, nblock);
      CountsAccepted(column, unzftab[..], cftab[..]);
      if !ok { return; }
      StoredIs(small, tt[..], ll16[..], nblock);
      this.nblock := nblock;
      last, row, used := column, origPtr, 0;
      if small {
        LinkSmall(nblock, origPtr);
        tPos := origPtr;
        SmallStart(ll16[..], ll4[..], cftab[..], last, row);
      } else {
        assert forall j :: 0 <= j < nblock ==> tt[j] == tt[..nblock][j];
        BuildFast(tt, cftab, nblock, last);
        FastStart(tt[..], last, row);
        tPos := tt[origPtr] / 256;
      }
      SizedStill();
      ReadyAgain();
    }

    lemma SizedStill()
      requires unzftab.Length == 256 && cftab.Length == 257 && unzftab != cftab && limit <= 900_000
      requires if small then limit == ll16.Length && limit <= 2 * ll4.Length else limit == tt.Length
      ensures Sized()
    {
    }

    method LinkSmall(nblock: nat, origPtr: nat)
      requires origPtr < nblock == |last| <= ll16.Length && nblock <= 2 * ll4.Length && nblock < 0x10_0000
      requires ll16[..nblock] == last && AreStarts(last, cftab[..]) && cftab.Length == 257
      modifies ll16, ll4
      ensures Follows(SmallLinks(ll16[..], ll4[..], nblock), Inverse(last), origPtr)
    {
      hide *;
      var cftabCopy := new int[257](i requires 0 <= i < 257 reads cftab => cftab[i]);
      assert cftabCopy[..] == cftab[..];
      assert forall j :: 0 <= j < nblock ==> ll16[j] == ll16[..nblock][j];
      BuildSlots(ll16, ll4, cftabCopy, nblock, last);
      InverseIs(last);
      ReverseCycle(ll16, ll4, origPtr, nblock, last, Inverse(last));
    }
  }

  lemma InverseIs(last: seq<Byte>)
    ensures Undoes(last, Inverse(last))
  {
  }
}
