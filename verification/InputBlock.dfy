/** The block being filled: bytes arriving one at a time, run-coded into the block's storage. */
module InputBlock {
  import opened MachineInts
  import opened Words
  import opened MtfEncode
  import opened BlockCrc
  import opened RunLength

  /** A byte value no byte has: no run is pending. */
  const NO_CHAR := 256

  ghost predicate InUseIs(inUse: seq<bool>, b: seq<Byte>) {
    |inUse| == 256 && forall c :: 0 <= c < 256 ==> (inUse[c] <==> c in b)
  }

  lemma InUsePush(inUse: seq<bool>, b: seq<Byte>, c: Byte)
    requires InUseIs(inUse, b)
    ensures InUseIs(inUse[c := true], b + [c])
  {
  }

  lemma InUseEmpty(inUse: seq<bool>)
    requires |inUse| == 256 && forall c :: 0 <= c < 256 ==> !inUse[c]
    ensures InUseIs(inUse, [])
  {
  }

  /** inUse marks exactly the bytes of the block. */
  lemma InUseAll(inUse: seq<bool>, b: seq<Byte>)
    requires InUseIs(inUse, b)
    ensures AllUsed(inUse, b)
  {
  }

  /** The pending run, if there is one, could follow the last stored run. */
  ghost predicate Pending(ps: seq<Pair>, ch: nat, len: nat) {
    && ch <= NO_CHAR && (ch == NO_CHAR <==> len == 0) && len <= 255
    && (ps != [] && ch < NO_CHAR ==> ps[|ps| - 1].ch != ch || ps[|ps| - 1].len >= 4)
  }

  /** The bytes of the pending run. */
  ghost function Waiting(ch: nat, len: nat): (r: seq<Byte>) {
    if ch < 256 then Run(ch, len) else []
  }

  /** Everything the block has taken in: the runs stored and the one pending. */
  ghost function Taken(ps: seq<Pair>, ch: nat, len: nat): seq<Byte> {
    Expand(ps) + Waiting(ch, len)
  }

  lemma {:induction false} CrcRun(s: seq<Byte>, c: Byte, n: nat)
    ensures CrcOf(s + Run(c, n + 1)) == UpdateCrc(CrcOf(s + Run(c, n)), c)
    ensures s + Run(c, 0) == s
  {
    hide *;
    CrcPush(s + Run(c, n), c);
    assert s + Run(c, n) + [c] == s + Run(c, n + 1);
  }

  /** Bytes at positions before nblock, and what they stand for. */
  ghost predicate Filled(words: seq<UInt32>, inUse: seq<bool>, crc: bv32, nblock: nat, ps: seq<Pair>) {
    && Separated(ps) && nblock <= 4 * |words| && ByteView(words, nblock) == Pack(ps)
    && InUseIs(inUse, Pack(ps)) && crc == CrcOf(Expand(ps))
  }

  lemma FilledParts(words: seq<UInt32>, inUse: seq<bool>, crc: bv32, nblock: nat, ps: seq<Pair>)
    requires Filled(words, inUse, crc, nblock, ps)
    ensures Separated(ps) && nblock <= 4 * |words| && ByteView(words, nblock) == Pack(ps) && |Pack(ps)| == nblock
    ensures InUseIs(inUse, Pack(ps)) && crc == CrcOf(Expand(ps)) && |inUse| == 256
  {
  }

  lemma FilledIs(words: seq<UInt32>, inUse: seq<bool>, crc: bv32, nblock: nat, ps: seq<Pair>)
    requires Separated(ps) && nblock <= 4 * |words| && ByteView(words, nblock) == Pack(ps)
    requires InUseIs(inUse, Pack(ps)) && crc == CrcOf(Expand(ps))
    ensures Filled(words, inUse, crc, nblock, ps)
  {
  }

  lemma FilledNone(words: seq<UInt32>, inUse: seq<bool>)
    requires InUseIs(inUse, [])
    ensures Filled(words, inUse, CRC_START, 0, [])
  {
  }

  /** A run that is pending can be stored. */
  lemma PendingFits(ps: seq<Pair>, ch: nat, len: nat)
    requires Pending(ps, ch, len) && Separated(ps) && ch < NO_CHAR
    ensures 1 <= len <= 255 && ch < 256 && Separated(ps + [Pair(ch, len)])
    ensures Pack(ps + [Pair(ch, len)]) == Pack(ps) + Packed(Pair(ch, len))
    ensures Expand(ps + [Pair(ch, len)]) == Expand(ps) + Run(ch, len)
  {
    SeparatedPush(ps, Pair(ch, len));
    PackPush(ps, Pair(ch, len));
    ExpandPush(ps, Pair(ch, len));
  }

  lemma PackedIs(c: Byte, len: nat)
    requires 1 <= len <= 255
    ensures len == 1 ==> Packed(Pair(c, len)) == [c]
    ensures len == 2 ==> Packed(Pair(c, len)) == [c, c]
    ensures len == 3 ==> Packed(Pair(c, len)) == [c, c, c]
    ensures len >= 4 ==> Packed(Pair(c, len)) == [c, c, c, c, len - 4]
  {
  }

  lemma Constants()
    ensures NO_CHAR == 256
  {
  }

  class InputBlock {
    const arr2: array<UInt32>
    const inUse: array<bool>
    const nblockMAX: nat
    var nblock: nat
    var state_in_ch: nat
    var state_in_len: nat
    var blockCRC: bv32
    ghost var runs: seq<Pair>

    ghost predicate Valid()
      reads this, arr2, inUse
    {
      && inUse.Length == 256 && nblockMAX + 19 <= 900_000 && nblockMAX + 19 + 34 <= arr2.Length
      && nblock <= nblockMAX + 4
      && Pending(runs, state_in_ch, state_in_len) && (state_in_ch == NO_CHAR ==> runs == [])
      && Filled(arr2[..], inUse[..], blockCRC, nblock, runs)
    }

    /** The bytes accepted into this block, including those still pending. */
    ghost function Accepted(): seq<Byte>
      reads this
    {
      Taken(runs, state_in_ch, state_in_len)
    }

    lemma Parts()
      requires Valid()
      ensures inUse.Length == 256 && nblockMAX + 19 <= 900_000 && nblockMAX + 19 + 34 <= arr2.Length
      ensures nblock <= nblockMAX + 4
      ensures Pending(runs, state_in_ch, state_in_len) && Filled(arr2[..], inUse[..], blockCRC, nblock, runs)
      ensures state_in_ch == NO_CHAR ==> runs == []
    {
    }

    lemma AcceptedIs()
      ensures Accepted() == Expand(runs) + Waiting(state_in_ch, state_in_len)
    {
    }

    /** Stores a byte and marks it; the first n bytes of the block were b. */
    method Put(c: Byte, ghost b: seq<Byte>)
      requires inUse.Length == 256 && nblock < 4 * arr2.Length && ByteView(arr2[..], nblock) == b
      requires InUseIs(inUse[..], b)
      modifies arr2, inUse, `nblock
      ensures nblock == old(nblock) + 1 <= 4 * arr2.Length && ByteView(arr2[..], nblock) == b + [c]
      ensures InUseIs(inUse[..], b + [c])
    {
      hide *;
      ghost var u := inUse[..];
      InUsePush(u, b, c);
      inUse[c] := true;
      assert inUse[..] == u[c := true];
      PushByte(arr2, nblock, c);
      nblock := nblock + 1;
    }

    /** Feeds the pending run to the checksum. */
    method UpdateRunCrc(ch: Byte)
      requires state_in_ch == ch && blockCRC == CrcOf(Expand(runs))
      modifies `blockCRC
      ensures blockCRC == CrcOf(Expand(runs) + Run(ch, state_in_len))
    {
      hide *;
      ghost var s := Expand(runs);
      CrcRun(s, ch, 0);
      for i := 0 to state_in_len
        invariant blockCRC == CrcOf(s + Run(ch, i)) && s == Expand(runs)
      {
        CrcRun(s, ch, i);
        blockCRC := UpdateCrc(blockCRC, ch);
      }
    }

    /** Stores the pending run as up to four copies and a count; the run stays pending in the fields. */
    method AddPairToBlock()
      requires inUse.Length == 256 && nblock + 5 <= 4 * arr2.Length && state_in_ch < 256
      requires Pending(runs, state_in_ch, state_in_len) && Filled(arr2[..], inUse[..], blockCRC, nblock, runs)
      modifies arr2, inUse, `nblock, `blockCRC, `runs
      ensures runs == old(runs) + [Pair(state_in_ch, state_in_len)] && nblock <= old(nblock) + 5
      ensures Filled(arr2[..], inUse[..], blockCRC, nblock, runs)
      ensures Expand(runs) == old(Expand(runs)) + Run(state_in_ch, state_in_len)
    {
      hide *;
      Constants();
      FilledParts(arr2[..], inUse[..], blockCRC, nblock, runs);
      PendingFits(runs, state_in_ch, state_in_len);
      var ch: Byte := state_in_ch;
      PackedIs(ch, state_in_len);
      UpdateRunCrc(ch);
      ghost var b := Pack(runs);
      if state_in_len == 1 {
        Put(ch, b);
      } else if state_in_len == 2 {
        Put(ch, b);
        Put(ch, b + [ch]);
        assert b + [ch] + [ch] == b + [ch, ch];
      } else if state_in_len == 3 {
        Put(ch, b);
        Put(ch, b + [ch]);
        Put(ch, b + [ch] + [ch]);
        assert b + [ch] + [ch] + [ch] == b + [ch, ch, ch];
      } else {
        PutLong(ch, b);
      }
      runs := runs + [Pair(ch, state_in_len)];
      FilledIs(arr2[..], inUse[..], blockCRC, nblock, runs);
    }

    method PutLong(ch: Byte, ghost b: seq<Byte>)
      requires inUse.Length == 256 && nblock + 5 <= 4 * arr2.Length && 4 <= state_in_len <= 255
      requires ByteView(arr2[..], nblock) == b && InUseIs(inUse[..], b)
      modifies arr2, inUse, `nblock
      ensures nblock == old(nblock) + 5 && ByteView(arr2[..], nblock) == b + [ch, ch, ch, ch, state_in_len - 4]
      ensures InUseIs(inUse[..], b + [ch, ch, ch, ch, state_in_len - 4])
    {
      hide *;
      var count: Byte := state_in_len - 4;
      Put(ch, b);
      Put(ch, b + [ch]);
      Put(ch, b + [ch] + [ch]);
      Put(ch, b + [ch] + [ch] + [ch]);
      Put(count, b + [ch] + [ch] + [ch] + [ch]);
      assert b + [ch] + [ch] + [ch] + [ch] + [count] == b + [ch, ch, ch, ch, count];
    }

    lemma Again()
      requires inUse.Length == 256 && nblockMAX + 19 <= 900_000 && nblockMAX + 19 + 34 <= arr2.Length
      requires nblock <= nblockMAX + 4
      requires Pending(runs, state_in_ch, state_in_len) && Filled(arr2[..], inUse[..], blockCRC, nblock, runs)
      requires state_in_ch == NO_CHAR ==> runs == []
      ensures Valid()
    {
    }

    method InitRL()
      modifies `state_in_ch, `state_in_len
      ensures state_in_ch == NO_CHAR && state_in_len == 0
    {
      state_in_ch, state_in_len := NO_CHAR, 0;
    }

    method IsEmptyRL() returns (empty: bool)
      requires Pending(runs, state_in_ch, state_in_len)
      ensures empty <==> state_in_ch == NO_CHAR
      ensures empty <==> Waiting(state_in_ch, state_in_len) == []
    {
      empty := !(state_in_ch < 256 && state_in_len > 0);
    }

    /** Stores the pending run, if any; what the block has accepted does not change. */
    method FlushRL()
      requires Valid()
      modifies this, arr2, inUse
      ensures nblock <= nblockMAX + 9 && state_in_ch == NO_CHAR && state_in_len == 0
      ensures inUse.Length == 256 && Pending(runs, state_in_ch, state_in_len)
      ensures Filled(arr2[..], inUse[..], blockCRC, nblock, runs)
      ensures Expand(runs) == old(Accepted()) && Accepted() == old(Accepted())
    {
      hide *;
      Constants();
      Parts();
      AcceptedIs();
      WaitingIs(state_in_ch, state_in_len);
      assert Expand(runs) + [] == Expand(runs);
      if state_in_ch < 256 { AddPairToBlock(); }
      InitRL();
      AcceptedIs();
      WaitingIs(state_in_ch, state_in_len);
      PendingNone(runs);
      assert Expand(runs) + [] == Expand(runs);
    }

    /** Takes in one byte. */
    method AddChar(zchh: Byte)
      requires Valid() && nblock < nblockMAX
      modifies this, arr2, inUse
      ensures Valid() && Accepted() == old(Accepted()) + [zchh]
      ensures state_in_ch < 256
    {
      hide *;
      Constants();
      Parts();
      AcceptedIs();
      ghost var ps, s, n := runs, Expand(runs), state_in_len;
      if zchh != state_in_ch && state_in_len == 1 {
        var ch: Byte := PendingByte();
        FilledParts(arr2[..], inUse[..], blockCRC, nblock, runs);
        PendingFits(runs, state_in_ch, state_in_len);
        PackedIs(ch, 1);
        OneRun(s, ch);
        blockCRC := UpdateCrc(blockCRC, ch);
        ghost var b := Pack(runs);
        Put(ch, b);
        runs := runs + [Pair(ch, 1)];
        FilledIs(arr2[..], inUse[..], blockCRC, nblock, runs);
        state_in_ch := zchh;
        NextPending(ps, ch, 1, zchh);
        TakenNext(s, ch, 1, zchh);
      } else if zchh != state_in_ch || state_in_len == 255 {
        var had := state_in_ch;
        if state_in_ch < 256 {
          AddPairToBlock();
          NextPending(ps, had, n, zchh);
          TakenNext(s, had, n, zchh);
        } else {
          FirstPending(runs, zchh);
          TakenFirst(s, had, n, zchh);
        }
        state_in_ch := zchh;
        state_in_len := 1;
      } else {
        MorePending(runs, state_in_ch, state_in_len);
        TakenMore(s, state_in_ch, state_in_len);
        state_in_len := state_in_len + 1;
      }
      AcceptedIs();
      Again();
    }

    method PendingByte() returns (ch: Byte)
      requires Pending(runs, state_in_ch, state_in_len) && state_in_len == 1
      ensures ch == state_in_ch
    {
      ch := state_in_ch;
    }

    method ClearInUse()
      requires inUse.Length == 256
      modifies inUse
      ensures InUseIs(inUse[..], [])
    {
      for i := 0 to 256
        invariant forall c :: 0 <= c < i ==> !inUse[c]
      {
        inUse[i] := false;
      }
      InUseEmpty(inUse[..]);
    }

    /** Starts an empty block; a pending run stays pending. */
    method Clear()
      requires inUse.Length == 256 && nblockMAX + 19 <= 900_000 && nblockMAX + 19 + 34 <= arr2.Length
      requires Pending([], state_in_ch, state_in_len)
      modifies inUse, `nblock, `blockCRC, `runs
      ensures Valid() && nblock == 0 && runs == [] && Accepted() == Waiting(state_in_ch, state_in_len)
    {
      hide *;
      ClearInUse();
      nblock, blockCRC, runs := 0, CRC_START, [];
      FilledNone(arr2[..], inUse[..]);
      AcceptedIs();
      NothingExpanded();
      assert [] + Waiting(state_in_ch, state_in_len) == Waiting(state_in_ch, state_in_len);
      Again();
    }

    constructor (blockSize100k: nat)
      requires 1 <= blockSize100k <= 9
      ensures Valid() && nblockMAX == 100_000 * blockSize100k - 19 && nblock == 0 && runs == [] && Accepted() == []
      ensures state_in_ch == NO_CHAR && fresh(arr2) && fresh(inUse)
      ensures arr2.Length == 100_000 * blockSize100k + 34 && inUse.Length == 256
    {
      var n := 100_000 * blockSize100k;
      arr2 := new UInt32[n + 34];
      inUse := new bool[256];
      nblockMAX := n - 19;
      nblock, state_in_ch, state_in_len, blockCRC, runs := 0, NO_CHAR, 0, CRC_START, [];
      new;
      Clear();
    }
  }

  lemma WaitingIs(ch: nat, len: nat)
    ensures ch < 256 ==> Waiting(ch, len) == Run(ch, len)
    ensures ch >= 256 ==> Waiting(ch, len) == []
  {
  }

  lemma NothingExpanded()
    ensures Expand([]) == []
  {
  }

  lemma PendingNone(ps: seq<Pair>)
    ensures Pending(ps, NO_CHAR, 0)
  {
  }

  lemma OneRun(s: seq<Byte>, c: Byte)
    ensures CrcOf(s + Run(c, 1)) == UpdateCrc(CrcOf(s), c)
  {
    hide *;
    CrcRun(s, c, 0);
  }

  lemma NextPending(ps: seq<Pair>, ch: Byte, len: nat, zchh: Byte)
    requires ch != zchh || len >= 4
    ensures Pending(ps + [Pair(ch, len)], zchh, 1)
  {
  }

  lemma FirstPending(ps: seq<Pair>, zchh: Byte)
    requires ps == []
    ensures Pending(ps, zchh, 1)
  {
  }

  lemma MorePending(ps: seq<Pair>, ch: nat, len: nat)
    requires Pending(ps, ch, len) && len < 255 && ch < 256
    ensures Pending(ps, ch, len + 1)
  {
  }

  lemma TakenNext(s: seq<Byte>, ch: Byte, len: nat, zchh: Byte)
    ensures s + Run(ch, len) + Waiting(zchh, 1) == s + Waiting(ch, len) + [zchh]
  {
    assert Waiting(zchh, 1) == [zchh];
  }

  lemma TakenFirst(s: seq<Byte>, ch: nat, len: nat, zchh: Byte)
    requires ch >= 256
    ensures s + Waiting(zchh, 1) == s + Waiting(ch, len) + [zchh]
  {
    assert Waiting(zchh, 1) == [zchh] && Waiting(ch, len) == [];
    assert s + [] == s;
  }

  lemma TakenMore(s: seq<Byte>, ch: nat, len: nat)
    requires ch < 256
    ensures s + Waiting(ch, len + 1) == s + Waiting(ch, len) + [ch]
  {
  }
}
