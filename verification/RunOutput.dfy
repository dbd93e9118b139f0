/** Expanding the runs of a decoded block into whatever output room there is, in both forms of the decoder. */
module RunOutput {
  import opened MachineInts
  import opened BlockCrc
  import opened RunLength
  import opened BlockSource

  /** Where the caller wants its bytes: everything written so far, and the room that is left. */
  class Sink {
    var out: seq<Byte>
    var avail_out: nat

    constructor ()
      ensures out == [] && avail_out == 0
    {
      out, avail_out := [], 0;
    }
  }

  /* ---- one run ---- */

  /** The m bytes from p on are equal. */
  ghost predicate Equal(b: seq<Byte>, p: nat, m: nat) {
    p + m <= |b| && forall i :: p <= i < p + m ==> b[i] == b[p]
  }

  /** A run of fewer than four that ends. */
  lemma ShortRun(b: seq<Byte>, p: nat, m: nat)
    requires 1 <= m <= 3 && Equal(b, p, m) && Whole(b[p..]) && (p + m == |b| || b[p + m] != b[p])
    ensures Whole(b[p + m..]) && Unpacked(b[p..]) == Run(b[p], m) + Unpacked(b[p + m..])
  {
    var rest := b[p..];
    assert rest[0] == b[p];
    assert m >= 2 ==> rest[1] == b[p + 1];
    assert m >= 3 ==> rest[2] == b[p + 2];
    assert p + m < |b| ==> rest[m] == b[p + m];
    assert Lead(rest) == m;
    assert rest[m..] == b[p + m..];
  }

  /** A run of four carries a count. */
  lemma LongRun(b: seq<Byte>, p: nat)
    requires Equal(b, p, 4) && Whole(b[p..])
    ensures p + 5 <= |b| && Whole(b[p + 5..])
    ensures var more: nat := b[p + 4]; Unpacked(b[p..]) == Run(b[p], 4 + more) + Unpacked(b[p + 5..])
  {
    var rest := b[p..];
    assert rest[0] == b[p] && rest[1] == b[p + 1] && rest[2] == b[p + 2] && rest[3] == b[p + 3];
    assert Lead(rest) == 4;
    assert rest[4] == b[p + 4];
    assert rest[5..] == b[p + 5..];
  }

  lemma EqualMore(b: seq<Byte>, p: nat, m: nat)
    requires Equal(b, p, m) && m > 0 && p + m < |b| && b[p + m] == b[p]
    ensures Equal(b, p, m + 1)
  {
  }

  lemma EqualOne(b: seq<Byte>, p: nat)
    requires p < |b|
    ensures Equal(b, p, 1)
  {
  }

  /** What is still to come: the pending run, and the block from byte p on. */
  ghost predicate Remaining(b: seq<Byte>, p: nat, produced: seq<Byte>, ch: Byte, len: nat, goal: seq<Byte>) {
    p <= |b| && Whole(b[p..]) && produced + Run(ch, len) + Unpacked(b[p..]) == goal
  }

  lemma RemainingEmit(b: seq<Byte>, p: nat, produced: seq<Byte>, ch: Byte, len: nat, goal: seq<Byte>)
    requires Remaining(b, p, produced, ch, len, goal) && len > 0
    ensures Remaining(b, p, produced + [ch], ch, len - 1, goal)
  {
    assert [ch] + Run(ch, len - 1) == Run(ch, len);
    assert produced + [ch] + Run(ch, len - 1) == produced + Run(ch, len);
  }

  lemma RemainingDone(b: seq<Byte>, p: nat, produced: seq<Byte>, ch: Byte, goal: seq<Byte>)
    requires Remaining(b, p, produced, ch, 0, goal) && p == |b|
    ensures produced == goal
  {
    assert b[p..] == [];
    assert produced + [] + [] == produced;
  }

  lemma NothingPending(b: seq<Byte>, p: nat, produced: seq<Byte>, ch: Byte, c: Byte, goal: seq<Byte>)
    requires Remaining(b, p, produced, ch, 0, goal)
    ensures Remaining(b, p, produced, c, 0, goal)
  {
    assert Run(ch, 0) == Run(c, 0);
  }

  lemma RemainingShort(b: seq<Byte>, p: nat, m: nat, produced: seq<Byte>, ch: Byte, goal: seq<Byte>)
    requires Remaining(b, p, produced, ch, 0, goal) && 1 <= m <= 3 && Equal(b, p, m)
    requires (p + m == |b| || b[p + m] != b[p])
    ensures Remaining(b, p + m, produced, b[p], m, goal)
  {
    ShortRun(b, p, m);
    assert produced + [] == produced;
    assert produced + (Run(b[p], m) + Unpacked(b[p + m..])) == produced + Run(b[p], m) + Unpacked(b[p + m..]);
  }

  lemma RemainingLong(b: seq<Byte>, p: nat, produced: seq<Byte>, ch: Byte, goal: seq<Byte>)
    requires Remaining(b, p, produced, ch, 0, goal) && Equal(b, p, 4)
    ensures p + 5 <= |b|
    ensures var more: nat := b[p + 4]; Remaining(b, p + 5, produced, b[p], more + 4, goal)
  {
    LongRun(b, p);
    var more: nat := b[p + 4];
    assert produced + [] == produced;
    assert produced + (Run(b[p], more + 4) + Unpacked(b[p + 5..])) ==
      produced + Run(b[p], more + 4) + Unpacked(b[p + 5..]);
  }

  /** The run-length side of the decoder's state. */
  class RunOutput {
    const store: BlockStore
    const strm: Sink
    var k0: Byte
    var nblock_used: nat
    var save_nblock: nat
    var state_out_len: nat
    var state_out_ch: Byte
    var calculatedBlockCRC: bv32
    /** The bytes of this block that have been put out. */
    ghost var produced: seq<Byte>

    ghost predicate Safe()
      reads `save_nblock, `nblock_used, `calculatedBlockCRC, `produced, store, store.tt, store.ll16, store.ll4
      reads store.cftab
    {
      && store.Ready() && |store.last| == save_nblock && store.used == nblock_used && nblock_used >= 1
      && calculatedBlockCRC == CrcOf(produced)
    }

    /** The block in the store, if it is whole, still adds up to goal; len of the pending run's bytes are left. */
    ghost predicate Going(len: nat, goal: seq<Byte>)
      requires store.row < |store.last|
      reads `save_nblock, `nblock_used, `produced, `state_out_ch, `k0, store
    {
      && nblock_used >= 1 && |store.Block()| == save_nblock
      && Remaining(store.Block(), nblock_used - 1, produced, state_out_ch, len, goal)
      && (nblock_used <= save_nblock ==> k0 == store.Block()[nblock_used - 1])
    }

    lemma SafeParts()
      ensures Safe() <==>
        && store.Ready() && |store.last| == save_nblock && store.used == nblock_used && nblock_used >= 1
        && calculatedBlockCRC == CrcOf(produced)
      ensures Safe() ==> store.row < |store.last|
    {
      if store.Ready() { store.ReadyParts(); }
    }

    lemma GoingParts(len: nat, goal: seq<Byte>)
      requires store.row < |store.last|
      ensures Going(len, goal) <==>
        && nblock_used >= 1 && |store.Block()| == save_nblock
        && Remaining(store.Block(), nblock_used - 1, produced, state_out_ch, len, goal)
        && (nblock_used <= save_nblock ==> k0 == store.Block()[nblock_used - 1])
      ensures Going(len, goal) ==> nblock_used <= save_nblock + 1
    {
    }

    constructor (store: BlockStore, strm: Sink)
      ensures this.store == store && this.strm == strm
    {
      this.store, this.strm := store, strm;
      k0, nblock_used, save_nblock, state_out_len, state_out_ch := 0, 0, 0, 0, 0;
      calculatedBlockCRC, produced := CRC_START, [];
    }

    /** Fetches the next byte of the block. */
    method Fetch() returns (corrupt: bool, c: Byte)
      requires Safe()
      modifies `nblock_used, store`tPos, store`used
      ensures Safe() && !corrupt && nblock_used == old(nblock_used) + 1
      ensures old(nblock_used) < save_nblock ==> c == store.Block()[old(nblock_used)]
      ensures store.Block() == old(store.Block())
    {
      hide *;
      SafeParts();
      store.BlockIs();
      corrupt, c := store.Get();
      nblock_used := nblock_used + 1;
      store.BlockIs();
      SafeParts();
    }

    /** Puts out one byte of the pending run. */
    method Emit(ghost goal: seq<Byte>, ghost len: nat)
      requires Safe() && strm.avail_out > 0
      modifies strm, `calculatedBlockCRC, `produced
      ensures Safe() && strm.out == old(strm.out) + [state_out_ch] && strm.avail_out == old(strm.avail_out) - 1
      ensures produced == old(produced) + [state_out_ch]
      ensures old(Going(len, goal)) && len > 0 ==> Going(len - 1, goal)
    {
      hide *;
      SafeParts();
      ghost var good := Going(len, goal) && len > 0;
      if good {
        GoingParts(len, goal);
        RemainingEmit(store.Block(), nblock_used - 1, produced, state_out_ch, len, goal);
      }
      CrcPush(produced, state_out_ch);
      strm.out := strm.out + [state_out_ch];
      calculatedBlockCRC := UpdateCrc(calculatedBlockCRC, state_out_ch);
      produced := produced + [state_out_ch];
      strm.avail_out := strm.avail_out - 1;
      SafeParts();
      if good { GoingParts(len - 1, goal); }
    }

    /** Starts on a block that has just been linked up. */
    method Begin(nblock: nat)
      requires store.Ready() && store.used == 0 && |store.last| == nblock
      modifies this, store`tPos, store`used
      ensures Safe() && save_nblock == nblock && nblock_used == 1 && state_out_len == 0 && produced == []
      ensures store.Block() == old(store.Block())
      ensures Whole(store.Block()) ==> Going(0, Unpacked(store.Block()))
    {
      hide *;
      store.ReadyParts();
      store.BlockIs();
      CrcPush([], 0);
      var corrupt, c := store.Get();
      k0, nblock_used, save_nblock, state_out_len, state_out_ch := c, 1, nblock, 0, 0;
      calculatedBlockCRC, produced := CRC_START, [];
      store.BlockIs();
      SafeParts();
      if Whole(store.Block()) {
        ghost var b := store.Block();
        BlockSize(store);
        Whole0(b, 0);
        GoingParts(0, Unpacked(b));
      }
    }

    /** m equal bytes of a run that began at byte p have been fetched, and k1 behind them. */
    ghost predicate Scanning(p: nat, m: nat, k1: Byte, goal: seq<Byte>)
      requires store.row < |store.last|
      reads `save_nblock, `nblock_used, `produced, `state_out_ch, `k0, store
    {
      && |store.Block()| == save_nblock && nblock_used == p + m + 1 && p + m <= save_nblock && 1 <= m
      && Equal(store.Block(), p, m) && k0 == state_out_ch == store.Block()[p]
      && (p + m < save_nblock ==> k1 == store.Block()[p + m])
      && Remaining(store.Block(), p, produced, state_out_ch, 0, goal)
    }

    lemma ScanStarts(p: nat, ch0: Byte, k1: Byte, goal: seq<Byte>)
      requires store.row < |store.last| && |store.Block()| == save_nblock && nblock_used == p + 2 && p < save_nblock
      requires k0 == state_out_ch == store.Block()[p] && (p + 1 < save_nblock ==> k1 == store.Block()[p + 1])
      requires Remaining(store.Block(), p, produced, ch0, 0, goal)
      ensures Scanning(p, 1, k1, goal)
    {
      EqualOne(store.Block(), p);
      NothingPending(store.Block(), p, produced, ch0, state_out_ch, goal);
    }

    /** The run ends here. */
    lemma ScanEnds(p: nat, m: nat, k1: Byte, goal: seq<Byte>)
      requires store.row < |store.last| && Scanning(p, m, k1, goal) && m <= 3
      requires (nblock_used == save_nblock + 1 || k1 != k0)
      ensures Remaining(store.Block(), nblock_used - 1, produced, state_out_ch, m, goal) && nblock_used >= 1
      ensures nblock_used <= save_nblock ==> k1 == store.Block()[nblock_used - 1]
      ensures |store.Block()| == save_nblock
    {
      hide *;
      ScanParts(p, m, k1, goal);
      RemainingShort(store.Block(), p, m, produced, state_out_ch, goal);
    }

    /** The run goes on: one more byte has been fetched. */
    lemma ScanOn(p: nat, m: nat, k1: Byte, k2: Byte, goal: seq<Byte>)
      requires store.row < |store.last| && |store.Block()| == save_nblock && nblock_used == p + m + 2
      requires p + m < save_nblock && 1 <= m
      requires Equal(store.Block(), p, m) && k0 == state_out_ch == store.Block()[p] == store.Block()[p + m]
      requires p + m + 1 < save_nblock ==> k2 == store.Block()[p + m + 1]
      requires Remaining(store.Block(), p, produced, state_out_ch, 0, goal)
      ensures Scanning(p, m + 1, k2, goal)
    {
      EqualMore(store.Block(), p, m);
    }

    lemma ScanParts(p: nat, m: nat, k1: Byte, goal: seq<Byte>)
      requires store.row < |store.last| && Scanning(p, m, k1, goal)
      ensures |store.Block()| == save_nblock && nblock_used == p + m + 1 && p + m <= save_nblock && 1 <= m
      ensures Equal(store.Block(), p, m) && k0 == state_out_ch == store.Block()[p]
      ensures p + m < save_nblock ==> k1 == store.Block()[p + m]
      ensures Remaining(store.Block(), p, produced, state_out_ch, 0, goal)
    {
    }

    /** Fetches the byte behind a run of m. */
    method ScanNext(ghost p: nat, ghost m: nat, ghost k1: Byte, ghost goal: seq<Byte>) returns (corrupt: bool, c: Byte)
      requires Safe() && nblock_used <= save_nblock
      modifies `nblock_used, store`tPos, store`used
      ensures Safe() && !corrupt && nblock_used == old(nblock_used) + 1
      ensures old(Safe()) && old(store.row < |store.last|) && old(Scanning(p, m, k1, goal)) && k1 == k0 ==>
        Scanning(p, m + 1, c, goal)
    {
      hide *;
      SafeParts();
      ghost var good := Scanning(p, m, k1, goal) && k1 == k0;
      if good { ScanParts(p, m, k1, goal); }
      corrupt, c := Fetch();
      SafeParts();
      if good { ScanOn(p, m, k1, c, goal); }
    }

    /** A run of four has been found: its count, and the first byte of the next run. */
    method ScanCount(ghost p: nat, ghost k1: Byte, ghost goal: seq<Byte>) returns (corrupt: bool)
      requires Safe() && nblock_used <= save_nblock
      modifies `nblock_used, `state_out_len, `k0, store`tPos, store`used
      ensures Safe() && !corrupt && nblock_used == old(nblock_used) + 2 && state_out_len > 0
      ensures old(Scanning(p, 3, k1, goal)) && k1 == old(k0) ==> Going(state_out_len, goal)
    {
      hide *;
      SafeParts();
      ghost var good := Scanning(p, 3, k1, goal) && k1 == k0;
      ghost var b := store.Block();
      if good {
        ScanParts(p, 3, k1, goal);
        EqualMore(b, p, 3);
        RemainingLong(b, p, produced, state_out_ch, goal);
      }
      var count;
      corrupt, count := Fetch();
      var more: nat := count;
      state_out_len := more + 4;
      SafeParts();
      var first;
      corrupt, first := Fetch();
      k0 := first;
      SafeParts();
      if good { GoingParts(state_out_len, goal); }
    }

    /** One more equal byte, unless the run ends: at the end of the block, or with another byte. */
    method ScanStep(m: nat, ghost p: nat, ghost j: Byte, ghost goal: seq<Byte>)
      returns (corrupt: bool, k1: Byte, stop: bool)
      requires Safe() && nblock_used <= save_nblock && 2 <= m <= 3
      modifies `nblock_used, `state_out_len, `k0, store`tPos, store`used
      ensures Safe() && !corrupt && nblock_used == old(nblock_used) + 1 && state_out_len == m
      ensures !stop ==> nblock_used <= save_nblock && k1 == k0 == old(k0)
      ensures old(Scanning(p, m - 1, j, goal)) && j == old(k0) ==>
        if stop then Going(m, goal) else Scanning(p, m, k1, goal)
    {
      hide *;
      SafeParts();
      ghost var good := Scanning(p, m - 1, j, goal) && j == k0;
      state_out_len := m;
      corrupt, k1 := ScanNext(p, m - 1, j, goal);
      SafeParts();
      stop := true;
      if nblock_used == save_nblock + 1 {
        if good { ScanEnds(p, m, k1, goal); GoingParts(m, goal); }
        return;
      }
      if k1 != k0 {
        if good { ScanEnds(p, m, k1, goal); }
        k0 := k1;
        if good { GoingParts(m, goal); }
        return;
      }
      stop := false;
    }

    /** The first byte of a run; the two forms test for its end in different orders. */
    method ScanFirst(fast: bool, ghost goal: seq<Byte>) returns (corrupt: bool, k1: Byte, stop: bool)
      requires Safe() && nblock_used <= save_nblock
      modifies `nblock_used, `state_out_len, `state_out_ch, `k0, store`tPos, store`used
      ensures Safe() && !corrupt && nblock_used == old(nblock_used) + 1 && state_out_len == 1
      ensures !stop ==> nblock_used <= save_nblock && k1 == k0
      ensures old(Going(0, goal)) ==> if stop then Going(1, goal) else Scanning(old(nblock_used) - 1, 1, k1, goal)
    {
      hide *;
      SafeParts();
      ghost var good := Going(0, goal);
      ghost var p, ch0 := nblock_used - 1, state_out_ch;
      if good { GoingParts(0, goal); }
      state_out_len, state_out_ch := 1, k0;
      corrupt, k1 := Fetch();
      SafeParts();
      if good { ScanStarts(p, ch0, k1, goal); }
      stop := true;
      if (fast && k1 != k0) || (nblock_used != save_nblock + 1 && k1 != k0) {
        if good { ScanEnds(p, 1, k1, goal); }
        k0 := k1;
        if good { GoingParts(1, goal); }
        return;
      }
      if nblock_used == save_nblock + 1 {
        if good { ScanEnds(p, 1, k1, goal); GoingParts(1, goal); }
        return;
      }
      stop := false;
    }

    /** Finds the next run: up to three bytes, or four and a count. */
    method ScanRun(fast: bool, ghost goal: seq<Byte>) returns (corrupt: bool)
      requires Safe() && nblock_used <= save_nblock
      modifies `nblock_used, `state_out_len, `state_out_ch, `k0, store`tPos, store`used
      ensures Safe() && !corrupt && old(nblock_used) < nblock_used <= save_nblock + 2 && state_out_len > 0
      ensures old(Going(0, goal)) ==> Going(state_out_len, goal)
    {
      hide *;
      SafeParts();
      ghost var p := nblock_used - 1;
      var k1, stop;
      corrupt, k1, stop := ScanFirst(fast, goal);
      if stop { return; }
      corrupt, k1, stop := ScanStep(2, p, k1, goal);
      if stop { return; }
      corrupt, k1, stop := ScanStep(3, p, k1, goal);
      if stop { return; }
      corrupt := ScanCount(p, k1, goal);
    }

    /** FAST: the pending run goes out; a new one is started even when there is no room left. */
    method UnRleFast(ghost goal: seq<Byte>) returns (corrupt: bool)
      requires Safe()
      modifies this, strm, store`tPos, store`used
      ensures Safe() && save_nblock == old(save_nblock)
      ensures Appended(old(strm.out), strm.out, old(produced), produced)
      ensures |strm.out| + strm.avail_out == old(|strm.out| + strm.avail_out)
      ensures !corrupt ==>
        (strm.avail_out == 0 && state_out_len > 0) || (nblock_used == save_nblock + 1 && state_out_len == 0)
      ensures old(Going(state_out_len, goal)) ==> !corrupt && Going(state_out_len, goal)
    {
      hide *;
      SafeParts();
      ghost var good := Going(state_out_len, goal);
      AppendedNone(strm.out, produced);
      while true
        invariant Safe() && save_nblock == old(save_nblock)
        invariant Appended(old(strm.out), strm.out, old(produced), produced)
        invariant |strm.out| + strm.avail_out == old(|strm.out| + strm.avail_out)
        invariant good ==> Going(state_out_len, goal)
        decreases if nblock_used <= save_nblock then save_nblock + 3 - nblock_used else 0
      {
        ghost var o, p := strm.out, produced;
        var full := EmitRun(goal);
        AppendedTrans(old(strm.out), o, strm.out, old(produced), p, produced);
        if full { return false; }
        SafeParts();
        if good { GoingParts(0, goal); }
        if nblock_used > save_nblock + 1 { return true; }
        if nblock_used == save_nblock + 1 {
          state_out_len := 0;
          return false;
        }
        corrupt := ScanRun(true, goal);
        if corrupt { return; }
      }
    }

    /** SMALL: stops as soon as there is no room, even between runs. */
    method UnRleSmall(ghost goal: seq<Byte>) returns (corrupt: bool)
      requires Safe()
      modifies this, strm, store`tPos, store`used
      ensures Safe() && save_nblock == old(save_nblock)
      ensures Appended(old(strm.out), strm.out, old(produced), produced)
      ensures |strm.out| + strm.avail_out == old(|strm.out| + strm.avail_out)
      ensures !corrupt ==> strm.avail_out == 0 || (nblock_used == save_nblock + 1 && state_out_len == 0)
      ensures old(Going(state_out_len, goal)) ==> !corrupt && Going(state_out_len, goal)
    {
      hide *;
      SafeParts();
      ghost var good := Going(state_out_len, goal);
      AppendedNone(strm.out, produced);
      while true
        invariant Safe() && save_nblock == old(save_nblock)
        invariant Appended(old(strm.out), strm.out, old(produced), produced)
        invariant |strm.out| + strm.avail_out == old(|strm.out| + strm.avail_out)
        invariant good ==> Going(state_out_len, goal)
        decreases if nblock_used <= save_nblock then save_nblock + 3 - nblock_used else 0
      {
        ghost var o, p := strm.out, produced;
        var full := EmitRun(goal);
        AppendedTrans(old(strm.out), o, strm.out, old(produced), p, produced);
        if full || strm.avail_out == 0 { return false; }
        SafeParts();
        if good { GoingParts(0, goal); }
        if nblock_used == save_nblock + 1 { return false; }
        if nblock_used > save_nblock + 1 { return true; }
        corrupt := ScanRun(false, goal);
        if corrupt { return; }
      }
    }

    /** Puts out the pending run as far as there is room. */
    method EmitRun(ghost goal: seq<Byte>) returns (full: bool)
      requires Safe()
      modifies `state_out_len, `calculatedBlockCRC, `produced, strm
      ensures Safe() && Appended(old(strm.out), strm.out, old(produced), produced)
      ensures |strm.out| + strm.avail_out == old(|strm.out| + strm.avail_out)
      ensures full ==> strm.avail_out == 0 && state_out_len > 0
      ensures !full ==> state_out_len == 0
      ensures old(Going(state_out_len, goal)) ==> Going(state_out_len, goal)
    {
      hide *;
      SafeParts();
      ghost var good := Going(state_out_len, goal);
      AppendedNone(strm.out, produced);
      while state_out_len > 0
        invariant Safe() && Appended(old(strm.out), strm.out, old(produced), produced)
        invariant |strm.out| + strm.avail_out == old(|strm.out| + strm.avail_out)
        invariant good ==> Going(state_out_len, goal)
        decreases state_out_len
      {
        SafeParts();
        if strm.avail_out == 0 { return true; }
        ghost var o, p := strm.out, produced;
        Emit(goal, state_out_len);
        AppendedPush(old(strm.out), o, old(produced), p, state_out_ch);
        state_out_len := state_out_len - 1;
      }
      full := false;
    }
  }

  /** The bytes added to what was produced are the bytes added to the output. */
  ghost predicate Appended(out0: seq<Byte>, out: seq<Byte>, p0: seq<Byte>, p: seq<Byte>) {
    p0 <= p && out == out0 + p[|p0|..]
  }

  lemma AppendedNone(out: seq<Byte>, p: seq<Byte>)
    ensures Appended(out, out, p, p)
  {
  }

  lemma AppendedPush(out0: seq<Byte>, out: seq<Byte>, p0: seq<Byte>, p: seq<Byte>, c: Byte)
    requires Appended(out0, out, p0, p)
    ensures Appended(out0, out + [c], p0, p + [c])
  {
    assert (p + [c])[|p0|..] == p[|p0|..] + [c];
  }

  lemma AppendedTrans(out0: seq<Byte>, out1: seq<Byte>, out2: seq<Byte>, p0: seq<Byte>, p1: seq<Byte>, p2: seq<Byte>)
    requires Appended(out0, out1, p0, p1) && Appended(out1, out2, p1, p2)
    ensures Appended(out0, out2, p0, p2)
  {
    assert p2[|p0|..] == p1[|p0|..] + p2[|p1|..];
  }

  lemma BlockSize(store: BlockStore)
    requires store.row < |store.last|
    ensures |store.Block()| == |store.last|
  {
  }

  lemma Whole0(b: seq<Byte>, ch: Byte)
    requires Whole(b)
    ensures Remaining(b, 0, [], ch, 0, Unpacked(b))
  {
    assert b[0..] == b;
    assert [] + Run(ch, 0) + Unpacked(b) == Unpacked(b);
  }
}
