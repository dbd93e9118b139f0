/** The compressor as its callers see it: input arrives and output leaves in pieces of any size. */
module Compressor {
  import opened MachineInts
  import opened BitTables
  import opened BitStream
  import opened BitFields
  import opened BlockHeader
  import opened BlockCrc
  import opened RunLength
  import opened InputBlock
  import opened BlockEncoder
  import opened StreamFormat
  import opened BlockSize

  datatype Mode = Idle | Running | Flushing | Finishing
  datatype State = Output | Input
  datatype Action = RUN | FLUSH | FINISH
  datatype Code = RUN_OK | FLUSH_OK | FINISH_OK | STREAM_END | SEQUENCE_ERROR | PARAM_ERROR

  /** What the caller offers: bytes to read, room to write, and everything written to it so far. */
  class BzStream {
    var next_in: seq<Byte>
    var out: seq<Byte>
    var avail_out: nat

    constructor ()
      ensures next_in == [] && out == [] && avail_out == 0
    {
      next_in, out, avail_out := [], [], 0;
    }
  }

  /** The working storage of the block coder. */
  class Workspace {
    const arr1: array<UInt32>
    const ftab: array<Word>
    const unseqToSeq: array<Byte>
    const mtfFreq: array<nat>

    ghost predicate Sized(n: nat) {
      arr1.Length == n && ftab.Length == 65537 && unseqToSeq.Length == 256 && mtfFreq.Length == 258
    }

    constructor (n: nat)
      ensures Sized(n) && fresh(arr1) && fresh(ftab) && fresh(unseqToSeq) && fresh(mtfFreq)
    {
      arr1 := new UInt32[n];
      ftab := new Word[65537];
      unseqToSeq := new Byte[256];
      mtfFreq := new nat[258];
    }
  }

  /** Sends a block of runs; an empty block sends nothing. */
  method SendRuns(w: BitWriter, ws: Workspace, input: InputBlock, crc: bv32, level: nat, workFactor: int)
    returns (ghost piece: seq<bool>)
    requires w.Valid() && 1 <= level <= 9 && ws.Sized(100_000 * level) && ws.arr1 != input.arr2
    requires input.inUse.Length == 256 && input.nblockMAX == 100_000 * level - 19
    requires 0 < input.nblock <= input.nblockMAX + 9
    requires input.arr2.Length == 100_000 * level + 34
    requires Filled(input.arr2[..], input.inUse[..], input.blockCRC, input.nblock, input.runs)
    requires crc == FinalCrc(input.blockCRC)
    modifies w, ws.arr1, ws.ftab, ws.unseqToSeq, ws.mtfFreq, input.arr2
    ensures w.Valid() && old(w.zbits) <= w.zbits
    ensures w.Bits() == old(w.Bits()) + piece && HoldsRuns(piece, input.runs, level)
  {
    hide *;
    WorkspaceParts(ws, 100_000 * level);
    FilledParts(input.arr2[..], input.inUse[..], input.blockCRC, input.nblock, input.runs);
    InUseAll(input.inUse[..], Pack(input.runs));
    CrcNumberIs(crc);
    piece := SendBlock(w, ws.arr1, input.arr2, ws.ftab, input.inUse, ws.unseqToSeq, ws.mtfFreq, input.nblock,
                       CrcNumber(crc), workFactor);
    HoldsRunsIs(piece, input.runs, level);
  }

  lemma WorkspaceParts(ws: Workspace, n: nat)
    requires ws.Sized(n)
    ensures ws.arr1.Length == n && ws.ftab.Length == 65537 && ws.unseqToSeq.Length == 256 && ws.mtfFreq.Length == 258
  {
  }

  lemma {:induction false} HoldsRunsIs(bits: seq<bool>, rs: seq<Pair>, level: nat)
    requires Separated(rs) && 0 < |Pack(rs)| <= 100_000 * level
    requires HoldsBlock(bits, Pack(rs), FinalCrc(CrcOf(Expand(rs))) as nat)
    ensures HoldsRuns(bits, rs, level)
  {
  }

  lemma EmptyRuns(ps: seq<Pair>)
    requires Separated(ps) && Pack(ps) == []
    ensures ps == [] && Expand(ps) == []
  {
  }

  /** The state of a compression in progress. */
  class EState {
    const strm: BzStream
    const input: InputBlock
    const w: BitWriter
    const ws: Workspace
    const level: nat
    const workFactor: nat
    var mode: Mode
    var state: State
    var avail_in_expect: nat
    var state_out_pos: nat
    var blockNo: nat
    var combinedCRC: bv32
    /** The runs of every block sent, and the bits that hold them. */
    ghost var rss: seq<seq<Pair>>
    /** How many blocks have been sent before they were full. */
    ghost var short: nat
    ghost var pieces: seq<seq<bool>>
    /** Bytes of earlier blocks, all handed over. */
    ghost var sent: seq<Byte>
    /** All input taken from the caller. */
    ghost var accepted: seq<Byte>
    /** The trailer has been written, followed by padding. */
    ghost var closed: bool
    ghost var pad: seq<bool>

    ghost predicate Sized() {
      && 1 <= level <= 9 && ws.Sized(100_000 * level) && ws.arr1 != input.arr2
      && input.inUse.Length == 256 && input.nblockMAX == 100_000 * level - 19
      && input.arr2.Length == 100_000 * level + 34
    }

    /** Everything sent so far is header and blocks. */
    ghost predicate Sending(begun: bool)
      requires 1 <= level <= 9
      reads this, w
    {
      w.Valid() && BytesToBits(sent) + w.Bits() == Sofar(begun, level, pieces)
    }

    /** Everything sent is a complete stream. */
    ghost predicate Closed()
      requires 1 <= level <= 9
      reads this, w
    {
      IsStreamOf(sent + w.zbits, level, rss, pieces, pad)
    }

    /** The caller has received all bytes of earlier blocks and the first few of this one. */
    ghost predicate Outgoing()
      reads this, w, strm`out
    {
      state_out_pos <= |w.zbits| && strm.out == sent + w.zbits[..state_out_pos]
    }

    /** All other blocks were full. */
    ghost predicate ManyFull()
      reads `rss, `short
    {
      level >= 1 && MostlyFull(rss, short, 100_000 * level - 19)
    }

    ghost predicate Blocks()
      reads this
    {
      HoldsAll(pieces, rss, level) && combinedCRC == StreamCrc(rss) && blockNo >= 1 && ManyFull()
    }

    /** Taking in input: what was accepted is in sent blocks, in the block being filled, or pending. */
    ghost predicate Filling()
      reads this, input, input.arr2, input.inUse, w
    {
      && input.Valid() && !closed && w.zbits == [] && state_out_pos == 0 && (blockNo <= 1 ==> pieces == [])
      && accepted == Content(rss) + input.Accepted()
    }

    /** Handing out a block: what was accepted is in sent blocks or pending. */
    ghost predicate Emptying()
      reads this, input
    {
      && Pending(input.runs, input.state_in_ch, input.state_in_len)
      && accepted == Content(rss) + Waiting(input.state_in_ch, input.state_in_len)
      && (mode != Flushing && !closed ==> input.state_in_ch < NO_CHAR)
    }

    ghost predicate Valid()
      reads this, input, input.arr2, input.inUse, w, strm`out
    {
      && Sized() && Blocks() && Outgoing()
      && (closed ==> Closed() && state == Output && (mode == Finishing || mode == Idle))
      && (closed ==> input.state_in_ch == NO_CHAR && avail_in_expect == 0)
      && (mode == Idle ==> closed && state_out_pos == |w.zbits|)
      && (!closed ==> Sending(blockNo > 1 || state == Output))
      && (state == Input ==> Filling())
      && (state == Output ==> Emptying())
    }

    constructor (strm: BzStream, blockSize100k: nat, workFactor: nat)
      requires 1 <= blockSize100k <= 9 && workFactor <= 250 && strm.out == []
      ensures Valid() && this.strm == strm && level == blockSize100k
      ensures mode == Running && state == Input && accepted == [] && rss == [] && short == 0
      ensures fresh(input) && fresh(input.arr2) && fresh(input.inUse) && fresh(w) && fresh(ws)
      ensures fresh(ws.arr1) && fresh(ws.ftab) && fresh(ws.unseqToSeq) && fresh(ws.mtfFreq)
    {
      hide *;
      var n := 100_000 * blockSize100k;
      var i := new InputBlock(blockSize100k);
      this.strm, level, input := strm, blockSize100k, i;
      this.workFactor := if workFactor == 0 then 30 else workFactor;
      w := new BitWriter();
      ws := new Workspace(n);
      mode, state, avail_in_expect, state_out_pos, blockNo, combinedCRC := Running, Input, 0, 0, 1, 0;
      rss, pieces, sent, accepted, closed, pad, short := [], [], [], [], false, [], 0;
      new;
      SizedIf();
      Start();
    }

    lemma SizedIf()
      requires 1 <= level <= 9 && ws.Sized(100_000 * level) && ws.arr1 != input.arr2
      requires input.inUse.Length == 256 && input.nblockMAX == 100_000 * level - 19
      requires input.arr2.Length == 100_000 * level + 34
      ensures Sized()
    {
    }

    lemma Start()
      requires Sized() && input.Valid() && input.Accepted() == [] && w.Valid() && w.Bits() == [] && w.zbits == []
      requires strm.out == [] && state == Input && mode == Running && state_out_pos == 0 && blockNo == 1
      requires combinedCRC == 0
      requires rss == [] && pieces == [] && sent == [] && accepted == [] && !closed && short == 0
      ensures Valid()
    {
      hide *;
      SizedParts();
      NoBlocks(level);
      FullStart();
      SofarStart(level);
      NoBytes();
      assert [] + input.Accepted() == [] && BytesToBits(sent) + w.Bits() == [] && sent + w.zbits[..0] == [];
      BlocksIs();
      OutgoingIs();
      FillingIs();
      SendingIs(false);
      Again();
    }

    lemma FullStart()
      requires rss == [] && short == 0 && level >= 1
      ensures ManyFull()
    {
      FullNone(100_000 * level - 19);
    }

    /** One more block; a short one if it was not full. */
    lemma FullMore(before: seq<seq<Pair>>, few: nat, rs: seq<Pair>)
      requires level >= 1 && MostlyFull(before, few, 100_000 * level - 19) && Separated(rs) && rss == before + [rs]
      requires short == few + (if |Pack(rs)| < 100_000 * level - 19 then 1 else 0)
      ensures ManyFull()
    {
      FullPush(before, rs, few, 100_000 * level - 19);
    }

    lemma FullIs()
      ensures ManyFull() <==> level >= 1 && MostlyFull(rss, short, 100_000 * level - 19)
    {
    }

    lemma SizedParts()
      requires Sized()
      ensures 1 <= level <= 9 && ws.Sized(100_000 * level) && ws.arr1 != input.arr2
      ensures input.inUse.Length == 256 && input.nblockMAX == 100_000 * level - 19
      ensures input.arr2.Length == 100_000 * level + 34
    {
    }

    lemma Parts()
      requires Valid()
      ensures Sized() && 1 <= level <= 9 && Blocks() && Outgoing()
      ensures closed ==> Closed() && state == Output && (mode == Finishing || mode == Idle)
      ensures closed ==> input.state_in_ch == NO_CHAR && avail_in_expect == 0
      ensures mode == Idle ==> closed && state_out_pos == |w.zbits|
      ensures !closed ==> Sending(blockNo > 1 || state == Output)
      ensures state == Input ==> Filling()
      ensures state == Output ==> Emptying()
    {
    }

    lemma Again()
      requires Sized() && 1 <= level <= 9 && Blocks() && Outgoing()
      requires closed ==> Closed() && state == Output && (mode == Finishing || mode == Idle)
      requires closed ==> input.state_in_ch == NO_CHAR && avail_in_expect == 0
      requires mode == Idle ==> closed && state_out_pos == |w.zbits|
      requires !closed ==> Sending(blockNo > 1 || state == Output)
      requires state == Input ==> Filling()
      requires state == Output ==> Emptying()
      ensures Valid()
    {
    }

    lemma BlocksIs()
      ensures Blocks() <==> HoldsAll(pieces, rss, level) && combinedCRC == StreamCrc(rss) && blockNo >= 1 && ManyFull()
    {
    }

    lemma SendingIs(begun: bool)
      requires 1 <= level <= 9
      ensures Sending(begun) <==> w.Valid() && BytesToBits(sent) + w.Bits() == Sofar(begun, level, pieces)
    {
    }

    lemma {:induction false} ClosedIs(all: seq<bool>)
      requires 1 <= level <= 9 && HoldsAll(pieces, rss, level) && |pad| < 8
      requires BytesToBits(sent) + all == Sofar(true, level, pieces) + TrailerBits(StreamCrc(rss))
      requires BytesToBits(w.zbits) == all + pad
      ensures Closed()
    {
      hide *;
      BytesAppend(sent, w.zbits);
      Shift(BytesToBits(sent), all, pad);
      ClosedIf();
    }

    lemma ClosedIf()
      requires 1 <= level <= 9 && HoldsAll(pieces, rss, level) && |pad| < 8
      requires BytesToBits(sent + w.zbits) == Sofar(true, level, pieces) + TrailerBits(StreamCrc(rss)) + pad
      ensures Closed()
    {
    }

    lemma OutgoingIs()
      ensures Outgoing() <==> state_out_pos <= |w.zbits| && strm.out == sent + w.zbits[..state_out_pos]
    {
    }

    lemma FillingIs()
      ensures Filling() <==>
        && input.Valid() && !closed && w.zbits == [] && state_out_pos == 0 && (blockNo <= 1 ==> pieces == [])
        && accepted == Content(rss) + input.Accepted()
    {
    }

    lemma EmptyingIs()
      ensures Emptying() <==>
        && Pending(input.runs, input.state_in_ch, input.state_in_len)
        && accepted == Content(rss) + Waiting(input.state_in_ch, input.state_in_len)
        && (mode != Flushing && !closed ==> input.state_in_ch < NO_CHAR)
    {
    }

    /** Sends the runs of the block as one block of the stream. */
    method SendBlockRuns()
      requires Sized() && 1 <= level <= 9 && Blocks() && Sending(true) && 0 < input.nblock <= input.nblockMAX + 9
      requires Filled(input.arr2[..], input.inUse[..], input.blockCRC, input.nblock, input.runs)
      modifies `combinedCRC, `rss, `short, `pieces, w, ws.arr1, ws.ftab, ws.unseqToSeq, ws.mtfFreq, input.arr2
      ensures Blocks() && Sending(true) && rss == old(rss) + [input.runs] && old(w.zbits) <= w.zbits
      ensures short == old(short) + (if input.nblock < input.nblockMAX then 1 else 0)
    {
      hide *;
      SizedParts();
      BlocksIs();
      SendingIs(true);
      FilledParts(input.arr2[..], input.inUse[..], input.blockCRC, input.nblock, input.runs);
      var crc := FinalCrc(input.blockCRC);
      combinedCRC := FoldCrc(combinedCRC, crc);
      StreamCrcPush(rss, input.runs);
      ghost var before := w.Bits();
      ghost var piece := SendRuns(w, ws, input, crc, level, workFactor);
      Shift(BytesToBits(sent), before, piece);
      SofarPush(level, pieces, piece);
      HoldsPush(pieces, rss, level, piece, input.runs);
      pieces := pieces + [piece];
      FullIs();
      ghost var few, sofar := short, rss;
      rss := rss + [input.runs];
      short := short + (if input.nblock < input.nblockMAX then 1 else 0);
      FullMore(sofar, few, input.runs);
      BlocksIs();
      SendingIs(true);
    }

    /** The stream header goes before the first block. */
    method SendHeader()
      requires 1 <= level <= 9 && Sending(false) && pieces == []
      modifies w
      ensures Sending(true) && old(w.zbits) <= w.zbits
    {
      hide *;
      SendingIs(false);
      SofarStart(level);
      var c: Byte := 0x30 + level;
      PutBytes(w, [0x42, 0x5a, 0x68, c]);
      HeaderIs(level, c);
      assert BytesToBits(sent) + (w.Bits()) == w.Bits() by { EmptyFront(BytesToBits(sent), old(w.Bits())); }
      EmptyFront(BytesToBits(sent), old(w.Bits()));
      assert [] + HeaderBits(level) == HeaderBits(level);
      SendingIs(true);
    }

    /** The trailer, with the checksum of the whole stream, and padding to a byte. */
    method SendTrailer()
      requires 1 <= level <= 9 && Blocks() && Sending(true)
      modifies `closed, `pad, w
      ensures Blocks() && Closed() && closed && old(w.zbits) <= w.zbits
    {
      hide *;
      SendingIs(true);
      BlocksIs();
      ghost var before := w.Bits();
      PutBytes(w, END_MAGIC);
      CrcNumberIs(combinedCRC);
      PutUInt32(w, CrcNumber(combinedCRC));
      TrailerIs(StreamCrc(rss));
      ghost var all := w.Bits();
      Shift(before, BytesToBits(END_MAGIC), ToBits(CrcNumber(combinedCRC), 32));
      Shift(BytesToBits(sent), before, TrailerBits(StreamCrc(rss)));
      w.Finish();
      ghost var p: seq<bool> :| |p| < 8 && BytesToBits(w.zbits) == all + p;
      pad := p;
      closed := true;
      BlocksIs();
      ClosedIs(all);
    }

    /** Turns the block that has been filled into bits; the last block is followed by the trailer. */
    method CompressBlock(isLast: bool)
      requires Sized() && 1 <= level <= 9 && Blocks() && Sending(blockNo > 1) && (blockNo <= 1 ==> pieces == [])
      requires !closed
      requires input.nblock <= input.nblockMAX + 9
      requires Filled(input.arr2[..], input.inUse[..], input.blockCRC, input.nblock, input.runs)
      modifies `combinedCRC, `rss, `short, `pieces, `closed, `pad, w, ws.arr1, ws.ftab, ws.unseqToSeq, ws.mtfFreq
      modifies input.arr2
      ensures Blocks() && old(w.zbits) <= w.zbits && Content(rss) == old(Content(rss)) + Expand(input.runs)
      ensures closed == isLast && (isLast ==> Closed()) && (!isLast ==> Sending(true))
      ensures short <= old(short) + 1 && (input.nblock >= input.nblockMAX ==> short == old(short))
    {
      hide *;
      if blockNo <= 1 { SendHeader(); }
      if input.nblock > 0 {
        SendBlockRuns();
        ContentPush(old(rss), input.runs);
      } else {
        FilledParts(input.arr2[..], input.inUse[..], input.blockCRC, input.nblock, input.runs);
        assert Pack(input.runs) == [];
        EmptyRuns(input.runs);
        assert Content(rss) + [] == Content(rss);
      }
      if isLast { SendTrailer(); }
    }

    /** Hands over bytes of the block, as far as there is room. */
    method CopyOutputUntilStop() returns (progress_out: bool)
      requires Outgoing()
      modifies `state_out_pos, strm`out, strm`avail_out
      ensures Outgoing() && (strm.avail_out == 0 || state_out_pos == |w.zbits|) && state_out_pos >= old(state_out_pos)
      ensures old(strm.out) <= strm.out && |strm.out| + strm.avail_out == old(|strm.out| + strm.avail_out)
      ensures progress_out <==> |strm.out| > |old(strm.out)|
    {
      progress_out := false;
      while true
        invariant Outgoing() && state_out_pos >= old(state_out_pos)
        invariant old(strm.out) <= strm.out && |strm.out| + strm.avail_out == old(|strm.out| + strm.avail_out)
        invariant progress_out <==> |strm.out| > |old(strm.out)|
        decreases strm.avail_out
      {
        if strm.avail_out == 0 { break; }
        if state_out_pos >= |w.zbits| { break; }
        progress_out := true;
        strm.out := strm.out + [w.zbits[state_out_pos]];
        state_out_pos := state_out_pos + 1;
        strm.avail_out := strm.avail_out - 1;
      }
    }

    /** Takes in bytes until the block is full, the input is used up, or what was to be flushed has arrived. */
    method CopyInputUntilStop() returns (progress_in: bool)
      requires input.Valid() && (mode != Running ==> avail_in_expect == |strm.next_in|)
      requires accepted == Content(rss) + input.Accepted()
      modifies `avail_in_expect, `accepted, strm`next_in, input, input.arr2, input.inUse
      ensures input.Valid() && (mode != Running ==> avail_in_expect == |strm.next_in|)
      ensures accepted == Content(rss) + input.Accepted()
      ensures accepted + strm.next_in == old(accepted) + old(strm.next_in) && |strm.next_in| <= |old(strm.next_in)|
      ensures input.nblock >= input.nblockMAX || strm.next_in == []
      ensures progress_in <==> |strm.next_in| < |old(strm.next_in)|
      ensures progress_in ==> input.state_in_ch < NO_CHAR
      ensures !progress_in ==> input.nblock == old(input.nblock) && input.state_in_ch == old(input.state_in_ch)
    {
      hide *;
      Constants();
      progress_in := false;
      while true
        invariant input.Valid() && (mode != Running ==> avail_in_expect == |strm.next_in|)
        invariant accepted == Content(rss) + input.Accepted()
        invariant accepted + strm.next_in == old(accepted) + old(strm.next_in) && |strm.next_in| <= |old(strm.next_in)|
        invariant progress_in <==> |strm.next_in| < |old(strm.next_in)|
        invariant progress_in ==> input.state_in_ch < NO_CHAR
        invariant !progress_in ==> input.nblock == old(input.nblock) && input.state_in_ch == old(input.state_in_ch)
        decreases |strm.next_in|
      {
        if input.nblock >= input.nblockMAX { break; }
        if |strm.next_in| == 0 { break; }
        if mode != Running && avail_in_expect == 0 { break; }
        progress_in := true;
        ghost var taken, all := input.Accepted(), strm.next_in;
        var c := strm.next_in[0];
        input.AddChar(c);
        strm.next_in := strm.next_in[1..];
        accepted := accepted + [c];
        assert Content(rss) + taken + [c] == Content(rss) + (taken + [c]);
        assert all == [c] + strm.next_in;
        if mode != Running { avail_in_expect := avail_in_expect - 1; }
      }
    }

    /** Forgets the bytes of a block that have all been handed over. */
    method ForgetOutput()
      requires 1 <= level <= 9 && w.Valid() && state_out_pos == |w.zbits| && strm.out == sent + w.zbits[..state_out_pos]
      modifies `state_out_pos, `sent, w`zbits
      ensures w.Valid() && w.zbits == [] && state_out_pos == 0 && sent == strm.out
      ensures BytesToBits(sent) + w.Bits() == old(BytesToBits(sent) + w.Bits())
    {
      hide *;
      assert w.zbits[..state_out_pos] == w.zbits;
      BytesAppend(sent, w.zbits);
      ghost var z := w.zbits;
      w.Reset();
      Shift(BytesToBits(sent), BytesToBits(z), w.Bits());
      sent := sent + z;
      state_out_pos := 0;
    }

    /** Starts the next block, once the bytes of this one have been handed over. */
    method PrepareNewBlock()
      requires Valid() && state == Output && !closed && state_out_pos == |w.zbits|
      modifies `state, `state_out_pos, `blockNo, `sent, w`zbits, input, input.inUse
      ensures Valid() && state == Input && input.nblock == 0 && input.state_in_ch == old(input.state_in_ch)
    {
      hide *;
      Parts();
      SizedParts();
      BlocksIs();
      OutgoingIs();
      SendingIs(true);
      EmptyingIs();
      StillPending(input.runs, input.state_in_ch, input.state_in_len);
      BlockSizes(level);
      input.Clear();
      ForgetOutput();
      blockNo := blockNo + 1;
      state := Input;
      assert sent + w.zbits[..0] == sent;
      BlocksIs();
      OutgoingIs();
      SendingIs(true);
      FillingIs();
      Again();
    }

    /** What each part of Valid says about the fields. */
    lemma Facts()
      requires 1 <= level <= 9
      ensures Blocks() <==> HoldsAll(pieces, rss, level) && combinedCRC == StreamCrc(rss) && blockNo >= 1 && ManyFull()
      ensures Outgoing() <==> state_out_pos <= |w.zbits| && strm.out == sent + w.zbits[..state_out_pos]
      ensures Filling() <==>
        && input.Valid() && !closed && w.zbits == [] && state_out_pos == 0 && (blockNo <= 1 ==> pieces == [])
        && accepted == Content(rss) + input.Accepted()
      ensures Emptying() <==>
        && Pending(input.runs, input.state_in_ch, input.state_in_len)
        && accepted == Content(rss) + Waiting(input.state_in_ch, input.state_in_len)
        && (mode != Flushing && !closed ==> input.state_in_ch < NO_CHAR)
      ensures Sending(true) <==> w.Valid() && BytesToBits(sent) + w.Bits() == Sofar(true, level, pieces)
      ensures Sending(false) <==> w.Valid() && BytesToBits(sent) + w.Bits() == Sofar(false, level, pieces)
      ensures Closed() <==> IsStreamOf(sent + w.zbits, level, rss, pieces, pad)
    {
    }

    /** All input that was to be flushed has arrived and is in the block already sent. */
    ghost predicate Drained()
      reads this, input
    {
      mode != Running && avail_in_expect == 0 && input.state_in_ch == NO_CHAR
    }

    /** Nothing more can be done: the caller has no room, or the stream is complete, or the flush is. */
    ghost predicate AtRest()
      reads this, input, w, strm
    {
      || (state == Output && state_out_pos < |w.zbits| && strm.avail_out == 0)
      || (closed && state_out_pos == |w.zbits|)
      || (state == Input && mode == Flushing && Drained())
    }

    lemma AtRestIs()
      ensures AtRest() <==>
        || (state == Output && state_out_pos < |w.zbits| && strm.avail_out == 0)
        || (closed && state_out_pos == |w.zbits|)
        || (state == Input && mode == Flushing && Drained())
    {
    }

    lemma DrainedIs()
      ensures Drained() <==> mode != Running && avail_in_expect == 0 && input.state_in_ch == NO_CHAR
    {
    }

    lemma NotPending()
      requires input.Valid() && input.state_in_ch == NO_CHAR
      ensures input.nblock == 0
    {
      assert Pack(input.runs) == [];
    }

    /** One round of handing out; stop if the caller has no room, or there is nothing more to do. */
    method OutputStep() returns (progress_out: bool, stop: bool)
      requires Valid() && state == Output && (mode == Flushing || mode == Finishing || mode == Running)
      modifies `state, `state_out_pos, `blockNo, `sent, w`zbits, input, input.inUse, strm`out, strm`avail_out
      ensures Valid() && (progress_out <==> |strm.out| > |old(strm.out)|)
      ensures old(strm.out) <= strm.out && |strm.out| + strm.avail_out == old(|strm.out| + strm.avail_out)
      ensures stop ==> AtRest()
      ensures !stop ==> state == Input && input.nblock == 0 && !Drained() && !old(Drained())
      ensures !stop ==> !closed
    {
      hide *;
      Constants();
      Parts();
      DrainedIs();
      EmptyingIs();
      Facts();
      progress_out := CopyOutputUntilStop();
      Facts();
      Again();
      AtRestIs();
      if state_out_pos < |w.zbits| { return progress_out, true; }
      var empty := input.IsEmptyRL();
      if mode == Finishing && avail_in_expect == 0 && empty { return progress_out, true; }
      PrepareNewBlock();
      DrainedIs();
      AtRestIs();
      if mode == Flushing && avail_in_expect == 0 && empty { return progress_out, true; }
      stop := false;
    }

    /** Sends the block and turns to handing it over. */
    method SendAndTurn(isLast: bool)
      requires Sized() && 1 <= level <= 9 && Blocks() && Sending(blockNo > 1) && (blockNo <= 1 ==> pieces == [])
      requires !closed
      requires input.nblock <= input.nblockMAX + 9
      requires Filled(input.arr2[..], input.inUse[..], input.blockCRC, input.nblock, input.runs)
      modifies `state, `combinedCRC, `rss, `short, `pieces, `closed, `pad, w, ws.arr1, ws.ftab, ws.unseqToSeq
      modifies ws.mtfFreq
      modifies input.arr2
      ensures Blocks() && old(w.zbits) <= w.zbits && Content(rss) == old(Content(rss)) + Expand(input.runs)
      ensures closed == isLast && (isLast ==> Closed()) && (!isLast ==> Sending(true)) && state == Output
      ensures short <= old(short) + 1 && (input.nblock >= input.nblockMAX ==> short == old(short))
    {
      hide *;
      CompressBlock(isLast);
      Facts();
      state := Output;
      Facts();
    }

    /** Stores what is pending and sends the block; the last one if the stream is being finished. */
    method EndBlock()
      requires Valid() && state == Input && (mode == Flushing || mode == Finishing) && avail_in_expect == 0
      modifies `state, `combinedCRC, `rss, `short, `pieces, `closed, `pad, input, input.arr2, input.inUse, w, ws.arr1
      modifies ws.ftab, ws.unseqToSeq, ws.mtfFreq
      ensures Valid() && state == Output && Drained()
      ensures short <= old(short) + 1 && (closed <==> mode == Finishing)
    {
      hide *;
      Constants();
      Parts();
      SizedParts();
      Facts();
      input.Parts();
      input.FlushRL();
      SendAndTurn(mode == Finishing);
      input.AcceptedIs();
      WaitingIs(input.state_in_ch, input.state_in_len);
      assert Expand(input.runs) + [] == Expand(input.runs);
      assert Content(rss) + [] == Content(rss);
      PrefixOfNothing(w.zbits);
      Facts();
      DrainedIs();
      Again();
    }

    /** Sends a block that is full; the run that is pending goes into the next one. */
    method FullBlock()
      requires Valid() && state == Input && mode != Idle && input.nblock >= input.nblockMAX
      modifies `state, `combinedCRC, `rss, `short, `pieces, `closed, `pad, w, ws.arr1, ws.ftab, ws.unseqToSeq
      modifies ws.mtfFreq
      modifies input.arr2
      ensures Valid() && state == Output && short == old(short) && !closed
    {
      hide *;
      Constants();
      Parts();
      SizedParts();
      Facts();
      BlockSizes(level);
      input.Parts();
      if input.state_in_ch == NO_CHAR { NotPending(); }
      input.AcceptedIs();
      ghost var before := Content(rss);
      SendAndTurn(false);
      assert before + (Expand(input.runs) + Waiting(input.state_in_ch, input.state_in_len))
          == before + Expand(input.runs) + Waiting(input.state_in_ch, input.state_in_len);
      PrefixOfNothing(w.zbits);
      Facts();
      Again();
    }

    /** One round of taking in; stop when there is no more input. */
    method InputStep() returns (progress_in: bool, stop: bool)
      requires Valid() && state == Input && (mode == Flushing || mode == Finishing || mode == Running)
      requires mode != Running ==> avail_in_expect == |strm.next_in|
      modifies this, strm`next_in, input, input.arr2, input.inUse, w, ws.arr1, ws.ftab, ws.unseqToSeq, ws.mtfFreq
      ensures Valid() && mode == old(mode) && (mode != Running ==> avail_in_expect == |strm.next_in|)
      ensures accepted + strm.next_in == old(accepted) + old(strm.next_in) && |strm.next_in| <= |old(strm.next_in)|
      ensures progress_in <==> |strm.next_in| < |old(strm.next_in)|
      ensures stop ==> state == Input && mode == Running && strm.next_in == []
      ensures !stop ==> state == Output && (old(input.nblock) == 0 ==> progress_in || Drained())
      ensures !old(closed) && (mode == Finishing ==> short <= old(short) + (if closed then 1 else 0))
    {
      hide *;
      Parts();
      Facts();
      BlockSizes(level);
      progress_in := CopyInputUntilStop();
      Facts();
      Again();
      if mode != Running && avail_in_expect == 0 {
        EndBlock();
        stop := false;
      } else if input.nblock >= input.nblockMAX {
        FullBlock();
        stop := false;
      } else {
        stop := true;
      }
    }

    /** How much can still happen within one call. */
    ghost function Rank(): nat
      reads this, input
    {
      if state == Input then 2 else if Drained() then 0 else 1
    }

    lemma RankIs()
      ensures state == Input ==> Rank() == 2
      ensures state == Output && Drained() ==> Rank() == 0
      ensures state == Output && !Drained() ==> Rank() == 1
    {
    }

    /** Hands out, if a block is ready, and then takes in. */
    method Round() returns (moved: bool, taken: bool, stop: bool)
      requires Valid() && mode != Idle && (mode != Running ==> avail_in_expect == |strm.next_in|)
      modifies this, strm, input, input.arr2, input.inUse, w, ws.arr1, ws.ftab, ws.unseqToSeq, ws.mtfFreq
      ensures Valid() && mode == old(mode) && (mode != Running ==> avail_in_expect == |strm.next_in|)
      ensures accepted + strm.next_in == old(accepted) + old(strm.next_in) && |strm.next_in| <= |old(strm.next_in)|
      ensures old(strm.out) <= strm.out && |strm.out| + strm.avail_out == old(|strm.out| + strm.avail_out)
      ensures taken <==> |strm.next_in| < |old(strm.next_in)|
      ensures moved <==> |strm.out| > |old(strm.out)|
      ensures stop ==> AtRest() || (state == Input && mode == Running && strm.next_in == [])
      ensures !stop ==> taken || Rank() < old(Rank())
      ensures old(closed) ==> closed
      ensures mode == Finishing ==> short <= old(short) + (if closed && !old(closed) then 1 else 0)
    {
      hide *;
      RankIs();
      moved, taken, stop := false, false, false;
      if state == Output {
        moved, stop := OutputStep();
        if stop { return; }
      }
      taken, stop := InputStep();
      RankIs();
    }

    /** Moves input in and output out until neither side can go on. */
    method HandleCompress() returns (progress: bool)
      requires Valid() && mode != Idle && (mode != Running ==> avail_in_expect == |strm.next_in|)
      modifies this, strm, input, input.arr2, input.inUse, w, ws.arr1, ws.ftab, ws.unseqToSeq, ws.mtfFreq
      ensures Valid() && mode == old(mode) && (mode != Running ==> avail_in_expect == |strm.next_in|)
      ensures accepted + strm.next_in == old(accepted) + old(strm.next_in) && |strm.next_in| <= |old(strm.next_in)|
      ensures old(strm.out) <= strm.out && |strm.out| + strm.avail_out == old(|strm.out| + strm.avail_out)
      ensures progress <==> |strm.next_in| < |old(strm.next_in)| || |strm.out| > |old(strm.out)|
      ensures AtRest() || (state == Input && mode == Running && strm.next_in == [])
      ensures mode == Finishing ==> short <= old(short) + (if closed && !old(closed) then 1 else 0)
    {
      hide *;
      var progress_in, progress_out := false, false;
      while true
        invariant Valid() && mode == old(mode) && mode != Idle
        invariant (mode != Running ==> avail_in_expect == |strm.next_in|)
        invariant accepted + strm.next_in == old(accepted) + old(strm.next_in) && |strm.next_in| <= |old(strm.next_in)|
        invariant old(strm.out) <= strm.out && |strm.out| + strm.avail_out == old(|strm.out| + strm.avail_out)
        invariant progress_in <==> |strm.next_in| < |old(strm.next_in)|
        invariant progress_out <==> |strm.out| > |old(strm.out)|
        invariant mode == Finishing ==> short <= old(short) + (if closed && !old(closed) then 1 else 0)
        invariant old(closed) ==> closed
        decreases |strm.next_in|, Rank()
      {
        var moved, taken, stop := Round();
        progress_out := progress_out || moved;
        progress_in := progress_in || taken;
        if stop { break; }
      }
      progress := progress_in || progress_out;
    }

    lemma Finished()
      requires Valid() && closed && state_out_pos == |w.zbits|
      ensures IsStream(strm.out, level, rss) && accepted == Content(rss)
    {
      hide *;
      Parts();
      Facts();
      Constants();
      WaitingIs(input.state_in_ch, input.state_in_len);
      assert Content(rss) + [] == Content(rss);
      assert w.zbits[..state_out_pos] == w.zbits;
      StreamIs(strm.out, level, rss, pieces, pad);
    }

    lemma Flushed()
      requires Valid() && state == Input && input.state_in_ch == NO_CHAR
      ensures input.Accepted() == [] && accepted == Content(rss) && strm.out == sent && !closed
      ensures w.Valid() && BytesToBits(strm.out) + w.Bits() == Sofar(blockNo > 1, level, pieces)
      ensures HoldsAll(pieces, rss, level)
    {
      hide *;
      Parts();
      Facts();
      Constants();
      input.Parts();
      input.AcceptedIs();
      NothingExpanded();
      WaitingIs(input.state_in_ch, input.state_in_len);
      assert Content(rss) + [] == Content(rss) && sent + [] == sent;
      PrefixOfNothing(w.zbits);
    }

    lemma RunningFacts()
      requires Valid() && mode == Running
      ensures closed == false && (state == Output ==> input.state_in_ch < NO_CHAR)
    {
    }

    /** Announces a flush or the end: from now on exactly the input present is to be taken in. */
    method Announce(m: Mode)
      requires Valid() && mode == Running && (m == Flushing || m == Finishing)
      modifies `mode, `avail_in_expect
      ensures Valid() && mode == m && avail_in_expect == |strm.next_in|
    {
      hide *;
      Parts();
      Facts();
      RunningFacts();
      avail_in_expect := |strm.next_in|;
      mode := m;
      Facts();
      Again();
    }

    /** The mode changes back once a flush is complete, or ends for good once the stream is. */
    method Settle(m: Mode)
      requires Valid()
      requires || (mode == Flushing && m == Running && state == Input)
               || (mode == Finishing && m == Idle && closed && state_out_pos == |w.zbits|)
      modifies `mode
      ensures Valid() && mode == m
    {
      hide *;
      Parts();
      Facts();
      mode := m;
      Facts();
      Again();
    }

    lemma RestMeans()
      requires Valid() && AtRest() && avail_in_expect == 0 && input.state_in_ch == NO_CHAR && state_out_pos >= |w.zbits|
      ensures mode == Flushing ==> state == Input && Drained()
      ensures mode == Finishing ==> closed && state_out_pos == |w.zbits|
    {
    }

    lemma RestOtherwise()
      requires Valid() && AtRest()
      ensures avail_in_expect > 0 || input.state_in_ch != NO_CHAR || state_out_pos < |w.zbits| ==> strm.avail_out == 0
    {
    }

    /** Goes on with a flush that has been announced. */
    method ContinueFlush() returns (code: Code)
      requires Valid() && mode == Flushing && avail_in_expect == |strm.next_in|
      modifies this, strm, input, input.arr2, input.inUse, w, ws.arr1, ws.ftab, ws.unseqToSeq, ws.mtfFreq
      ensures Valid()
      ensures accepted + strm.next_in == old(accepted) + old(strm.next_in) && |strm.next_in| <= |old(strm.next_in)|
      ensures old(strm.out) <= strm.out && |strm.out| + strm.avail_out == old(|strm.out| + strm.avail_out)
      ensures code == FLUSH_OK || code == RUN_OK
      ensures code == FLUSH_OK ==> strm.avail_out == 0 && mode == Flushing && avail_in_expect == |strm.next_in|
      ensures code == RUN_OK ==> mode == Running && strm.next_in == [] && Content(rss) == accepted
      ensures code == RUN_OK ==> w.Valid() && HoldsAll(pieces, rss, level)
      ensures code == RUN_OK ==> BytesToBits(strm.out) + w.Bits() == Sofar(blockNo > 1, level, pieces)
    {
      hide *;
      var progress := HandleCompress();
      var empty := RunPending();
      RestOtherwise();
      if avail_in_expect > 0 || !empty || state_out_pos < |w.zbits| { return FLUSH_OK; }
      RestMeans();
      Settle(Running);
      Flushed();
      code := RUN_OK;
    }

    /** At rest in the middle of finishing there is no room, or something has been handed over. */
    lemma RestSays()
      requires Valid() && AtRest() && mode == Finishing
      ensures strm.avail_out == 0 || strm.out != []
    {
      hide *;
      Parts();
      Facts();
      AtRestIs();
      if closed && state_out_pos == |w.zbits| {
        Finished();
        StreamNotEmpty(strm.out, level, rss);
      }
    }

    /** What has been handed over is within the size of the blocks sent. */
    lemma OutSize()
      requires Valid()
      ensures HoldsAll(pieces, rss, level) && |Content(rss)| <= |accepted|
      ensures level >= 1 && MostlyFull(rss, short, 100_000 * level - 19)
      ensures 8 * |strm.out| <= 119 + |Flat(pieces, 0)|
    {
      hide *;
      Parts();
      Facts();
      FullIs();
      if closed {
        StreamOfParts(sent + w.zbits, level, rss, pieces, pad);
        SofarSize(true, level, pieces);
        TrailerSize(StreamCrc(rss));
      } else {
        SofarSize(blockNo > 1 || state == Output, level, pieces);
        w.BitsCover();
      }
    }

    /** Goes on with a finish that has been announced. */
    method ContinueFinish() returns (code: Code)
      requires Valid() && mode == Finishing && avail_in_expect == |strm.next_in|
      modifies this, strm, input, input.arr2, input.inUse, w, ws.arr1, ws.ftab, ws.unseqToSeq, ws.mtfFreq
      ensures Valid()
      ensures accepted + strm.next_in == old(accepted) + old(strm.next_in) && |strm.next_in| <= |old(strm.next_in)|
      ensures old(strm.out) <= strm.out && |strm.out| + strm.avail_out == old(|strm.out| + strm.avail_out)
      ensures code == FINISH_OK || code == STREAM_END || code == SEQUENCE_ERROR
      ensures code == FINISH_OK ==> strm.avail_out == 0 && mode == Finishing && avail_in_expect == |strm.next_in|
      ensures code == STREAM_END ==> mode == Idle && strm.next_in == [] && IsStream(strm.out, level, rss)
      ensures code == STREAM_END ==> Content(rss) == accepted
      ensures short <= old(short) + 1
      ensures code == SEQUENCE_ERROR ==> strm.avail_out == 0 || (strm.out != [] && |strm.out| == |old(strm.out)|)
    {
      hide *;
      var progress := HandleCompress();
      if !progress {
        RestSays();
        return SEQUENCE_ERROR;
      }
      var empty := RunPending();
      RestOtherwise();
      if avail_in_expect > 0 || !empty || state_out_pos < |w.zbits| { return FINISH_OK; }
      RestMeans();
      Settle(Idle);
      Finished();
      code := STREAM_END;
    }

    /** One call of the compressor. */
    method Compress(action: Action) returns (code: Code)
      requires Valid()
      modifies this, strm, input, input.arr2, input.inUse, w, ws.arr1, ws.ftab, ws.unseqToSeq, ws.mtfFreq
      ensures Valid()
      ensures accepted + strm.next_in == old(accepted) + old(strm.next_in) && |strm.next_in| <= |old(strm.next_in)|
      ensures old(strm.out) <= strm.out && |strm.out| + strm.avail_out == old(|strm.out| + strm.avail_out)
      ensures code == STREAM_END ==> mode == Idle && IsStream(strm.out, level, rss) && Content(rss) == accepted
      ensures code == STREAM_END ==> strm.next_in == []
      ensures code == FINISH_OK || code == FLUSH_OK ==> strm.avail_out == 0
      ensures action == FLUSH && code == RUN_OK ==> strm.next_in == [] && Content(rss) == accepted && w.Valid()
      ensures action == FLUSH && code == RUN_OK ==> HoldsAll(pieces, rss, level)
      ensures action == FLUSH && code == RUN_OK ==>
        BytesToBits(strm.out) + w.Bits() == Sofar(blockNo > 1, level, pieces)
      ensures mode == Flushing || mode == Finishing ==> code == SEQUENCE_ERROR || avail_in_expect == |strm.next_in|
      ensures old(mode) == Idle ==> code == SEQUENCE_ERROR
      ensures (old(mode) == Flushing && action != FLUSH) || (old(mode) == Finishing && action != FINISH) ==>
        code == SEQUENCE_ERROR
      ensures (old(mode) == Flushing || old(mode) == Finishing) && old(avail_in_expect) != |old(strm.next_in)| ==>
        code == SEQUENCE_ERROR
      ensures old(mode) == Running && action == FINISH ==>
        && short <= old(short) + 1 && (code == FINISH_OK || code == STREAM_END || code == SEQUENCE_ERROR)
        && (code == SEQUENCE_ERROR ==> strm.avail_out == 0 || (strm.out != [] && |strm.out| == |old(strm.out)|))
    {
      hide *;
      if mode == Idle { return SEQUENCE_ERROR; }
      if mode == Running {
        if action == RUN {
          var progress := HandleCompress();
          return if progress then RUN_OK else PARAM_ERROR;
        }
        Announce(if action == FLUSH then Flushing else Finishing);
      }
      if mode == Flushing {
        if action != FLUSH || avail_in_expect != |strm.next_in| { return SEQUENCE_ERROR; }
        code := ContinueFlush();
      } else {
        if action != FINISH || avail_in_expect != |strm.next_in| { return SEQUENCE_ERROR; }
        code := ContinueFinish();
      }
    }

    lemma PendingNow()
      requires Valid()
      ensures Pending(input.runs, input.state_in_ch, input.state_in_len)
    {
    }

    method RunPending() returns (empty: bool)
      requires Valid()
      ensures empty <==> input.state_in_ch == NO_CHAR
    {
      hide *;
      PendingNow();
      empty := input.IsEmptyRL();
    }
  }

  lemma StreamNotEmpty(data: seq<Byte>, level: nat, rss: seq<seq<Pair>>)
    requires IsStream(data, level, rss)
    ensures data != []
  {
    var pieces, pad :| IsStreamOf(data, level, rss, pieces, pad);
    hide *;
    StreamOfParts(data, level, rss, pieces, pad);
    SofarSize(true, level, pieces);
    TrailerSize(StreamCrc(rss));
    NoBytes();
  }

  lemma SofarSize(begun: bool, level: nat, pieces: seq<seq<bool>>)
    requires 1 <= level <= 9
    ensures |Sofar(begun, level, pieces)| <= 32 + |Flat(pieces, 0)|
  {
    hide Flat, BytesToBits;
  }

  lemma TrailerSize(crc: bv32)
    ensures |TrailerBits(crc)| == 80
  {
    hide BytesToBits, ToBits;
  }

  lemma {:induction false} StreamIs(data: seq<Byte>, level: nat, rss: seq<seq<Pair>>, pieces: seq<seq<bool>>,
                                    pad: seq<bool>)
    requires 1 <= level <= 9 && IsStreamOf(data, level, rss, pieces, pad)
    ensures IsStream(data, level, rss)
  {
  }

  lemma PrefixOfNothing(z: seq<Byte>)
    ensures z[..0] == []
  {
  }

  lemma StillPending(ps: seq<Pair>, ch: nat, len: nat)
    requires Pending(ps, ch, len)
    ensures Pending([], ch, len)
  {
  }

  lemma BlockSizes(level: nat)
    requires 1 <= level <= 9
    ensures 100_000 * level - 19 + 19 <= 900_000 && 0 <= 100_000 * level - 19
  {
  }

  lemma {:induction false} EmptyFront(a: seq<bool>, b: seq<bool>)
    requires a + b == []
    ensures a == [] && b == [] && forall c: seq<bool> :: a + c == c
  {
    assert |a| == 0;
  }

  lemma TrailerIs(crc: bv32)
    ensures TrailerBits(crc) == BytesToBits(END_MAGIC) + ToBits(CrcNumber(crc), 32)
  {
  }
}
