/** The decompressor as its callers see it: all of the data, and output room in pieces of any size. */
module Decompressor {
  import opened MachineInts
  import opened BitStream
  import opened BitFields
  import opened BlockHeader
  import opened BlockCrc
  import opened RunLength
  import opened BlockSource
  import opened BlockEncoder
  import opened BlockDecoder
  import opened StreamFormat
  import opened RunOutput

  datatype Phase = AtEnd | AtBlock | InBlock
  /** NEED_INPUT is what the source reports as BZ_OK when the input runs out for good. */
  datatype Result = OK | STREAM_END | DATA_ERROR | DATA_ERROR_MAGIC | SEQUENCE_ERROR | NEED_INPUT

  /** A stream that stands for some blocks: how they are coded, and how the last byte is filled up. */
  datatype Script = Script(level: nat, rss: seq<seq<Pair>>, pieces: seq<seq<bool>>, pad: seq<bool>)

  ghost predicate Written(data: seq<Byte>, s: Script) {
    1 <= s.level <= 9 && IsStreamOf(data, s.level, s.rss, s.pieces, s.pad)
  }

  /** The bits behind the blocks. */
  ghost function Ending(s: Script): seq<bool> {
    TrailerBits(StreamCrc(s.rss)) + s.pad
  }

  /** The bits from block k on. */
  ghost function FromBlock(s: Script, k: nat): seq<bool>
    requires k <= |s.pieces|
  {
    Flat(s.pieces, k) + Ending(s)
  }

  lemma {:induction false} FromBlockIs(s: Script, k: nat)
    requires k <= |s.pieces|
    ensures FromBlock(s, k) == Flat(s.pieces, k) + Ending(s) && Ending(s) == TrailerBits(StreamCrc(s.rss)) + s.pad
  {
  }

  lemma {:induction false} WrittenParts(data: seq<Byte>, s: Script)
    requires Written(data, s)
    ensures 1 <= s.level <= 9 && IsStreamOf(data, s.level, s.rss, s.pieces, s.pad)
  {
    hide IsStreamOf;
  }

  lemma {:induction false} WrittenIs(data: seq<Byte>, s: Script)
    requires Written(data, s)
    ensures 1 <= s.level <= 9 && HoldsAll(s.pieces, s.rss, s.level) && |s.pieces| == |s.rss|
    ensures BytesToBits(data) == HeaderBits(s.level) + FromBlock(s, 0)
  {
    hide *;
    WrittenParts(data, s);
    StreamOfParts(data, s.level, s.rss, s.pieces, s.pad);
    SofarIs(s.level, s.pieces);
    FromBlockIs(s, 0);
    Shift(HeaderBits(s.level), Flat(s.pieces, 0), Ending(s));
    Shift(Sofar(true, s.level, s.pieces), TrailerBits(StreamCrc(s.rss)), s.pad);
  }

  lemma {:induction false} BlockComes(s: Script, k: nat)
    requires k < |s.pieces|
    ensures FromBlock(s, k) == s.pieces[k] + FromBlock(s, k + 1)
  {
    Shift(s.pieces[k], Flat(s.pieces, k + 1), Ending(s));
  }

  lemma {:induction false} EndComes(s: Script)
    ensures FromBlock(s, |s.pieces|) == BytesToBits(END_MAGIC) + (ToBits(CrcNumber(StreamCrc(s.rss)), 32) + s.pad)
  {
    assert [] + Ending(s) == Ending(s);
    Shift(BytesToBits(END_MAGIC), ToBits(CrcNumber(StreamCrc(s.rss)), 32), s.pad);
  }

  /** These bits are the block b, coded as c. */
  ghost predicate HasCode(bits: seq<bool>, c: BlockCode, b: seq<Byte>, crc: nat) {
    CodesBlock(c, b) && bits == BytesToBits(BLOCK_MAGIC) + BlockBits(c, crc)
  }

  lemma {:induction false} HasCodeParts(bits: seq<bool>, c: BlockCode, b: seq<Byte>, crc: nat, after: seq<bool>)
    requires HasCode(bits, c, b, crc) && crc < 0x1_0000_0000
    ensures exists rest: seq<bool> ::
      BlockNext(rest, c, b, crc, after) && bits + after == BytesToBits(BLOCK_MAGIC) + rest
  {
    var rest := BlockBits(c, crc) + after;
    Shift(BytesToBits(BLOCK_MAGIC), BlockBits(c, crc), after);
    assert BlockNext(rest, c, b, crc, after);
  }

  /** Block k: what it holds and how it is coded. */
  lemma {:induction false} BlockAt(s: Script, k: nat)
    requires HoldsAll(s.pieces, s.rss, s.level) && k < |s.pieces|
    ensures k < |s.rss| && Separated(s.rss[k]) && 0 < |Pack(s.rss[k])| <= 100_000 * s.level
    ensures exists c: BlockCode :: HasCode(s.pieces[k], c, Pack(s.rss[k]), CrcNumber(FinalCrc(CrcOf(Expand(s.rss[k])))))
  {
    assert HoldsRuns(s.pieces[k], s.rss[k], s.level);
    var crc := CrcNumber(FinalCrc(CrcOf(Expand(s.rss[k]))));
    HoldsMeans(s.pieces[k], Pack(s.rss[k]), crc);
  }

  lemma {:induction false} HoldsMeans(bits: seq<bool>, b: seq<Byte>, crc: nat)
    requires HoldsBlock(bits, b, crc)
    ensures exists c: BlockCode :: HasCode(bits, c, b, crc)
  {
    var c: BlockCode :| CodesBlock(c, b) && bits == BytesToBits(BLOCK_MAGIC) + BlockBits(c, crc);
    assert HasCode(bits, c, b, crc);
  }

  lemma MagicSplits()
    ensures BytesToBits(BLOCK_MAGIC) == ToBits(0x31, 8) + BytesToBits([0x41, 0x59, 0x26, 0x53, 0x59])
    ensures BytesToBits(END_MAGIC) == ToBits(0x17, 8) + BytesToBits([0x72, 0x45, 0x38, 0x50, 0x90])
  {
    BytesHead(BLOCK_MAGIC);
    BytesHead(END_MAGIC);
    assert END_MAGIC[1..] == [0x72, 0x45, 0x38, 0x50, 0x90];
    assert BLOCK_MAGIC[1..] == [0x41, 0x59, 0x26, 0x53, 0x59];
  }

  lemma HeaderSplits(level: nat)
    requires 1 <= level <= 9
    ensures HeaderBits(level) == BytesToBits([0x42, 0x5a, 0x68]) + ToBits(0x30 + level, 8)
  {
    hide *;
    var c: Byte := 0x30 + level;
    HeaderIs(level, c);
    assert [0x42, 0x5a, 0x68, c] == [0x42, 0x5a, 0x68] + [c];
    BytesAppend([0x42, 0x5a, 0x68], [c]);
    OneByte(c);
  }

  /** The blocks before k. */
  ghost function Earlier(s: Script, k: nat): seq<seq<Pair>>
    requires k <= |s.rss|
  {
    s.rss[..k]
  }

  lemma EarlierNext(s: Script, k: nat)
    requires k < |s.rss|
    ensures Earlier(s, k + 1) == Earlier(s, k) + [s.rss[k]]
    ensures Content(Earlier(s, k + 1)) == Content(Earlier(s, k)) + Expand(s.rss[k])
    ensures StreamCrc(Earlier(s, k + 1)) == FoldCrc(StreamCrc(Earlier(s, k)), FinalCrc(CrcOf(Expand(s.rss[k]))))
  {
    hide Content, StreamCrc, FoldCrc, FinalCrc, CrcOf, Expand;
    assert s.rss[..k + 1] == s.rss[..k] + [s.rss[k]];
    ContentPush(Earlier(s, k), s.rss[k]);
    StreamCrcPush(Earlier(s, k), s.rss[k]);
  }

  lemma EarlierAll(s: Script)
    ensures Earlier(s, |s.rss|) == s.rss && Content(Earlier(s, 0)) == [] && StreamCrc(Earlier(s, 0)) == 0
  {
    hide Content, StreamCrc;
    NoBlocks(1);
    assert s.rss[..|s.rss|] == s.rss && s.rss[..0] == [];
  }

  /** Reads the stream header; the level is the size of the blocks in units of 100000 bytes. */
  method ReadHeader(r: BitReader, ghost s: Script) returns (o: Outcome<nat>)
    requires r.Valid()
    modifies r
    ensures r.Valid() && (o.Value? ==> 1 <= o.v <= 9)
    ensures 1 <= s.level <= 9 && old(r.Rest()) == HeaderBits(s.level) + FromBlock(s, 0) ==> o == Value(s.level)
    ensures 1 <= s.level <= 9 && old(r.Rest()) == HeaderBits(s.level) + FromBlock(s, 0) ==> r.Rest() == FromBlock(s, 0)
  {
    hide *;
    EightBits();
    ghost var good := 1 <= s.level <= 9 && r.Rest() == HeaderBits(s.level) + FromBlock(s, 0);
    ghost var tail: seq<bool> := [];
    if good {
      HeaderSplits(s.level);
      tail := ToBits(0x30 + s.level, 8) + FromBlock(s, 0);
      Shift(BytesToBits([0x42, 0x5a, 0x68]), ToBits(0x30 + s.level, 8), FromBlock(s, 0));
    }
    var m := ExpectBytes(r, [0x42, 0x5a, 0x68], tail);
    if !m.Value? { return if m.NeedInput? then NeedInput else DataError; }
    ghost var all := r.Rest();
    var level := ReadField(r, 8);
    if good { FieldRead(level, 8, all, r.Rest(), 0x30 + s.level, FromBlock(s, 0)); }
    if !level.Value? { return level; }
    if level.v < 0x31 || level.v > 0x39 { return DataError; }
    o := Value(level.v - 0x30);
  }

  /** What a marker between blocks leads to. */
  datatype Next = Block(crc: nat) | End(crc: nat)

  /** The reader stands before block k of the stream, or behind the last one. */
  ghost predicate Expected(rest: seq<bool>, s: Script, k: nat) {
    1 <= s.level <= 9 && HoldsAll(s.pieces, s.rss, s.level) && k <= |s.pieces| && rest == FromBlock(s, k)
  }

  lemma {:induction false} ExpectedParts(rest: seq<bool>, s: Script, k: nat)
    requires Expected(rest, s, k)
    ensures 1 <= s.level <= 9 && HoldsAll(s.pieces, s.rss, s.level) && k <= |s.pieces| == |s.rss|
    ensures rest == FromBlock(s, k)
  {
  }

  /** The marker and what comes behind it. */
  ghost predicate Marked(all: seq<bool>, s: Script, k: nat, mark: Byte, more: seq<Byte>, rest: seq<bool>) {
    all == ToBits(mark, 8) + (BytesToBits(more) + rest)
  }

  lemma {:induction false} MarkedIs(all: seq<bool>, s: Script, k: nat, mark: Byte, more: seq<Byte>, rest: seq<bool>)
    ensures Marked(all, s, k, mark, more, rest) <==> all == ToBits(mark, 8) + (BytesToBits(more) + rest)
  {
  }

  lemma {:induction false} AtBlockMark(all: seq<bool>, s: Script, k: nat) returns (c: BlockCode, rest: seq<bool>)
    requires Expected(all, s, k) && k < |s.pieces|
    ensures k < |s.rss| && Separated(s.rss[k]) && k + 1 <= |s.pieces| && 0 < |Pack(s.rss[k])| <= 100_000 * s.level
    ensures BlockNext(rest, c, Pack(s.rss[k]), CrcNumber(FinalCrc(CrcOf(Expand(s.rss[k])))), FromBlock(s, k + 1))
    ensures Marked(all, s, k, 0x31, [0x41, 0x59, 0x26, 0x53, 0x59], rest)
  {
    hide *;
    ExpectedParts(all, s, k);
    BlockAt(s, k);
    BlockComes(s, k);
    var crc := CrcNumber(FinalCrc(CrcOf(Expand(s.rss[k]))));
    c :| HasCode(s.pieces[k], c, Pack(s.rss[k]), crc);
    HasCodeParts(s.pieces[k], c, Pack(s.rss[k]), crc, FromBlock(s, k + 1));
    rest :| BlockNext(rest, c, Pack(s.rss[k]), crc, FromBlock(s, k + 1)) &&
      s.pieces[k] + FromBlock(s, k + 1) == BytesToBits(BLOCK_MAGIC) + rest;
    MagicSplits();
    Shift(ToBits(0x31, 8), BytesToBits([0x41, 0x59, 0x26, 0x53, 0x59]), rest);
    MarkedIs(all, s, k, 0x31, [0x41, 0x59, 0x26, 0x53, 0x59], rest);
  }

  lemma {:induction false} AtEndMark(all: seq<bool>, s: Script, k: nat)
    requires Expected(all, s, k) && k == |s.pieces|
    ensures Marked(all, s, k, 0x17, [0x72, 0x45, 0x38, 0x50, 0x90], ToBits(CrcNumber(StreamCrc(s.rss)), 32) + s.pad)
  {
    hide *;
    ExpectedParts(all, s, k);
    EndComes(s);
    MagicSplits();
    var rest := ToBits(CrcNumber(StreamCrc(s.rss)), 32) + s.pad;
    Shift(ToBits(0x17, 8), BytesToBits([0x72, 0x45, 0x38, 0x50, 0x90]), rest);
    MarkedIs(all, s, k, 0x17, [0x72, 0x45, 0x38, 0x50, 0x90], rest);
  }

  /** Reads the checksum behind the end marker. */
  method ReadTrailer(r: BitReader, ghost crc: nat, ghost pad: seq<bool>) returns (o: Outcome<Next>)
    requires r.Valid()
    modifies r
    ensures r.Valid() && |r.Rest()| <= old(|r.Rest()|) && (o.Value? ==> o.v.End?)
    ensures crc < 0x1_0000_0000 &&
            old(r.Rest()) == BytesToBits([0x72, 0x45, 0x38, 0x50, 0x90]) + (ToBits(crc, 32) + pad) ==>
      o == Value(End(crc))
  {
    hide *;
    EightBits();
    NumberSizes();
    var m := ExpectBytes(r, [0x72, 0x45, 0x38, 0x50, 0x90], ToBits(crc, 32) + pad);
    if !m.Value? { return if m.NeedInput? then NeedInput else DataError; }
    var stored := ReadBigEndian(r, 4, if crc < 0x1_0000_0000 then crc else 0, pad);
    if !stored.Value? { return NeedInput; }
    o := Value(End(stored.v));
  }

  /** Reads what comes next: another block, or the end of the stream. */
  method ReadNext(r: BitReader, store: BlockStore, ghost s: Script, ghost k: nat) returns (o: Outcome<Next>)
    requires r.Valid() && store.Sized()
    modifies r, store, store.tt, store.ll16, store.ll4, store.unzftab, store.cftab
    ensures r.Valid() && store.Sized()
    ensures o.Value? ==> |r.Rest()| < old(|r.Rest()|) && (o.v.Block? ==> store.Ready() && store.used == 0)
    ensures old(Expected(r.Rest(), s, k)) && store.limit == 100_000 * s.level && k < |s.pieces| ==>
      k < |s.rss| && Separated(s.rss[k]) && o == Value(Block(CrcNumber(FinalCrc(CrcOf(Expand(s.rss[k]))))))
    ensures old(Expected(r.Rest(), s, k)) && store.limit == 100_000 * s.level && k < |s.pieces| ==>
      && Expected(r.Rest(), s, k + 1) && store.Ready()
      && store.Block() == Pack(s.rss[k]) && |store.last| == |Pack(s.rss[k])|
    ensures old(Expected(r.Rest(), s, k)) && k == |s.pieces| ==> o == Value(End(CrcNumber(StreamCrc(s.rss))))
  {
    hide *;
    EightBits();
    ghost var all := r.Rest();
    ghost var block := Expected(all, s, k) && k < |s.pieces| && store.limit == 100_000 * s.level;
    ghost var end := Expected(all, s, k) && k == |s.pieces|;
    ghost var c := BlockCode([], [], [], [], 0);
    ghost var rest, after: seq<bool> := [], [];
    ghost var b, crc := [], 0;
    if block {
      c, rest := AtBlockMark(all, s, k);
      MarkedIs(all, s, k, 0x31, [0x41, 0x59, 0x26, 0x53, 0x59], rest);
      after, b, crc := FromBlock(s, k + 1), Pack(s.rss[k]), CrcNumber(FinalCrc(CrcOf(Expand(s.rss[k]))));
    }
    if end {
      AtEndMark(all, s, k);
      crc := CrcNumber(StreamCrc(s.rss));
      MarkedIs(all, s, k, 0x17, [0x72, 0x45, 0x38, 0x50, 0x90], ToBits(crc, 32) + s.pad);
    }
    var uc := ReadField(r, 8);
    if block { FieldRead(uc, 8, all, r.Rest(), 0x31, BytesToBits([0x41, 0x59, 0x26, 0x53, 0x59]) + rest); }
    if end {
      FieldRead(uc, 8, all, r.Rest(), 0x17, BytesToBits([0x72, 0x45, 0x38, 0x50, 0x90]) + (ToBits(crc, 32) + s.pad));
    }
    if !uc.Value? { return NeedInput; }
    if uc.v == 0x17 {
      o := ReadTrailer(r, crc, s.pad);
      return;
    }
    if uc.v != 0x31 { return DataError; }
    var m := ExpectBytes(r, [0x41, 0x59, 0x26, 0x53, 0x59], rest);
    if !m.Value? { return if m.NeedInput? then NeedInput else DataError; }
    var stored := ReceiveBlock(r, store, c, b, crc, after);
    if !stored.Value? { return if stored.NeedInput? then NeedInput else DataError; }
    o := Value(Block(stored.v));
    if block {
      ExpectedParts(all, s, k);
      ExpectedIs(r.Rest(), s, k + 1);
    }
  }

  lemma {:induction false} ExpectedIs(rest: seq<bool>, s: Script, k: nat)
    requires 1 <= s.level <= 9 && HoldsAll(s.pieces, s.rss, s.level) && k <= |s.pieces| && rest == FromBlock(s, k)
    ensures Expected(rest, s, k)
  {
  }

  /** The first k blocks of the stream have been put out, and checked. */
  ghost predicate Tracked(s: Script, k: nat, limit: nat, combined: bv32)
    requires k <= |s.rss|
  {
    hide *;
    && 1 <= s.level <= 9 && limit == 100_000 * s.level
    && HoldsAll(s.pieces, s.rss, s.level) && combined == StreamCrc(Earlier(s, k))
  }

  /** The state of a decompression in progress. */
  class DState {
    const r: BitReader
    const store: BlockStore
    const run: RunOutput
    const strm: Sink
    var phase: Phase
    var storedBlockCRC: nat
    var calculatedCombinedCRC: bv32
    /** The stream the data was written from, if it is one, and how many of its blocks have been put out. */
    ghost const script: Script
    ghost const trusted: bool
    ghost var k: nat

    ghost predicate Valid()
      reads this, r, store, store.tt, store.ll16, store.ll4, store.cftab, run, strm
    {
      && r.Valid() && store.Sized() && run.store == store && run.strm == strm
      && (phase == InBlock ==> run.Safe())
      && (trusted ==> Following())
    }

    /** The output so far is what the script says. */
    ghost predicate Following()
      reads this, r, store, run, strm
    {
      hide *;
      && k <= |script.rss| && Tracked(script, k, store.limit, calculatedCombinedCRC)
      && (phase == AtBlock ==> Expected(r.Rest(), script, k) && strm.out == Content(Earlier(script, k)))
      && (phase == InBlock ==> Inside())
      && (phase == AtEnd ==> k == |script.rss| && strm.out == Content(script.rss))
    }

    /** Some bytes of block k have been put out; the rest is pending or still in the store. */
    ghost predicate Inside()
      requires k <= |script.rss|
      reads this, r, store, run, strm
    {
      hide *;
      && k < |script.rss| && run.store == store && store.row < |store.last| && Expected(r.Rest(), script, k + 1)
      && run.Going(run.state_out_len, Expand(script.rss[k]))
      && storedBlockCRC == CrcNumber(FinalCrc(CrcOf(Expand(script.rss[k]))))
      && strm.out == Content(Earlier(script, k)) + run.produced
    }

    lemma Parts()
      ensures Valid() <==>
        && r.Valid() && store.Sized() && run.store == store && run.strm == strm
        && (phase == InBlock ==> run.Safe())
        && (trusted ==> Following())
    {
    }

    lemma FollowingParts()
      ensures Following() <==>
        && k <= |script.rss| && Tracked(script, k, store.limit, calculatedCombinedCRC)
        && (phase == AtBlock ==> Expected(r.Rest(), script, k) && strm.out == Content(Earlier(script, k)))
        && (phase == InBlock ==> Inside())
        && (phase == AtEnd ==> k == |script.rss| && strm.out == Content(script.rss))
    {
    }

    lemma TrackedNow()
      ensures k <= |script.rss| ==> (Tracked(script, k, store.limit, calculatedCombinedCRC) <==>
        1 <= script.level <= 9 && store.limit == 100_000 * script.level
        && HoldsAll(script.pieces, script.rss, script.level) && calculatedCombinedCRC == StreamCrc(Earlier(script, k)))
    {
    }

    lemma InsideParts()
      requires k <= |script.rss|
      ensures Inside() <==>
        && k < |script.rss| && run.store == store && store.row < |store.last| && Expected(r.Rest(), script, k + 1)
        && run.Going(run.state_out_len, Expand(script.rss[k]))
        && storedBlockCRC == CrcNumber(FinalCrc(CrcOf(Expand(script.rss[k]))))
        && strm.out == Content(Earlier(script, k)) + run.produced
    {
    }

    constructor (r: BitReader, small: bool, level: nat, strm: Sink, ghost script: Script, ghost trusted: bool)
      requires r.Valid() && 1 <= level <= 9 && strm.out == []
      requires trusted ==> script.level == level && Expected(r.Rest(), script, 0)
      ensures Valid() && this.r == r && this.strm == strm && this.script == script && this.trusted == trusted
      ensures store.small == small
      ensures phase == AtBlock && fresh(store) && fresh(run) && fresh(store.tt) && fresh(store.ll16) && fresh(store.ll4)
      ensures fresh(store.unzftab) && fresh(store.cftab)
    {
      hide *;
      this.r, this.strm, this.script, this.trusted := r, strm, script, trusted;
      var st := new BlockStore(small, level);
      store := st;
      run := new RunOutput(st, strm);
      phase, storedBlockCRC, calculatedCombinedCRC, k := AtBlock, 0, 0, 0;
      new;
      if trusted {
        ExpectedParts(r.Rest(), script, 0);
        EarlierAll(script);
        TrackedNow();
        FollowingParts();
      }
      Parts();
    }

    /** Puts out what there is room for; done when the block is used up. */
    method Produce() returns (corrupt: bool, done: bool)
      requires Valid() && phase == InBlock
      modifies run, strm, store`tPos, store`used
      ensures Valid() && (done <==> run.nblock_used == run.save_nblock + 1 && run.state_out_len == 0)
      ensures old(strm.out) <= strm.out && |strm.out| + strm.avail_out == old(|strm.out| + strm.avail_out)
      ensures trusted ==> !corrupt
      ensures !corrupt && !done ==> strm.avail_out == 0
      ensures trusted && !done ==> |strm.out| < |Content(script.rss)|
    {
      hide *;
      Parts();
      ghost var goal := [];
      if trusted {
        TrackedNow();
        FollowingParts();
        InsideParts();
        goal := Expand(script.rss[k]);
      }
      ghost var out0, p0 := strm.out, run.produced;
      if store.small { corrupt := run.UnRleSmall(goal); } else { corrupt := run.UnRleFast(goal); }
      AppendedMeans(out0, strm.out, p0, run.produced);
      done := run.nblock_used == run.save_nblock + 1 && run.state_out_len == 0;
      StillSized();
      if trusted {
        AppendedBehind(Content(Earlier(script, k)), out0, strm.out, p0, run.produced);
        InsideParts();
        TrackedNow();
        FollowingParts();
        run.SafeParts();
        run.GoingParts(run.state_out_len, goal);
        if !done {
          MoreToCome(store.Block(), run.nblock_used - 1, run.produced, run.state_out_ch, run.state_out_len, goal);
        }
        EarlierNext(script, k);
        ContentGrows(script, k + 1);
      }
      Parts();
    }

    lemma StillSized()
      requires run.Safe() && run.store == store
      ensures store.Sized()
    {
    }

    /** The block is used up: its checksum must be the one stored with it. */
    method CloseBlock() returns (ok: bool)
      requires Valid() && phase == InBlock && run.nblock_used == run.save_nblock + 1 && run.state_out_len == 0
      modifies `phase, `calculatedCombinedCRC, `k
      ensures Valid() && (ok ==> phase == AtBlock) && (trusted ==> ok)
    {
      hide *;
      Parts();
      run.SafeParts();
      if trusted {
        TrackedNow();
        FollowingParts();
        InsideParts();
        run.GoingParts(0, Expand(script.rss[k]));
        RemainingDone(store.Block(), run.nblock_used - 1, run.produced, run.state_out_ch, Expand(script.rss[k]));
        EarlierNext(script, k);
      }
      var crc := FinalCrc(run.calculatedBlockCRC);
      if CrcNumber(crc) != storedBlockCRC { return false; }
      calculatedCombinedCRC := FoldCrc(calculatedCombinedCRC, crc);
      phase := AtBlock;
      k := k + 1;
      if trusted {
        TrackedNow();
        FollowingParts();
      }
      Parts();
      ok := true;
    }

    /** Reads on: to the next block, or to the end of the stream. */
    method OpenNext() returns (code: Result)
      requires Valid() && phase == AtBlock
      modifies this, r, store, store.tt, store.ll16, store.ll4, store.unzftab, store.cftab, run
      ensures code == OK ==> Valid() && phase == InBlock && |r.Rest()| < old(|r.Rest()|)
      ensures code == STREAM_END ==> Valid() && phase == AtEnd
      ensures code != SEQUENCE_ERROR
      ensures trusted ==> code == if old(k) < |script.rss| then OK else STREAM_END
    {
      hide *;
      Parts();
      if trusted {
        TrackedNow();
        FollowingParts();
        ExpectedParts(r.Rest(), script, k);
        EarlierAll(script);
      }
      var next := ReadNext(r, store, script, k);
      if !next.Value? { return if next.NeedInput? then NEED_INPUT else DATA_ERROR; }
      if next.v.End? {
        if CrcNumber(calculatedCombinedCRC) != next.v.crc { return DATA_ERROR; }
        phase := AtEnd;
        if trusted {
          TrackedNow();
          FollowingParts();
        }
        Parts();
        return STREAM_END;
      }
      store.ReadyParts();
      storedBlockCRC := next.v.crc;
      run.Begin(store.nblock);
      phase := InBlock;
      StillSized();
      if trusted {
        UnpackPack(script.rss[k]);
        run.SafeParts();
        NothingYet(Content(Earlier(script, k)));
        InsideParts();
        TrackedNow();
        FollowingParts();
      }
      Parts();
      code := OK;
    }

    /** One call of the decompressor: output until there is no more room, or the stream ends. */
    method Decompress() returns (code: Result)
      requires Valid()
      modifies this, r, store, store.tt, store.ll16, store.ll4, store.unzftab, store.cftab, run, strm
      ensures code == OK || code == STREAM_END || code == SEQUENCE_ERROR ==> Valid()
      ensures code == SEQUENCE_ERROR <==> old(phase) == AtEnd
      ensures code == STREAM_END ==> phase == AtEnd
      ensures code == OK ==> strm.avail_out == 0
      ensures old(strm.out) <= strm.out && |strm.out| + strm.avail_out == old(|strm.out| + strm.avail_out)
      ensures trusted ==> code == OK || code == STREAM_END || code == SEQUENCE_ERROR
      ensures trusted && code == STREAM_END ==> strm.out == Content(script.rss)
      ensures trusted && code == OK ==> |strm.out| < |Content(script.rss)|
    {
      hide *;
      while true
        invariant Valid() && (phase == AtEnd ==> old(phase) == AtEnd) && (old(phase) == AtEnd ==> phase == AtEnd)
        invariant old(strm.out) <= strm.out && |strm.out| + strm.avail_out == old(|strm.out| + strm.avail_out)
        decreases |r.Rest()|, if phase == InBlock then 1 else 0
      {
        if phase == AtEnd { return SEQUENCE_ERROR; }
        if phase == InBlock {
          var corrupt, done := Produce();
          if corrupt { return DATA_ERROR; }
          if !done { return OK; }
          var ok := CloseBlock();
          if !ok { return DATA_ERROR; }
        }
        var next := OpenNext();
        if next != OK {
          if trusted { AtEndNow(next); }
          return next;
        }
      }
    }

    lemma AtEndNow(code: Result)
      requires trusted && (code == STREAM_END ==> Valid() && phase == AtEnd)
      ensures code == STREAM_END ==> strm.out == Content(script.rss)
    {
    }

    /** Whatever has been put out so far is the beginning of what the stream stands for. */
    lemma OutputIsPrefix()
      requires Valid() && trusted
      ensures strm.out <= Content(script.rss)
    {
      hide *;
      Parts();
      TrackedNow();
      FollowingParts();
      if phase == AtBlock {
        ContentGrows(script, k);
      } else if phase == InBlock {
        InsideParts();
        run.GoingParts(run.state_out_len, Expand(script.rss[k]));
        EarlierNext(script, k);
        ContentGrows(script, k + 1);
        ProducedPrefix(store.Block(), run.nblock_used - 1, run.produced, run.state_out_ch, run.state_out_len,
                       Expand(script.rss[k]));
        PrefixTrans(strm.out, Content(Earlier(script, k + 1)), Content(script.rss));
      }
    }
  }

  lemma {:induction false} ContentGrows(s: Script, k: nat)
    requires k <= |s.rss|
    ensures Content(Earlier(s, k)) <= Content(s.rss)
    decreases |s.rss| - k
  {
    hide *;
    EarlierAll(s);
    if k < |s.rss| {
      EarlierNext(s, k);
      ContentGrows(s, k + 1);
    }
  }

  lemma ProducedPrefix(b: seq<Byte>, p: nat, produced: seq<Byte>, ch: Byte, len: nat, goal: seq<Byte>)
    requires Remaining(b, p, produced, ch, len, goal)
    ensures produced <= goal
  {
  }

  /** As long as a run is pending or the block is not used up, there are bytes still to come. */
  lemma MoreToCome(b: seq<Byte>, p: nat, produced: seq<Byte>, ch: Byte, len: nat, goal: seq<Byte>)
    requires Remaining(b, p, produced, ch, len, goal) && (p < |b| || len > 0)
    ensures |produced| < |goal|
  {
    if p < |b| { assert |Unpacked(b[p..])| > 0; }
  }

  lemma PrefixTrans(a: seq<Byte>, b: seq<Byte>, c: seq<Byte>)
    requires a <= b <= c
    ensures a <= c
  {
  }

  /** Opens a compressed stream that arrives in pieces. If together they are a stream for the blocks of rss,
      decompression
      will follow it, wherever the pieces are cut. */
  method Open(pieces: seq<seq<Byte>>, small: bool, strm: Sink, ghost level: nat, ghost rss: seq<seq<Pair>>)
    returns (code: Result, s: DState?)
    requires strm.out == []
    ensures code == OK <==> s != null
    ensures code == OK ==> s.Valid() && s.strm == strm && s.phase == AtBlock && fresh(s) && fresh(s.r)
    ensures code == OK ==> fresh(s.store) && fresh(s.run)
    ensures code == OK ==> fresh(s.store.tt) && fresh(s.store.ll16) && fresh(s.store.ll4)
    ensures code == OK ==> fresh(s.store.unzftab) && fresh(s.store.cftab)
    ensures IsStream(Join(pieces), level, rss) ==> code == OK && s.trusted && s.script.rss == rss
  {
    hide *;
    ghost var data := Join(pieces);
    ghost var good := IsStream(data, level, rss);
    ghost var script := Script(level, rss, [], []);
    var r := new BitReader(pieces);
    if good {
      script := StreamScript(data, level, rss);
      WrittenIs(data, script);
    }
    var header := ReadHeader(r, script);
    if header.NeedInput? { return NEED_INPUT, null; }
    if header.DataError? { return DATA_ERROR_MAGIC, null; }
    if good { ExpectedIs(r.Rest(), script, 0); }
    s := new DState(r, small, header.v, strm, script, good);
    code := OK;
  }

  lemma StreamScript(data: seq<Byte>, level: nat, rss: seq<seq<Pair>>) returns (s: Script)
    requires IsStream(data, level, rss)
    ensures Written(data, s) && s.rss == rss && s.level == level
  {
    var pieces: seq<seq<bool>>, pad: seq<bool> :| IsStreamOf(data, level, rss, pieces, pad);
    s := Script(level, rss, pieces, pad);
  }

  lemma AppendedMeans(out0: seq<Byte>, out: seq<Byte>, p0: seq<Byte>, p: seq<Byte>)
    requires Appended(out0, out, p0, p)
    ensures out0 <= out
  {
  }

  lemma AppendedBehind(front: seq<Byte>, out0: seq<Byte>, out: seq<Byte>, p0: seq<Byte>, p: seq<Byte>)
    requires Appended(out0, out, p0, p) && out0 == front + p0
    ensures out == front + p
  {
  }

  lemma NothingYet(front: seq<Byte>)
    ensures front + [] == front
  {
  }
}
