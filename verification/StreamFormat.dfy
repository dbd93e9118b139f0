/** What a whole compressed stream is: header, blocks, trailer; and which bytes it stands for. */
module StreamFormat {
  import opened MachineInts
  import opened BitStream
  import opened BitFields
  import opened BlockCrc
  import opened RunLength
  import opened BlockEncoder

  const END_MAGIC: seq<Byte> := [0x17, 0x72, 0x45, 0x38, 0x50, 0x90]

  ghost function HeaderBits(level: nat): seq<bool>
    requires 1 <= level <= 9
  {
    BytesToBits([0x42, 0x5a, 0x68, 0x30 + level])
  }

  lemma HeaderIs(level: nat, c: Byte)
    requires 1 <= level <= 9 && c == 0x30 + level
    ensures HeaderBits(level) == BytesToBits([0x42, 0x5a, 0x68, c])
  {
    hide BytesToBits, ToBits;
  }

  ghost function TrailerBits(crc: bv32): seq<bool> {
    BytesToBits(END_MAGIC) + ToBits(crc as nat, 32)
  }

  /** Bits that hold a block of run-coded bytes, with the checksum of the bytes themselves. */
  ghost predicate HoldsRuns(bits: seq<bool>, rs: seq<Pair>, level: nat) {
    && Separated(rs) && 0 < |Pack(rs)| <= 100_000 * level
    && HoldsBlock(bits, Pack(rs), FinalCrc(CrcOf(Expand(rs))) as nat)
  }

  ghost predicate HoldsAll(pieces: seq<seq<bool>>, rss: seq<seq<Pair>>, level: nat) {
    |pieces| == |rss| && forall i :: 0 <= i < |pieces| ==> HoldsRuns(pieces[i], rss[i], level)
  }

  lemma {:induction false} HoldsPush(pieces: seq<seq<bool>>, rss: seq<seq<Pair>>, level: nat, piece: seq<bool>,
                                     rs: seq<Pair>)
    requires HoldsAll(pieces, rss, level) && HoldsRuns(piece, rs, level)
    ensures HoldsAll(pieces + [piece], rss + [rs], level)
  {
    hide HoldsRuns;
  }

  /** The blocks behind the runs. */
  ghost function Blocks(rss: seq<seq<Pair>>): (bs: seq<seq<Byte>>)
    ensures |bs| == |rss| && forall i :: 0 <= i < |rss| ==> bs[i] == Expand(rss[i])
  {
    seq(|rss|, i requires 0 <= i < |rss| => Expand(rss[i]))
  }

  lemma BlocksPush(rss: seq<seq<Pair>>, rs: seq<Pair>)
    ensures Blocks(rss + [rs]) == Blocks(rss) + [Expand(rs)]
  {
  }

  ghost function Concat(bs: seq<seq<Byte>>): seq<Byte> {
    if bs == [] then [] else Concat(bs[..|bs| - 1]) + bs[|bs| - 1]
  }

  lemma ConcatPush(bs: seq<seq<Byte>>, b: seq<Byte>)
    ensures Concat(bs + [b]) == Concat(bs) + b && Concat([]) == []
  {
    assert (bs + [b])[..|bs|] == bs;
  }

  /** All bytes the blocks stand for, in order. */
  ghost function Content(rss: seq<seq<Pair>>): seq<Byte> {
    Concat(Blocks(rss))
  }

  lemma ContentPush(rss: seq<seq<Pair>>, rs: seq<Pair>)
    ensures Content(rss + [rs]) == Content(rss) + Expand(rs)
  {
    BlocksPush(rss, rs);
    ConcatPush(Blocks(rss), Expand(rs));
  }

  ghost function StreamCrc(rss: seq<seq<Pair>>): bv32 {
    Combined(Blocks(rss))
  }

  lemma StreamCrcPush(rss: seq<seq<Pair>>, rs: seq<Pair>)
    ensures StreamCrc(rss + [rs]) == FoldCrc(StreamCrc(rss), FinalCrc(CrcOf(Expand(rs))))
  {
    hide *;
    StreamCrcIs(rss + [rs]);
    StreamCrcIs(rss);
    BlocksPush(rss, rs);
    CombinedPush(Blocks(rss), Expand(rs));
  }

  lemma StreamCrcIs(rss: seq<seq<Pair>>)
    ensures StreamCrc(rss) == Combined(Blocks(rss))
  {
  }

  lemma NoBlocks(level: nat)
    ensures Content([]) == [] && StreamCrc([]) == 0 && Flat([], 0) == [] && HoldsAll([], [], level)
  {
    assert Blocks([]) == [];
  }

  /** The bits sent so far: nothing, or the header and some blocks. */
  ghost function Sofar(begun: bool, level: nat, pieces: seq<seq<bool>>): seq<bool>
    requires 1 <= level <= 9
  {
    if begun then HeaderBits(level) + Flat(pieces, 0) else []
  }

  lemma {:induction false} FlatPush(pieces: seq<seq<bool>>, piece: seq<bool>, i: nat)
    requires i <= |pieces|
    ensures Flat(pieces + [piece], i) == Flat(pieces, i) + piece
    decreases |pieces| - i
  {
    var all := pieces + [piece];
    if i == |pieces| {
      assert Flat(all, i) == all[i] + Flat(all, i + 1);
      assert piece + [] == piece && [] + piece == piece;
    } else {
      FlatPush(pieces, piece, i + 1);
      Shift(pieces[i], Flat(pieces, i + 1), piece);
    }
  }

  lemma {:induction false} SofarPush(level: nat, pieces: seq<seq<bool>>, piece: seq<bool>)
    requires 1 <= level <= 9
    ensures Sofar(true, level, pieces + [piece]) == Sofar(true, level, pieces) + piece
  {
    FlatPush(pieces, piece, 0);
    Shift(HeaderBits(level), Flat(pieces, 0), piece);
  }

  lemma SofarStart(level: nat)
    requires 1 <= level <= 9
    ensures Sofar(false, level, []) == [] && Sofar(true, level, []) == HeaderBits(level)
  {
    assert HeaderBits(level) + [] == HeaderBits(level);
  }

  lemma {:induction false} SofarIs(level: nat, pieces: seq<seq<bool>>)
    requires 1 <= level <= 9
    ensures Sofar(true, level, pieces) == HeaderBits(level) + Flat(pieces, 0)
  {
  }

  /** A complete stream for these blocks, padded to whole bytes. */
  ghost predicate IsStream(data: seq<Byte>, level: nat, rss: seq<seq<Pair>>) {
    && 1 <= level <= 9
    && exists pieces: seq<seq<bool>>, pad: seq<bool> :: IsStreamOf(data, level, rss, pieces, pad)
  }

  ghost predicate IsStreamOf(data: seq<Byte>, level: nat, rss: seq<seq<Pair>>, pieces: seq<seq<bool>>, pad: seq<bool>)
    requires 1 <= level <= 9
  {
    && HoldsAll(pieces, rss, level) && |pad| < 8
    && BytesToBits(data) == Sofar(true, level, pieces) + TrailerBits(StreamCrc(rss)) + pad
  }

  lemma {:induction false} StreamOfParts(data: seq<Byte>, level: nat, rss: seq<seq<Pair>>, pieces: seq<seq<bool>>,
                                         pad: seq<bool>)
    requires 1 <= level <= 9 && IsStreamOf(data, level, rss, pieces, pad)
    ensures HoldsAll(pieces, rss, level) && |pad| < 8 && |pieces| == |rss|
    ensures BytesToBits(data) == Sofar(true, level, pieces) + TrailerBits(StreamCrc(rss)) + pad
  {
    hide BytesToBits, HoldsRuns, Sofar, TrailerBits, StreamCrc;
  }
}
