/** Whole buffers at a time: compressing one, and getting it back. */
module BuffToBuff {
  import opened MachineInts
  import opened RunLength
  import opened BitStream
  import opened BitFields
  import opened StreamFormat
  import opened BlockSize
  import Compressor
  import Decompressor
  import RunOutput

  datatype Code = OK | OUTBUFF_FULL | UNEXPECTED_EOF | PARAM_ERROR | SEQUENCE_ERROR | DATA_ERROR

  /** data is a compressed stream that stands for content. */
  ghost predicate Encodes(data: seq<Byte>, content: seq<Byte>) {
    exists level: nat, rss: seq<seq<Pair>> :: IsStream(data, level, rss) && Content(rss) == content
  }

  lemma {:induction false} EncodesIs(data: seq<Byte>, level: nat, rss: seq<seq<Pair>>)
    requires IsStream(data, level, rss)
    ensures Encodes(data, Content(rss))
  {
  }

  /** Compresses source into at most destLen bytes. */
  method Compress(source: seq<Byte>, destLen: nat, blockSize100k: int, verbosity: int, workFactor: int)
    returns (code: Code, dest: seq<Byte>)
    ensures code == PARAM_ERROR <==>
      blockSize100k < 1 || blockSize100k > 9 || verbosity < 0 || verbosity > 4 || workFactor < 0 || workFactor > 250
    ensures code == OK ==> Encodes(dest, source) && |dest| <= destLen
    ensures code == OK || code == PARAM_ERROR || code == OUTBUFF_FULL || code == SEQUENCE_ERROR
    ensures destLen >= 3 * |source| + 6460 ==> code == OK || code == PARAM_ERROR
  {
    hide *;
    dest := [];
    if blockSize100k < 1 || blockSize100k > 9 || verbosity < 0 || verbosity > 4 || workFactor < 0 || workFactor > 250 {
      return PARAM_ERROR, dest;
    }
    var strm := new Compressor.BzStream();
    var s := new Compressor.EState(strm, blockSize100k, workFactor);
    strm.next_in := source;
    strm.avail_out := destLen;
    var ret := s.Compress(Compressor.FINISH);
    s.OutSize();
    RoomEnough(s.rss, s.pieces, s.level, s.short, |source|, |strm.out|);
    if ret == Compressor.FINISH_OK { return OUTBUFF_FULL, dest; }
    if ret != Compressor.STREAM_END { return SEQUENCE_ERROR, dest; }
    dest := strm.out;
    NothingBefore(s.accepted, strm.next_in, source);
    EncodesIs(strm.out, s.level, s.rss);
    code := OK;
  }

  lemma RoomEnough(rss: seq<seq<Pair>>, pieces: seq<seq<bool>>, level: nat, short: nat, n: nat, size: nat)
    requires HoldsAll(pieces, rss, level) && short <= 1 && level >= 1 && MostlyFull(rss, short, 100_000 * level - 19)
    requires |Content(rss)| <= n && 8 * size <= 119 + |Flat(pieces, 0)|
    ensures size < 3 * n + 6460
  {
    hide *;
    SizeBound(rss, pieces, level, short, 100_000 * level - 19, n, 8 * size);
  }

  lemma NothingBefore(accepted: seq<Byte>, rest: seq<Byte>, source: seq<Byte>)
    requires accepted + rest == [] + source && rest == []
    ensures accepted == source
  {
    assert accepted + [] == accepted && [] + source == source;
  }

  /** Decompresses source into at most destLen bytes, by the FAST or the SMALL form. */
  method Decompress(source: seq<Byte>, destLen: nat, small: bool, ghost content: seq<Byte>)
    returns (code: Code, dest: seq<Byte>)
    ensures Encodes(source, content) ==> code == if |content| <= destLen then OK else OUTBUFF_FULL
    ensures Encodes(source, content) && code == OK ==> dest == content
    ensures |dest| <= destLen
  {
    hide *;
    ghost var level, rss := 1, [];
    if Encodes(source, content) { level, rss := EncodesParts(source, content); }
    dest := [];
    var strm := new RunOutput.Sink();
    strm.avail_out := destLen;
    JoinOne(source);
    var start, s := Decompressor.Open([source], small, strm, level, rss);
    if start == Decompressor.NEED_INPUT { return if destLen > 0 then UNEXPECTED_EOF else OUTBUFF_FULL, dest; }
    if start != Decompressor.OK { return DATA_ERROR, dest; }
    var ret := s.Decompress();
    if ret == Decompressor.OK || ret == Decompressor.NEED_INPUT {
      return if strm.avail_out > 0 then UNEXPECTED_EOF else OUTBUFF_FULL, dest;
    }
    if ret != Decompressor.STREAM_END { return DATA_ERROR, dest; }
    dest := strm.out;
    code := OK;
  }

  lemma {:induction false} EncodesParts(data: seq<Byte>, content: seq<Byte>) returns (level: nat, rss: seq<seq<Pair>>)
    requires Encodes(data, content)
    ensures IsStream(data, level, rss) && Content(rss) == content
  {
    level, rss :| IsStream(data, level, rss) && Content(rss) == content;
  }
}
