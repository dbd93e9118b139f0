/** Sending blocks one after the other, stored or coded, so that inflate decodes them to the text they stand for. */
module DeflateStream {
  import opened MachineInts
  import opened SetSums
  import opened DeflateCodes
  import opened TableLayout
  import opened InflateTable
  import opened InflateHeader
  import opened InflateBits
  import InflateSource
  import InflateBack
  import BitStream
  import opened InflateStream
  import opened DeflateTokens
  import opened DeflateBlocks
  import opened DeflateSender
  import opened DeflateChunks
  import opened DeflateTrees
  import opened DeflateOverlay
  import opened DeflateClear
  import opened DeflateHeads
  import opened Lz77

  /* ---- one block, sent and read ---- */

  /** The three bits before a block. */
  ghost function TypeChunk(b: Block, last: bool): Chunk {
    Chunk(2 * TypeOf(b) + if last then 1 else 0, 3)
  }

  lemma TypeSent(b: Block, last: bool, t: seq<Chunk>)
    ensures ChunkOk(TypeChunk(b, last)) && TypeHere(b, last, BitsAt([TypeChunk(b, last)] + t))
    ensures 3 <= BitsAt([TypeChunk(b, last)] + t).avail && Skip(BitsAt([TypeChunk(b, last)] + t), 3) == BitsAt(t)
  {
    var c := TypeChunk(b, last);
    assert Pow2(3) == 8;
    ChunkHere(c, t);
    hide BitsAt, Skip, Pow2;
    EighthIs(BitsAt([c] + t).h, c.v);
  }

  lemma EighthIs(h: nat, v: nat)
    requires ExtraIs(h, 3, v)
    ensures h % 2 == v % 2 && After(h, 1) % 4 == v / 2
  {
    assert Pow2(3) == 8 && Pow2(1) == 2;
    AfterIs(h, 1);
    hide *;
    EighthParts(h);
  }

  lemma EighthParts(h: nat)
    ensures h % 2 == h % 8 % 2 && h / 2 % 4 == h % 8 / 2
  {
  }

  lemma {:induction false} BytesSent(data: seq<Byte>, t: seq<Chunk>)
    ensures Bytes(BitsAt(ByteChunks(data) + t), |data|) == data
    ensures 8 * |data| <= BitsAt(ByteChunks(data) + t).avail
    ensures Skip(BitsAt(ByteChunks(data) + t), 8 * |data|) == BitsAt(t)
    decreases |data|
  {
    hide *;
    var p := BitsAt(ByteChunks(data) + t);
    if data == [] {
      NoByteChunks();
      assert ByteChunks(data) + t == t;
      SkipNone(p);
      BytesStep(p, 0);
    } else {
      var rest := ByteChunks(data[1..]) + t;
      ByteChunksNext(data);
      assert ByteChunks(data) + t == [Chunk(data[0], 8)] + rest;
      ByteChunkOk(data[0]);
      ChunkHere(Chunk(data[0], 8), rest);
      SkipIs(p, 8);
      BytesSent(data[1..], t);
      SkipSkip(p, 8, 8 * |data[1..]|);
      BytesStep(p, |data|);
      BytesSame(Bits(p.h / 0x100, p.avail), BitsAt(rest), |data| - 1);
      ByteIs(p.h, data[0]);
    }
  }

  lemma ByteIs(h: nat, v: nat)
    requires ExtraIs(h, 8, v)
    ensures h % 0x100 == v && After(h, 8) == h / 0x100
  {
    assert Pow2(8) == 0x100;
    AfterIs(h, 8);
  }

  lemma ByteChunkOk(c: Byte)
    ensures ChunkOk(Chunk(c, 8)) && Pow2(8) == 0x100
  {
    assert Pow2(8) == 0x100;
  }

  lemma ByteChunksNext(data: seq<Byte>)
    requires data != []
    ensures ByteChunks(data) == [Chunk(data[0], 8)] + ByteChunks(data[1..])
  {
  }

  lemma BytesStep(p: Bits, n: nat)
    ensures n == 0 ==> Bytes(p, n) == []
    ensures n > 0 ==> Bytes(p, n) == [p.h % 0x100] + Bytes(Bits(p.h / 0x100, p.avail), n - 1)
  {
  }

  /** Bytes are read from the bits alone. */
  lemma {:induction false} BytesSame(p: Bits, q: Bits, n: nat)
    requires p.h == q.h
    ensures Bytes(p, n) == Bytes(q, n)
    decreases n
  {
    if n > 0 { BytesSame(Bits(p.h / 0x100, p.avail), Bits(q.h / 0x100, q.avail), n - 1); }
  }

  ghost function StoredChunks(data: seq<Byte>, pad: nat): seq<Chunk>
    requires |data| <= 0xffff
  {
    [Chunk(0, pad), Chunk(|data|, 16), Chunk(0xffff - |data|, 16)] + ByteChunks(data)
  }

  lemma Sixteens(n: nat)
    requires n <= 0xffff
    ensures ChunkOk(Chunk(n, 16)) && ChunkOk(Chunk(0xffff - n, 16))
  {
    SixteenBits();
  }

  /** Padding and lengths are found where they are read, if all bits make whole bytes. */
  lemma StoredSent(data: seq<Byte>, pad: nat, t: seq<Chunk>, text: seq<Byte>)
    requires |data| <= 0xffff && pad < 8 && Total(t) % 8 == 0
    ensures StoredAt(data, ToWhole(PlaceOf(StoredChunks(data, pad) + t, text)), text, PlaceOf(t, text + data))
  {
    hide *;
    var a, b, c := Chunk(0, pad), Chunk(|data|, 16), Chunk(0xffff - |data|, 16);
    var p := PlaceOf(StoredChunks(data, pad) + t, text);
    var rest := ByteChunks(data) + t;
    var s := BitsAt([b] + ([c] + rest));
    StoredChunksAre(data, pad);
    assert StoredChunks(data, pad) + t == [a] + ([b] + ([c] + rest));
    PlaceOfIs(StoredChunks(data, pad) + t, text);
    PlaceOfIs(t, text + data);
    BitsAtIs(StoredChunks(data, pad) + t);
    BitsAtIs(t);
    ZeroChunk(pad, 1);
    Sixteens(|data|);
    ChunkHere(a, [b] + ([c] + rest));
    ChunkHere(b, [c] + rest);
    ChunkHere(c, rest);
    BytesSent(data, t);
    SkipIs(BitsAt([a] + ([b] + ([c] + rest))), pad);
    SkipIs(s, 16);
    SkipIs(BitsAt([c] + rest), 16);
    SkipIs(BitsAt(rest), 8 * |data|);
    SkipSkip(s, 16, 16);
    SkipIs(s, 32);
    SkipSkip(s, 32, 8 * |data|);
    PadIs(p.avail, pad, |data|, Total(t));
    ToWholeIs(p);
    StoredIs(data, s, text, PlaceOf(t, text + data));
  }

  lemma StoredChunksAre(data: seq<Byte>, pad: nat)
    requires |data| <= 0xffff
    ensures StoredChunks(data, pad)
            == [Chunk(0, pad), Chunk(|data|, 16), Chunk(0xffff - |data|, 16)] + ByteChunks(data)
  {
  }

  lemma PadIs(avail: nat, pad: nat, n: nat, rest: nat)
    requires pad < 8 && avail == pad + 32 + 8 * n + rest && rest % 8 == 0
    ensures avail % 8 == pad
  {
  }

  /* ---- block after block ---- */

  /** All bits together make whole bytes. */
  ghost predicate Whole(cs: seq<Chunk>, t: seq<Chunk>) {
    (Total(cs) + Total(t)) % 8 == 0
  }

  /** What has been sent is the blocks bs, whatever is sent after it: inflate reads them and has put out text. */
  ghost predicate Writes(cs: seq<Chunk>, bs: seq<Block>, text: seq<Byte>, wsize: nat) {
    forall t: seq<Chunk> :: Whole(cs, t) ==> BlocksHere(bs, PlaceOf(cs + t, []), PlaceOf(t, text), wsize)
  }

  /** What has been sent is a complete stream for text. */
  ghost predicate Finished(cs: seq<Chunk>, bs: seq<Block>, text: seq<Byte>, wsize: nat) {
    && Total(cs) % 8 == 0
    && StreamHere(bs, PlaceOf(cs, []), Place(0, 0, text), wsize) && StreamText([], bs) == text
  }

  lemma WritesNothing(wsize: nat)
    ensures Writes([], [], [], wsize)
  {
    forall t: seq<Chunk>
      ensures BlocksHere([], PlaceOf([] + t, []), PlaceOf(t, []), wsize)
    {
      assert [] + t == t;
    }
  }

  /** cs are the bits of block b behind any text that ends like text does. */
  ghost predicate Sends(cs: seq<Chunk>, before: seq<Chunk>, b: Block, last: bool, text: seq<Byte>, wsize: nat) {
    forall t: seq<Chunk> ::
      Whole(before + cs, t) ==> BlockHere(b, last, PlaceOf(cs + t, text), PlaceOf(t, BlockText(text, b)), wsize)
  }

  lemma WritesMore(before: seq<Chunk>, cs: seq<Chunk>, bs: seq<Block>, b: Block, text: seq<Byte>, wsize: nat)
    requires Writes(before, bs, text, wsize) && Sends(cs, before, b, false, text, wsize)
    ensures Writes(before + cs, bs + [b], BlockText(text, b), wsize)
  {
    hide BlocksHere, BlockHere, BlockText;
    forall t: seq<Chunk> | Whole(before + cs, t)
      ensures BlocksHere(bs + [b], PlaceOf(before + cs + t, []), PlaceOf(t, BlockText(text, b)), wsize)
    {
      WholeSplit(before, cs, t);
      assert before + (cs + t) == before + cs + t;
      BlocksPush(bs, PlaceOf(before + cs + t, []), PlaceOf(cs + t, text), b, PlaceOf(t, BlockText(text, b)), wsize);
    }
  }

  lemma WholeSplit(before: seq<Chunk>, cs: seq<Chunk>, t: seq<Chunk>)
    requires Whole(before + cs, t)
    ensures Whole(before, cs + t)
  {
    TotalAdd(before, cs);
    TotalAdd(cs, t);
  }

  /** With the last block sent and the last byte filled up, the stream is complete. */
  lemma WritesAll(before: seq<Chunk>, cs: seq<Chunk>, pad: nat, bs: seq<Block>, b: Block, text: seq<Byte>, wsize: nat)
    requires Writes(before, bs, text, wsize) && Sends(cs, before, b, true, text, wsize)
    requires pad < 8 && Total(before + cs + [Chunk(0, pad)]) % 8 == 0
    ensures Finished(before + cs + [Chunk(0, pad)], bs + [b], BlockText(text, b), wsize)
  {
    hide *;
    var t := [Chunk(0, pad)];
    var all := before + cs + t;
    var text' := BlockText(text, b);
    TotalAdd(before + cs, t);
    WholeIs(before + cs, t);
    WholeSplit(before, cs, t);
    assert before + (cs + t) == all;
    WritesAt(before, cs + t, bs, text, wsize);
    SendsAt(cs, before, b, true, text, wsize, t);
    BlocksClose(bs, PlaceOf(all, []), PlaceOf(cs + t, text), b, PlaceOf(t, text'), wsize);
    PlaceOfIs(t, text');
    PlaceOfIs(all, []);
    PadSkipped(pad, text');
    StreamEnds(bs + [b], PlaceOf(all, []), Place(0, 0, text'), wsize);
    FinishedIs(all, bs + [b], text', wsize);
  }

  lemma WritesAt(cs: seq<Chunk>, t: seq<Chunk>, bs: seq<Block>, text: seq<Byte>, wsize: nat)
    requires Writes(cs, bs, text, wsize) && Whole(cs, t)
    ensures BlocksHere(bs, PlaceOf(cs + t, []), PlaceOf(t, text), wsize)
  {
    hide BlocksHere, PlaceOf, Whole;
  }

  lemma SendsAt(cs: seq<Chunk>, before: seq<Chunk>, b: Block, last: bool, text: seq<Byte>, wsize: nat, t: seq<Chunk>)
    requires Sends(cs, before, b, last, text, wsize) && Whole(before + cs, t)
    ensures BlockHere(b, last, PlaceOf(cs + t, text), PlaceOf(t, BlockText(text, b)), wsize)
  {
    hide BlockHere, PlaceOf, Whole, BlockText;
  }

  lemma FinishedIs(cs: seq<Chunk>, bs: seq<Block>, text: seq<Byte>, wsize: nat)
    requires Total(cs) % 8 == 0
    requires StreamHere(bs, PlaceOf(cs, []), Place(0, 0, text), wsize) && StreamText([], bs) == text
    ensures Finished(cs, bs, text, wsize)
  {
    hide StreamHere, PlaceOf, StreamText, Total;
  }

  lemma PadSkipped(pad: nat, text: seq<Byte>)
    requires pad < 8
    ensures At(ToWhole(PlaceOf([Chunk(0, pad)], text)), text) == Place(0, 0, text)
  {
    hide *;
    var p := PlaceOf([Chunk(0, pad)], text);
    PlaceOfIs([Chunk(0, pad)], text);
    OneChunk(Chunk(0, pad));
    ToWholeIs(p);
    ZeroAfter(pad);
    Below8(pad);
    SkipIs(Bits(p.h, p.avail), p.avail % 8);
    AtIs(ToWhole(p), text);
  }

  lemma Below8(pad: nat)
    requires pad < 8
    ensures pad % 8 == pad
  {
  }

  lemma ZeroAfter(n: nat)
    ensures After(0, n) == 0
  {
    AfterIs(0, n);
  }

  lemma SendsMade(cs: seq<Chunk>, before: seq<Chunk>, b: Block, last: bool, text: seq<Byte>, wsize: nat)
    requires forall t: seq<Chunk> ::
      Whole(before + cs, t) ==> BlockHere(b, last, PlaceOf(cs + t, text), PlaceOf(t, BlockText(text, b)), wsize)
    ensures Sends(cs, before, b, last, text, wsize)
  {
  }

  /** Behind its type, the rest of a block. */
  lemma BlockMade(b: Block, last: bool, cs: seq<Chunk>, t: seq<Chunk>, text: seq<Byte>, q: Place, wsize: nat)
    requires BodyHere(b, PlaceOf(cs + t, text), q, wsize)
    ensures BlockHere(b, last, PlaceOf([TypeChunk(b, last)] + cs + t, text), q, wsize)
  {
    var p := PlaceOf([TypeChunk(b, last)] + cs + t, text);
    assert [TypeChunk(b, last)] + cs + t == [TypeChunk(b, last)] + (cs + t);
    TypeSent(b, last, cs + t);
    hide BodyHere, TypeHere, Value, Total, TypeChunk, Skip;
  }

  /** A stored block. */
  lemma StoredSends(data: seq<Byte>, pad: nat, before: seq<Chunk>, last: bool, text: seq<Byte>, wsize: nat)
    requires |data| <= 0xffff && pad < 8 && (Total(before + [TypeChunk(Stored(data), last)]) + pad) % 8 == 0
    ensures Sends([TypeChunk(Stored(data), last)] + StoredChunks(data, pad), before, Stored(data), last, text, wsize)
  {
    hide *;
    var b, c := Stored(data), StoredChunks(data, pad);
    var cs := [TypeChunk(b, last)] + c;
    forall t: seq<Chunk> | Whole(before + cs, t)
      ensures BlockHere(b, last, PlaceOf(cs + t, text), PlaceOf(t, BlockText(text, b)), wsize)
    {
      StoredTail(data, pad, before, last, t);
      StoredSent(data, pad, t, text);
      PlaceOfIs(c + t, text);
      StoredBody(data, PlaceOf(c + t, text), PlaceOf(t, text + data), text, wsize);
      BlockMade(b, last, c, t, text, PlaceOf(t, text + data), wsize);
    }
    SendsMade(cs, before, b, last, text, wsize);
  }

  lemma StoredTail(data: seq<Byte>, pad: nat, before: seq<Chunk>, last: bool, t: seq<Chunk>)
    requires |data| <= 0xffff && (Total(before + [TypeChunk(Stored(data), last)]) + pad) % 8 == 0
    requires Whole(before + ([TypeChunk(Stored(data), last)] + StoredChunks(data, pad)), t)
    ensures Total(t) % 8 == 0
  {
    hide *;
    var a, c := [TypeChunk(Stored(data), last)], StoredChunks(data, pad);
    assert before + (a + c) == (before + a) + c;
    TotalAdd(before + a, c);
    StoredTotal(data, pad);
    WholeIs(before + (a + c), t);
    Divides(Total(before + a) + pad, 32 + 8 * |data|, Total(t));
  }

  lemma WholeIs(cs: seq<Chunk>, t: seq<Chunk>)
    ensures Whole(cs, t) <==> (Total(cs) + Total(t)) % 8 == 0
  {
  }

  lemma Divides(a: nat, b: nat, c: nat)
    requires a % 8 == 0 && b % 8 == 0 && (a + b + c) % 8 == 0
    ensures c % 8 == 0
  {
  }

  lemma StoredTotal(data: seq<Byte>, pad: nat)
    requires |data| <= 0xffff
    ensures Total(StoredChunks(data, pad)) == pad + 32 + 8 * |data|
  {
    var a, b, c := Chunk(0, pad), Chunk(|data|, 16), Chunk(0xffff - |data|, 16);
    hide Total;
    BytesTotal(data);
    assert [a, b, c] == [a] + ([b] + [c]);
    OneChunk(a);
    OneChunk(b);
    OneChunk(c);
    TotalAdd([b], [c]);
    TotalAdd([a], [b] + [c]);
    TotalAdd([a, b, c], ByteChunks(data));
  }

  lemma {:induction false} BytesTotal(data: seq<Byte>)
    ensures Total(ByteChunks(data)) == 8 * |data|
    decreases |data|
  {
    hide *;
    NoByteChunks();
    NoChunks();
    if data != [] {
      ByteChunksNext(data);
      OneChunk(Chunk(data[0], 8));
      TotalAdd([Chunk(data[0], 8)], ByteChunks(data[1..]));
      BytesTotal(data[1..]);
    }
  }

  lemma StoredBody(data: seq<Byte>, p: Place, q: Place, text: seq<Byte>, wsize: nat)
    requires StoredAt(data, ToWhole(p), text, q) && p.text == text
    ensures BodyHere(Stored(data), p, q, wsize) && BlockText(text, Stored(data)) == text + data
  {
    hide StoredAt;
  }

  /** A block with codes z, the fixed ones or others. */
  lemma CodedSends(z: Codes, xs: seq<Coded>, tokens: seq<Token>, hd: Head, fixed: bool, before: seq<Chunk>, last: bool,
                   text: seq<Byte>, maxDist: nat, wsize: nat)
    requires HasCodes(z, xs) && AllOk(xs) && Carries(xs, tokens)
    requires AllSound(tokens, maxDist) && maxDist <= wsize && Reaching(text, tokens)
    requires if fixed then z == FixedCodes() else z == hd.z && HeadFits(hd) && Usable(z) && !Refused(CODES, hd.cl)
    ensures var b := if fixed then Fixed(xs) else Dynamic(hd, xs);
            var head := if fixed then [] else HeadChunks(hd);
            && Sends([TypeChunk(b, last)] + (head + BlockChunks(z, xs)), before, b, last, text, wsize)
            && BlockText(text, b) == Expanded(text, xs) == Expand(text, tokens)
  {
    hide *;
    var b := if fixed then Fixed(xs) else Dynamic(hd, xs);
    var head := if fixed then [] else HeadChunks(hd);
    var c := head + BlockChunks(z, xs);
    var cs := [TypeChunk(b, last)] + c;
    CarriedText(text, xs, tokens);
    CodedText(b, text, xs, hd);
    forall t: seq<Chunk> | Whole(before + cs, t)
      ensures BlockHere(b, last, PlaceOf(cs + t, text), PlaceOf(t, BlockText(text, b)), wsize)
    {
      BlockSent(z, xs, tokens, text, t, maxDist, wsize);
      var rest := BlockChunks(z, xs) + t;
      assert c + t == head + rest;
      PlaceOfIs(rest, text);
      PlaceOfIs(c + t, text);
      BitsAtIs(rest);
      BitsAtIs(c + t);
      AtIs(BitsAt(rest), text);
      if fixed {
        assert c + t == rest;
        FixedBody(xs, PlaceOf(c + t, text), PlaceOf(t, BlockText(text, b)), wsize);
      } else {
        HeadSent(hd, rest);
        DynamicBody(hd, xs, PlaceOf(c + t, text), BitsAt(rest), PlaceOf(t, BlockText(text, b)), wsize);
      }
      BlockMade(b, last, c, t, text, PlaceOf(t, BlockText(text, b)), wsize);
    }
    SendsMade(cs, before, b, last, text, wsize);
  }

  lemma CodedText(b: Block, text: seq<Byte>, xs: seq<Coded>, hd: Head)
    requires b == Fixed(xs) || b == Dynamic(hd, xs)
    ensures BlockText(text, b) == Expanded(text, xs)
  {
  }

  lemma FixedBody(xs: seq<Coded>, p: Place, q: Place, wsize: nat)
    requires BlockReadable(FixedCodes(), xs, p, q, wsize)
    ensures BodyHere(Fixed(xs), p, q, wsize)
  {
    hide BlockReadable;
  }

  lemma DynamicBody(hd: Head, xs: seq<Coded>, p: Place, r: Bits, q: Place, wsize: nat)
    requires HeadHere(hd, Bits(p.h, p.avail), r) && BlockReadable(hd.z, xs, At(r, p.text), q, wsize)
    ensures BodyHere(Dynamic(hd, xs), p, q, wsize)
  {
    hide HeadHere, BlockReadable;
  }

  /* ---- sending a block ---- */

  /** The trees built for a block: every symbol of its tokens has a code, inflate can use them, and the head fits. */
  ghost predicate Built(ltree: Tree, dtree: Tree, bl: Tree, hd: Head, tokens: seq<Token>)
    reads ltree.code, ltree.len, dtree.code, dtree.len, bl.code, bl.len
  {
    && TreesFor(ltree, dtree, hd.z) && Guarded(ltree.len, hd.z.lens) && Guarded(dtree.len, hd.z.dists)
    && TreeFor(bl, hd.cl) && bl.len.Length == 19 && HeadFits(hd) && Usable(hd.z) && !Refused(CODES, hd.cl)
    && HasCodes(hd.z, FormsOf(tokens))
  }

  lemma BuiltParts(ltree: Tree, dtree: Tree, bl: Tree, hd: Head, tokens: seq<Token>)
    requires Built(ltree, dtree, bl, hd, tokens)
    ensures TreesFor(ltree, dtree, hd.z) && Guarded(ltree.len, hd.z.lens) && Guarded(dtree.len, hd.z.dists)
    ensures TreeFor(bl, hd.cl) && bl.len.Length == 19 && HeadFits(hd) && Usable(hd.z) && !Refused(CODES, hd.cl)
    ensures HasCodes(hd.z, FormsOf(tokens)) && LengthsOk(hd.cl)
  {
    hide TreesFor, Guarded, TreeFor, Usable, Refused, HasCodes, FormsOf;
  }

  ghost predicate Sent(cs: seq<Chunk>, bs: seq<Block>, text: seq<Byte>, last: bool, wsize: nat) {
    if last then Finished(cs, bs, text, wsize) else Writes(cs, bs, text, wsize)
  }

  lemma SentIs(cs: seq<Chunk>, bs: seq<Block>, text: seq<Byte>, last: bool, wsize: nat)
    ensures Sent(cs, bs, text, last, wsize) <==>
              if last then Finished(cs, bs, text, wsize) else Writes(cs, bs, text, wsize)
  {
  }

  /** Ends a block: behind the last one the last byte is filled up. */
  method EndBlock(s: Sender, last: bool, ghost before: seq<Chunk>, ghost cs: seq<Chunk>, ghost bs: seq<Block>,
                  ghost b: Block, ghost text: seq<Byte>, ghost wsize: nat)
    requires s.Room(7) && s.sent == before + cs && Writes(before, bs, text, wsize)
    requires Sends(cs, before, b, last, text, wsize)
    modifies s, s.pending_buf
    ensures s.Open() && Sent(s.sent, bs + [b], BlockText(text, b), last, wsize)
    ensures s.bi_valid == if last then 0 else old(s.bi_valid)
  {
    hide *;
    s.RoomIs(7);
    ghost var a := s.Now();
    if last {
      ghost var pad := s.WindUp();
      s.OpenIs();
      s.ValidIs();
      s.RoomIs(0);
      SentOnIs(a, s.Now(), [Chunk(0, pad)]);
      WholeTotal(|s.Bytes()|);
      WritesAll(before, cs, pad, bs, b, text, wsize);
    } else {
      WritesMore(before, cs, bs, b, text, wsize);
    }
    SentIs(s.sent, bs + [b], BlockText(text, b), last, wsize);
  }

  lemma WholeTotal(n: nat)
    ensures 8 * n % 8 == 0
  {
  }

  /** The block type and the bytes of a stored block. */
  method StoredBlock(s: Sender, buf: seq<Byte>, last: bool, ghost bs: seq<Block>, ghost text: seq<Byte>,
                     ghost wsize: nat)
    requires s.Room(49 + 8 * |buf|) && |buf| <= 0xffff && Writes(s.sent, bs, text, wsize)
    modifies s, s.pending_buf
    ensures s.Open() && Sent(s.sent, bs + [Stored(buf)], text + buf, last, wsize) && s.bi_valid == 0
  {
    hide *;
    ghost var before, b, s0 := s.sent, Stored(buf), s.Now();
    s.RoomIs(49 + 8 * |buf|);
    s.RoomIs(3);
    TypeIs(b, last);
    s.SendBits(0 + if last then 1 else 0, 3);
    ghost var s1 := s.Now();
    BitsOnIs(s0, s1, [TypeChunk(b, last)]);
    OneChunk(TypeChunk(b, last));
    s.RoomIs(7 + 32 + 8 * |buf|);
    ghost var pad := s.CopyBlock(buf);
    ghost var s2 := s.Now();
    StoredChunksAre(buf, pad);
    StoredTotal(buf, pad);
    SentOnIs(s1, s2, StoredChunks(buf, pad));
    s.RoomIs(7);
    StoredSends(buf, pad, before, last, text, wsize);
    assert s.sent == before + ([TypeChunk(b, last)] + StoredChunks(buf, pad));
    StoredTextIs(buf, text);
    EndBlock(s, last, before, [TypeChunk(b, last)] + StoredChunks(buf, pad), bs, b, text, wsize);
  }

  lemma StoredTextIs(data: seq<Byte>, text: seq<Byte>)
    ensures BlockText(text, Stored(data)) == text + data
  {
  }

  lemma TypeIs(b: Block, last: bool)
    ensures TypeChunk(b, last) == Chunk(2 * TypeOf(b) + if last then 1 else 0, 3)
    ensures TypeChunk(b, last).v < Pow2(3) && (b.Stored? ==> TypeOf(b) == 0) && (b.Fixed? ==> TypeOf(b) == 1)
    ensures b.Dynamic? ==> TypeOf(b) == 2
  {
    assert Pow2(3) == 8;
  }

  /** Sends a block with the fixed codes. */
  method FixedBlock(s: Sender, tables: StaticTables, ltree: Tree, dtree: Tree, lit_bufsize: nat, last_lit: nat,
                    last: bool, ghost bs: seq<Block>, ghost text: seq<Byte>, ghost maxDist: nat, ghost wsize: nat)
    returns (ok: bool, ghost b: Block)
    requires tables.Valid() && tables.AwayFrom(s.pending_buf) && TreesFor(ltree, dtree, FixedCodes())
    requires s.pending_buf.Length == 4 * lit_bufsize && last_lit <= lit_bufsize && Writes(s.sent, bs, text, wsize)
    requires maxDist <= wsize && maxDist <= 32768
    requires var tokens := TokensIn(s.pending_buf[..], lit_bufsize, last_lit);
             && AllSound(tokens, maxDist) && Reaching(text, tokens)
             && s.Room(3 + FixedBits(tokens) + 14) && InPairs(s.Now())
    modifies s, s.pending_buf
    ensures s.Open() && b.Fixed?
    ensures var tokens := TokensIn(old(s.pending_buf[..]), lit_bufsize, last_lit);
            && (ok <==> InTimeAll(lit_bufsize, old(s.Now()).used + 3, tokens))
            && (ok ==> (last ==> s.bi_valid == 0) && Sent(s.sent, bs + [b], Expand(text, tokens), last, wsize))
  {
    hide *;
    ghost var tokens, before, s0 := TokensIn(s.pending_buf[..], lit_bufsize, last_lit), s.sent, s.Now();
    ghost var xs := FormsOf(tokens);
    TokensSound(tokens, maxDist);
    FixedTotal(tokens);
    s.NowIs();
    s.RoomIs(3 + FixedBits(tokens) + 14);
    s.RoomIs(3);
    b := Fixed(xs);
    TypeIs(b, last);
    s.SendBits(2 + if last then 1 else 0, 3);
    ghost var s1 := s.Now();
    BitsOnIs(s0, s1, [TypeChunk(b, last)]);
    OneChunk(TypeChunk(b, last));
    BehindNone(s0.mem, s0.pending);
    BehindSent(s0.mem, s0, s1, [TypeChunk(b, last)]);
    AwayIs(tables, s.pending_buf);
    s.NowIs();
    s.RoomIs(Total(BlockChunks(FixedCodes(), xs)));
    InTimeAllIs(lit_bufsize, s1.used, tokens);
    ok := CompressBlock(s, tables, lit_bufsize, last_lit, ltree, dtree, FixedCodes(), s0.mem);
    if ok {
      ghost var cs := [TypeChunk(b, last)] + BlockChunks(FixedCodes(), xs);
      BitsOnIs(s1, s.Now(), BlockChunks(FixedCodes(), xs));
      s.RoomIs(7);
      assert s.sent == before + cs;
      CodedSends(FixedCodes(), xs, tokens, NoHead(), true, before, last, text, maxDist, wsize);
      assert cs == [TypeChunk(b, last)] + ([] + BlockChunks(FixedCodes(), xs));
      EndBlock(s, last, before, cs, bs, b, text, wsize);
    }
  }

  /** Sends a block with the trees built for it. */
  method DynamicBlock(s: Sender, tables: StaticTables, ltree: Tree, dtree: Tree, bl: Tree, lcodes: nat, dcodes: nat,
                      blcodes: nat, lit_bufsize: nat, last_lit: nat, last: bool, ghost hd: Head,
                      ghost bs: seq<Block>, ghost text: seq<Byte>, ghost maxDist: nat, ghost wsize: nat)
    returns (ok: bool, ghost b: Block)
    requires tables.Valid() && tables.AwayFrom(s.pending_buf)
    requires s.pending_buf.Length == 4 * lit_bufsize && last_lit <= lit_bufsize
    requires Writes(s.sent, bs, text, wsize) && maxDist <= wsize && maxDist <= 32768
    requires var tokens := TokensIn(s.pending_buf[..], lit_bufsize, last_lit);
             && AllSound(tokens, maxDist) && Reaching(text, tokens) && Built(ltree, dtree, bl, hd, tokens)
             && s.Room(DynamicBits(hd, tokens) + 7) && InPairs(s.Now())
    requires lcodes == hd.nlen && dcodes == hd.ndist && blcodes == hd.ncode
    modifies s, s.pending_buf
    ensures s.Open() && b.Dynamic?
    ensures var tokens := TokensIn(old(s.pending_buf[..]), lit_bufsize, last_lit);
            && HeadFits(hd) && HasCodes(hd.z, FormsOf(tokens)) && AllOk(FormsOf(tokens))
            && (ok <==> Clear(lit_bufsize, old(s.Now()).used + 3 + Total(HeadChunks(hd)), hd.z, FormsOf(tokens)))
            && (ok ==> (last ==> s.bi_valid == 0) && Sent(s.sent, bs + [b], Expand(text, tokens), last, wsize))
  {
    hide *;
    ghost var tokens, before, s0 := TokensIn(s.pending_buf[..], lit_bufsize, last_lit), s.sent, s.Now();
    ghost var xs := FormsOf(tokens);
    TokensSound(tokens, maxDist);
    BuiltParts(ltree, dtree, bl, hd, tokens);
    DynamicBitsAre(hd, tokens);
    s.NowIs();
    s.RoomIs(DynamicBits(hd, tokens) + 7);
    s.RoomIs(3);
    b := Dynamic(hd, xs);
    TypeIs(b, last);
    s.SendBits(4 + if last then 1 else 0, 3);
    ghost var s1 := s.Now();
    BitsOnIs(s0, s1, [TypeChunk(b, last)]);
    OneChunk(TypeChunk(b, last));
    s.RoomIs(Total(HeadChunks(hd)));
    SendAllTrees(s, lcodes, dcodes, blcodes, ltree, dtree, bl, hd);
    ghost var s2 := s.Now();
    BitsOnIs(s1, s2, HeadChunks(hd));
    BitsThen(s0, s1, s2, [TypeChunk(b, last)], HeadChunks(hd));
    BehindNone(s0.mem, s0.pending);
    BehindSent(s0.mem, s0, s2, [TypeChunk(b, last)] + HeadChunks(hd));
    AwayIs(tables, s.pending_buf);
    s.NowIs();
    s.RoomIs(Total(BlockChunks(hd.z, xs)));
    ok := CompressBlock(s, tables, lit_bufsize, last_lit, ltree, dtree, hd.z, s0.mem);
    if ok {
      ghost var cs := [TypeChunk(b, last)] + (HeadChunks(hd) + BlockChunks(hd.z, xs));
      BitsOnIs(s2, s.Now(), BlockChunks(hd.z, xs));
      s.RoomIs(7);
      assert s.sent == before + cs;
      CodedSends(hd.z, xs, tokens, hd, false, before, last, text, maxDist, wsize);
      EndBlock(s, last, before, cs, bs, b, text, wsize);
    }
  }

  /** The bits of a block with trees of its own. */
  ghost function DynamicBits(hd: Head, tokens: seq<Token>): nat {
    if HeadFits(hd) && HasCodes(hd.z, FormsOf(tokens)) && AllOk(FormsOf(tokens))
    then 3 + Total(HeadChunks(hd)) + Total(BlockChunks(hd.z, FormsOf(tokens)))
    else 0
  }

  lemma DynamicBitsAre(hd: Head, tokens: seq<Token>)
    requires HeadFits(hd) && HasCodes(hd.z, FormsOf(tokens)) && AllOk(FormsOf(tokens))
    ensures DynamicBits(hd, tokens) == 3 + Total(HeadChunks(hd)) + Total(BlockChunks(hd.z, FormsOf(tokens)))
  {
  }

  /** Everything a block may be sent with: the tables, the fixed trees, and the trees built for it. */
  class Trees {
    const tables: StaticTables
    const static_l: Tree
    const static_d: Tree
    const dyn_l: Tree
    const dyn_d: Tree
    const bl: Tree

    constructor ()
      ensures tables.Valid() && TreesFor(static_l, static_d, FixedCodes())
      ensures fresh(tables.length_code) && fresh(tables.dist_code)
    {
      hide *;
      var t := new StaticTables();
      var sl := StaticLTree();
      var sd := StaticDTree();
      var a, b, c := new UInt16[573](_ => 0), new UInt16[61](_ => 0), new UInt16[19](_ => 0);
      var a', b', c' := new UInt16[573](_ => 0), new UInt16[61](_ => 0), new UInt16[19](_ => 0);
      tables, static_l, static_d := t, sl, sd;
      dyn_l, dyn_d, bl := Tree(a, a'), Tree(b, b'), Tree(c, c');
      new;
      FixedCodesAre();
      FixedWithin();
      TreesParts(static_l, static_d, FixedCodes());
    }
  }

  /** For blocks that have no head. */
  ghost function NoHead(): Head {
    Head(0, 0, 0, [], [], FixedCodes())
  }

  /** How many bytes so many bits fill. */
  function InBytes(bits: nat): nat {
    (bits + 7) / 8
  }

  /** Sends a block: stored if that takes no more bytes than the codes and the bytes are still there, else with the
      fixed codes if they are asked for or take no more than the ones built for the block, else with those. Reports
      whether the tokens were read as they were tallied. */
  method FlushBlock(s: Sender, trees: Trees, lit_bufsize: nat, last_lit: nat, buf: seq<Byte>, haveBuf: bool,
                    stored_len: nat, last: bool, fixedOnly: bool, opt_lenb0: nat,
                    lcodes: nat, dcodes: nat, blcodes: nat, ghost hd: Head,
                    ghost bs: seq<Block>, ghost text: seq<Byte>, ghost maxDist: nat, ghost wsize: nat)
    returns (ok: bool, ghost b: Block)
    requires trees.tables.Valid() && trees.tables.AwayFrom(s.pending_buf)
    requires TreesFor(trees.static_l, trees.static_d, FixedCodes())
    requires s.Open() && s.pending == 0 && s.bi_valid < 8 && Writes(s.sent, bs, text, wsize)
    requires s.pending_buf.Length == 4 * lit_bufsize && last_lit < lit_bufsize && lit_bufsize >= 64
    requires maxDist <= wsize && maxDist <= 32768
    requires var tokens := TokensIn(s.pending_buf[..], lit_bufsize, last_lit);
             && AllSound(tokens, maxDist) && Reaching(text, tokens)
             && (haveBuf ==> |buf| == stored_len <= 0xffff && Expand(text, tokens) == text + buf)
             && (!fixedOnly ==> Built(trees.dyn_l, trees.dyn_d, trees.bl, hd, tokens)
                                && lcodes == hd.nlen && dcodes == hd.ndist && blcodes == hd.ncode
                                && opt_lenb0 == InBytes(DynamicBits(hd, tokens)))
    modifies s, s.pending_buf
    ensures s.Open() && (fixedOnly ==> !b.Dynamic?)
    ensures var tokens, used := TokensIn(old(s.pending_buf[..]), lit_bufsize, last_lit), old(s.Now()).used + 3;
            && (ok ==> (last ==> s.bi_valid == 0) && Sent(s.sent, bs + [b], Expand(text, tokens), last, wsize))
            && (b.Stored? ==> ok) && (b.Fixed? ==> (ok <==> InTimeAll(lit_bufsize, used, tokens)))
            && (b.Dynamic? ==>
                  && HeadFits(hd) && HasCodes(hd.z, FormsOf(tokens)) && AllOk(FormsOf(tokens))
                  && (ok <==> Clear(lit_bufsize, used + Total(HeadChunks(hd)), hd.z, FormsOf(tokens))))
  {
    hide *;
    ghost var tokens := TokensIn(s.pending_buf[..], lit_bufsize, last_lit);
    var static_lenb := InBytes(3 + FixedBits(TokensIn(s.pending_buf[..], lit_bufsize, last_lit)) + 7);
    var opt_lenb := if static_lenb <= opt_lenb0 then static_lenb else opt_lenb0;
    FixedRoom(tokens, maxDist, lit_bufsize);
    s.NowIs();
    s.RoomIs(0);
    StartsInPairs(s.Now());
    if stored_len + 4 <= opt_lenb && haveBuf {
      ok, b := true, Stored(buf);
      s.RoomIs(49 + 8 * |buf|);
      StoredBlock(s, buf, last, bs, text, wsize);
    } else if fixedOnly || static_lenb == opt_lenb {
      s.RoomIs(3 + FixedBits(tokens) + 14);
      ok, b := FixedBlock(s, trees.tables, trees.static_l, trees.static_d, lit_bufsize, last_lit, last, bs, text,
                          maxDist, wsize);
    } else {
      InBytesLess(DynamicBits(hd, tokens), 3 + FixedBits(tokens) + 7);
      s.RoomIs(DynamicBits(hd, tokens) + 7);
      ok, b := DynamicBlock(s, trees.tables, trees.dyn_l, trees.dyn_d, trees.bl, lcodes, dcodes, blcodes, lit_bufsize,
                            last_lit, last, hd, bs, text, maxDist, wsize);
    }
  }

  /** With the fixed codes a block fits the buffer, and so does a stored block of no more bytes. */
  lemma FixedRoom(tokens: seq<Token>, maxDist: nat, n: nat)
    requires AllSound(tokens, maxDist) && maxDist <= 32768 && |tokens| < n && n >= 64
    ensures 7 + 3 + FixedBits(tokens) + 14 <= 32 * n
    ensures 8 * InBytes(3 + FixedBits(tokens) + 7) + 24 <= 32 * n
  {
    hide *;
    FixedBitsBound(tokens, |tokens|, maxDist);
    assert tokens[..|tokens|] == tokens;
    InBytesIs(3 + FixedBits(tokens) + 7);
  }

  lemma InBytesIs(bits: nat)
    ensures bits <= 8 * InBytes(bits) <= bits + 7
  {
  }

  lemma InBytesLess(a: nat, b: nat)
    requires InBytes(a) < InBytes(b)
    ensures a < b
  {
  }

  lemma StartsInPairs(a: Snap)
    requires a.pending == 0 && a.used <= 16
    ensures InPairs(a)
  {
  }

  /* ---- the bytes, and decoding them ---- */

  /** The bytes are a complete stream, and decoding it gives text. */
  ghost predicate StreamOf(bytes: seq<Byte>, bs: seq<Block>, text: seq<Byte>, wsize: nat) {
    && StreamHere(bs, Place(Little(bytes), 8 * |bytes|, []), Place(0, 0, text), wsize)
    && StreamText([], bs) == text
  }

  /** What has been handed over once the last block is sent and nothing is pending. */
  lemma BytesOut(s: Sender, bs: seq<Block>, text: seq<Byte>, wsize: nat)
    requires s.Valid() && s.bi_valid == 0 && s.pending == 0 && Finished(s.sent, bs, text, wsize)
    ensures StreamOf(s.out, bs, text, wsize)
  {
    hide StreamHere, StreamText, Little;
    NoPower();
    s.ValidIs();
    s.BytesAre();
    HeldIs(s.out, 0);
    PlaceOfIs(s.sent, []);
  }

  /** Whatever pieces the bytes arrive in, inflateBack puts out the text. */
  method Unpack(pieces: seq<seq<Byte>>, window: array<Byte>, ghost bs: seq<Block>, ghost text: seq<Byte>)
    returns (ret: Ending, out: seq<Byte>)
    requires InflateSource.NoneEmpty(pieces) && window.Length > 0
    requires StreamOf(BitStream.Join(pieces), bs, text, window.Length)
    modifies window
    ensures ret == StreamEnd && out == text
  {
    hide *;
    StreamOfIs(BitStream.Join(pieces), bs, text, window.Length);
    var inf := new InflateBack.Inflater(pieces, window);
    var tables := new Tables();
    inf.HereIs();
    inf.ValidIs();
    ghost var got;
    ret, got := Inflate(inf, tables, bs, Place(0, 0, text));
    inf.HereIs();
    inf.ValidIs();
    inf.output.Parts();
    out := inf.output.written + inf.output.window[..inf.output.put];
  }

  lemma StreamOfIs(bytes: seq<Byte>, bs: seq<Block>, text: seq<Byte>, wsize: nat)
    ensures StreamOf(bytes, bs, text, wsize) <==>
              && StreamHere(bs, Place(Little(bytes), 8 * |bytes|, []), Place(0, 0, text), wsize)
              && StreamText([], bs) == text
  {
    hide StreamHere, StreamText;
  }
}
