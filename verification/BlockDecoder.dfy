/** Receiving one block: checks of its header, its column, and the inverse transform set up behind it. */
module BlockDecoder {
  import opened MachineInts
  import opened BitStream
  import opened BitFields
  import opened BlockHeader
  import opened BlockBody
  import opened BlockSource
  import opened BlockEncoder

  /** The stream goes on with the block b, coded as c, behind the marker that opens a block. */
  ghost predicate BlockNext(rest: seq<bool>, c: BlockCode, b: seq<Byte>, crc: nat, tail: seq<bool>) {
    CodesBlock(c, b) && Plan(c.inUse, c.last, c.lens, c.selector) && crc < 0x1_0000_0000 && rest == BlockBits(c,
          crc) + tail
  }

  lemma {:induction false} BlockNextParts(rest: seq<bool>, c: BlockCode, b: seq<Byte>, crc: nat, tail: seq<bool>)
    requires BlockNext(rest, c, b, crc, tail)
    ensures Plan(c.inUse, c.last, c.lens, c.selector) && |c.last| == |b| && c.origPtr < |b| && c.origPtr < 0x100_0000
    ensures Restored(c.last, c.origPtr) == b && crc < 0x1_0000_0000
    ensures rest ==
      ToBits(crc, 32) + ([false] + (ToBits(c.origPtr, 24) + (BodyBits(c.inUse, c.last, c.lens, c.selector) + tail)))
  {
    hide *;
    NextIs(rest, c, b, crc, tail);
    CodesParts(c, b);
    RestoredIs(b, c.last, c.origPtr);
    BlockBitsIs(c, crc);
    Four(ToBits(crc, 32), [false], ToBits(c.origPtr, 24), BodyBits(c.inUse, c.last, c.lens, c.selector), tail);
  }

  lemma {:induction false} NextIs(rest: seq<bool>, c: BlockCode, b: seq<Byte>, crc: nat, tail: seq<bool>)
    requires BlockNext(rest, c, b, crc, tail)
    ensures CodesBlock(c, b) && Plan(c.inUse, c.last, c.lens, c.selector) && crc < 0x1_0000_0000
    ensures rest == BlockBits(c, crc) + tail
  {
  }

  lemma {:induction false} Four(a: seq<bool>, b: seq<bool>, c: seq<bool>, d: seq<bool>, tail: seq<bool>)
    ensures a + (b + (c + d)) + tail == a + (b + (c + (d + tail)))
  {
  }

  lemma {:induction false} SentIs(rest: seq<bool>, c: BlockCode, tail: seq<bool>)
    requires Plan(c.inUse, c.last, c.lens, c.selector) && rest == BodyBits(c.inUse, c.last, c.lens, c.selector) + tail
    ensures Sent(rest, c.inUse, c.last, c.lens, c.selector, tail)
  {
  }

  lemma NumberSizes()
    ensures 8 * 4 == 32 && 8 * 3 == 24
  {
  }

  /** Reads a block behind its marker; afterwards its bytes can be fetched from the store. */
  method ReceiveBlock(r: BitReader, store: BlockStore, ghost c: BlockCode, ghost b: seq<Byte>, ghost crc: nat,
                      ghost tail: seq<bool>)
    returns (o: Outcome<nat>)
    requires r.Valid() && store.Sized()
    modifies r, store, store.tt, store.ll16, store.ll4, store.unzftab, store.cftab
    ensures r.Valid() && |r.Rest()| <= old(|r.Rest()|) && store.Sized()
    ensures (o.Value? ==> store.Ready() && store.used == 0)
    ensures old(BlockNext(r.Rest(), c, b, crc, tail)) && |b| <= store.limit ==>
      o == Value(crc) && r.Rest() == tail && store.Ready() && store.Block() == b && |store.last| == |b|
  {
    hide *;
    store.SizedParts();
    EightBits();
    NumberSizes();
    ghost var good := BlockNext(r.Rest(), c, b, crc, tail) && |b| <= store.limit;
    ghost var body, t3, t2: seq<bool> := [], [], [];
    ghost var crc', o' := 0, 0;
    if good {
      BlockNextParts(r.Rest(), c, b, crc, tail);
      body := BodyBits(c.inUse, c.last, c.lens, c.selector) + tail;
      t3 := ToBits(c.origPtr, 24) + body;
      t2 := [false] + t3;
      crc', o' := crc, c.origPtr;
    }
    var stored := ReadBigEndian(r, 4, crc', t2);
    if !stored.Value? { return stored; }
    ghost var all := r.Rest();
    var randomised := ReadBit(r);
    if good { BitRead(randomised, all, r.Rest(), false, t3); }
    if randomised.NeedInput? { return NeedInput; }
    if randomised.v { return DataError; }
    var orig := ReadBigEndian(r, 3, o', body);
    if !orig.Value? { return orig; }
    if orig.v > 10 + store.limit { return DataError; }
    if good { SentIs(r.Rest(), c, tail); }
    ghost var column;
    var n;
    n, column := ReceiveBody(r, store.small, store.tt, store.ll16, store.unzftab, store.limit, c.inUse, c.last, c.lens,
                             c.selector, tail);
    store.SizedStill();
    if !n.Value? { return n; }
    if orig.v >= n.v { return DataError; }
    ghost var rest := r.Rest();
    var ok := store.Link(n.v, orig.v, column);
    store.ReadyParts();
    if !ok { return DataError; }
    store.BlockIs();
    o := Value(stored.v);
  }
}
