/** The bit buffer of deflate: numbers of so many bits, put out lowest bit first. */
module DeflateSender {
  import opened Arithmetic
  import opened MachineInts
  import opened SetSums
  import opened InflateBits
  import opened InflateSource
  import opened DeflateCodes
  import opened DeflateTokens

  /** A number v of n bits. */
  datatype Chunk = Chunk(v: nat, n: nat)

  ghost predicate ChunkOk(c: Chunk) {
    c.v < Pow2(c.n)
  }

  ghost predicate ChunksOk(cs: seq<Chunk>) {
    forall k :: 0 <= k < |cs| ==> ChunkOk(cs[k])
  }

  /** How many bits the numbers have together. */
  ghost function Total(cs: seq<Chunk>): nat {
    if cs == [] then 0 else cs[0].n + Total(cs[1..])
  }

  /** All bits as one number, the first lowest. */
  ghost function Value(cs: seq<Chunk>): nat {
    if cs == [] then 0 else cs[0].v + Pow2(cs[0].n) * Value(cs[1..])
  }

  lemma ValueStep(cs: seq<Chunk>)
    requires cs != []
    ensures Pow2(cs[0].n) * Value(cs[1..]) >= 0
    ensures Value(cs) == cs[0].v + Pow2(cs[0].n) * Value(cs[1..]) && Total(cs) == cs[0].n + Total(cs[1..])
  {
    Share(Pow2(cs[0].n), Value(cs[1..]));
  }

  lemma NoChunks()
    ensures Value([]) == 0 && Total([]) == 0 && ChunksOk([])
  {
  }

  lemma {:induction false} TotalAdd(a: seq<Chunk>, b: seq<Chunk>)
    ensures Total(a + b) == Total(a) + Total(b)
  {
    if a == [] {
      assert a + b == b;
    } else {
      TotalAdd(a[1..], b);
      assert (a + b)[1..] == a[1..] + b;
    }
  }

  lemma {:induction false} ValueAdd(a: seq<Chunk>, b: seq<Chunk>)
    ensures Pow2(Total(a)) * Value(b) >= 0 && Value(a + b) == Value(a) + Pow2(Total(a)) * Value(b)
  {
    hide *;
    NoChunks();
    NoPower();
    Share(Pow2(Total(a)), Value(b));
    if a == [] {
      assert a + b == b;
    } else {
      ValueAdd(a[1..], b);
      ValueStep(a);
      ValueStep(a + b);
      assert (a + b)[1..] == a[1..] + b;
      Pow2Add(a[0].n, Total(a[1..]));
      Nested(Pow2(a[0].n), Value(a[1..]), Pow2(Total(a[1..])), Value(b));
    }
  }

  lemma NoPower()
    ensures Pow2(0) == 1
  {
  }

  lemma Nested(p: nat, x: nat, q: nat, y: nat)
    ensures p * (x + q * y) == p * x + (p * q) * y
  {
    assert p * (q * y) == (p * q) * y;
  }

  lemma {:induction false} ValueBound(cs: seq<Chunk>)
    requires ChunksOk(cs)
    ensures Value(cs) < Pow2(Total(cs))
  {
    hide Value, Total, Pow2;
    if cs == [] {
      NoChunks();
      NoPower();
    } else {
      assert ChunkOk(cs[0]);
      ValueBound(cs[1..]);
      ValueStep(cs);
      Pow2Add(cs[0].n, Total(cs[1..]));
      Leading(cs[0].v, Pow2(cs[0].n), Value(cs[1..]), Pow2(Total(cs[1..])));
    }
  }

  lemma Leading(v: nat, p: nat, x: nat, q: nat)
    requires v < p && x < q
    ensures v + p * x < p * q
  {
    ScaleUp2(x + 1, q, p);
    Spread(x, 1, p);
  }

  /** Behind the first bits come the others. */
  lemma ValueAfter(c: Chunk, cs: seq<Chunk>)
    requires ChunkOk(c)
    ensures Value([c] + cs) % Pow2(c.n) == c.v && After(Value([c] + cs), c.n) == Value(cs)
    ensures Total([c] + cs) == c.n + Total(cs)
  {
    var all := [c] + cs;
    ValueStep(all);
    assert all[1..] == cs;
    hide *;
    AfterIs(Value(all), c.n);
    Flip3(Pow2(c.n), Value(cs));
    DivUnique(Value(all), Pow2(c.n), Value(cs), c.v);
  }

  lemma Flip3(a: nat, b: nat)
    ensures a * b == b * a
  {
  }

  /* ---- the buffer ---- */

  /** Bits held back behind the bytes put out. */
  lemma BufferMore(bytes: seq<Byte>, buf: nat, valid: nat, v: nat, n: nat)
    requires buf < Pow2(valid) && v < Pow2(n)
    ensures 0 <= buf + v * Pow2(valid) < Pow2(valid + n)
    ensures Held(bytes, buf + v * Pow2(valid)) == Held(bytes, buf) + Pow2(8 * |bytes| + valid) * v
  {
    Pow2Add(valid, n);
    Pow2Add(8 * |bytes|, valid);
    HeldIs(bytes, buf);
    HeldIs(bytes, buf + v * Pow2(valid));
    hide *;
    Leading(buf, Pow2(valid), v, Pow2(n));
    Flip3(Pow2(valid), v);
    Nested(Pow2(8 * |bytes|), buf, Pow2(valid), v);
  }

  /** The number that the bytes and the bits behind them make. */
  ghost function Held(bytes: seq<Byte>, buf: nat): nat {
    Little(bytes) + Pow2(8 * |bytes|) * buf
  }

  lemma HeldIs(bytes: seq<Byte>, buf: nat)
    ensures Pow2(8 * |bytes|) * buf >= 0 && Held(bytes, buf) == Little(bytes) + Pow2(8 * |bytes|) * buf
  {
    Share(Pow2(8 * |bytes|), buf);
  }

  lemma {:induction false} LittlePush(bytes: seq<Byte>, c: Byte)
    ensures Little(bytes + [c]) == Held(bytes, c)
  {
    hide *;
    HeldIs(bytes, c);
    if bytes == [] {
      LittleNone();
      LittleStep([c]);
      assert [c][1..] == [] && bytes + [c] == [c];
      NoPower();
    } else {
      LittlePush(bytes[1..], c);
      HeldIs(bytes[1..], c);
      LittleStep(bytes);
      LittleStep(bytes + [c]);
      assert (bytes + [c])[1..] == bytes[1..] + [c];
      EightMore(8 * |bytes[1..]|);
      Nested(0x100, Little(bytes[1..]), Pow2(8 * |bytes[1..]|), c);
      Flip3(0x100, Pow2(8 * |bytes[1..]|));
    }
  }

  lemma LittleNone()
    ensures Little([]) == 0
  {
  }

  /** Putting out the lowest byte held back. */
  lemma ByteOut(bytes: seq<Byte>, buf: nat)
    ensures Held(bytes + [buf % 0x100], buf / 0x100) == Held(bytes, buf)
  {
    hide *;
    LittlePush(bytes, buf % 0x100);
    HeldIs(bytes, buf % 0x100);
    HeldIs(bytes, buf);
    HeldIs(bytes + [buf % 0x100], buf / 0x100);
    EightMore(8 * |bytes|);
    SplitProduct(Pow2(8 * |bytes|), buf);
  }

  lemma SplitProduct(p: nat, buf: nat)
    ensures p * (buf % 0x100) + (p * 0x100) * (buf / 0x100) == p * buf
  {
    assert buf == buf % 0x100 + 0x100 * (buf / 0x100);
    Nested(p, buf % 0x100, 0x100, buf / 0x100);
  }

  const BUF_SIZE := 16

  /** What a sender has handed over and sent, what its buffer holds, and how many bits the bytes pending and those held
      back are together. */
  datatype Snap = Snap(gone: seq<Byte>, sent: seq<Chunk>, pending: nat, used: nat, mem: seq<Byte>)

  /** From a to b the numbers cs have been sent, and the buffer has changed only before the end of the bytes pending. */
  ghost predicate SentOn(a: Snap, b: Snap, cs: seq<Chunk>) {
    && b.gone == a.gone && b.sent == a.sent + cs && b.used == a.used + Total(cs)
    && a.pending <= b.pending && |b.mem| == |a.mem|
    && forall i :: b.pending <= i < |a.mem| ==> b.mem[i] == a.mem[i]
  }

  /** How many bytes are put out for so many bits: two whenever the buffer of sixteen bits is to overflow. */
  function Put(bits: nat): (r: nat)
    ensures bits <= 8 * r + 16 && (bits > 0 ==> 8 * r < bits)
  {
    if bits == 0 then 0 else 2 * ((bits - 1) / 16)
  }

  ghost predicate InPairs(a: Snap) {
    a.pending == Put(a.used)
  }

  /** The same, number by number through the buffer of bits. */
  ghost predicate BitsOn(a: Snap, b: Snap, cs: seq<Chunk>) {
    SentOn(a, b, cs) && (InPairs(a) ==> InPairs(b))
  }

  lemma SentThen(a: Snap, b: Snap, c: Snap, cs: seq<Chunk>, ds: seq<Chunk>)
    requires SentOn(a, b, cs) && SentOn(b, c, ds)
    ensures SentOn(a, c, cs + ds)
  {
    TotalAdd(cs, ds);
    hide Total;
    assert a.sent + (cs + ds) == (a.sent + cs) + ds;
  }

  lemma BitsThen(a: Snap, b: Snap, c: Snap, cs: seq<Chunk>, ds: seq<Chunk>)
    requires BitsOn(a, b, cs) && BitsOn(b, c, ds)
    ensures BitsOn(a, c, cs + ds)
  {
    hide InPairs, SentOn;
    SentThen(a, b, c, cs, ds);
  }

  lemma BitsNone(a: Snap)
    ensures BitsOn(a, a, []) && SentOn(a, a, [])
  {
    assert a.sent + [] == a.sent;
  }

  lemma SentOnIs(a: Snap, b: Snap, cs: seq<Chunk>)
    requires SentOn(a, b, cs)
    ensures b.gone == a.gone && b.sent == a.sent + cs && b.used == a.used + Total(cs)
    ensures a.pending <= b.pending && |b.mem| == |a.mem|
    ensures forall i :: b.pending <= i < |a.mem| ==> b.mem[i] == a.mem[i]
  {
    hide Total;
  }

  lemma BitsOnIs(a: Snap, b: Snap, cs: seq<Chunk>)
    requires BitsOn(a, b, cs)
    ensures SentOn(a, b, cs) && b.sent == a.sent + cs && b.used == a.used + Total(cs) && |b.mem| == |a.mem|
    ensures InPairs(a) ==> InPairs(b)
  {
    hide Total;
  }

  lemma SentMade(a: Snap, b: Snap, c: Chunk)
    requires b.gone == a.gone && b.sent == a.sent + [c] && b.used == a.used + c.n && a.pending <= b.pending
    requires SameBehind(a.mem, b.mem, b.pending)
    ensures SentOn(a, b, [c])
  {
    OneChunk(c);
  }

  ghost predicate SameBehind(was: seq<Byte>, now: seq<Byte>, n: nat) {
    |now| == |was| && forall i :: n <= i < |was| ==> now[i] == was[i]
  }

  /** A number of n bits makes the buffer overflow once, or not at all. */
  lemma PairsKept(a: Snap, b: Snap, n: nat)
    requires 8 * a.pending <= a.used <= 8 * a.pending + 16 && n <= 16 && b.used == a.used + n
    requires b.pending == a.pending + if a.used - 8 * a.pending + n > 16 then 2 else 0
    ensures InPairs(a) ==> InPairs(b)
  {
  }

  lemma SentMore(bytes: seq<Byte>, buf: nat, valid: nat, sent: seq<Chunk>, bytes': seq<Byte>, buf': nat, c: Chunk)
    requires Held(bytes, buf) == Value(sent) && 8 * |bytes| + valid == Total(sent) && ChunksOk(sent) && ChunkOk(c)
    requires Held(bytes', buf') == Held(bytes, buf) + Pow2(8 * |bytes| + valid) * c.v
    ensures ChunksOk(sent + [c]) && Held(bytes', buf') == Value(sent + [c]) && Total(sent + [c]) == Total(sent) + c.n
  {
    hide *;
    ValueAdd(sent, [c]);
    TotalAdd(sent, [c]);
    OneChunk(c);
    ChunksMore(sent, c);
  }

  class Sender {
    const pending_buf: array<Byte>
    var out: seq<Byte>         // the bytes handed over
    var pending_out: nat       // where the bytes not yet handed over begin
    var pending: nat           // how many they are
    var bi_buf: nat            // bits that do not yet fill a byte
    var bi_valid: nat          // how many there are
    /** All numbers sent. */
    ghost var sent: seq<Chunk>

    /** All bytes put out. */
    ghost function Bytes(): seq<Byte>
      reads `out, `pending_out, `pending, pending_buf
      requires pending_out + pending <= pending_buf.Length
    {
      out + pending_buf[pending_out..pending_out + pending]
    }

    ghost function Now(): Snap
      reads this, pending_buf
    {
      Snap(out, sent, pending, 8 * pending + bi_valid, pending_buf[..])
    }

    ghost predicate Valid()
      reads this, pending_buf
    {
      && pending_out + pending <= pending_buf.Length && (pending_out > 0 ==> bi_valid < 8 && pending > 0)
      && (pending_out == 0 ==> 8 * pending + bi_valid <= 8 * pending_buf.Length)
      && bi_valid <= 16 && bi_buf < Pow2(bi_valid) && ChunksOk(sent)
      && Held(Bytes(), bi_buf) == Value(sent) && 8 * |Bytes()| + bi_valid == Total(sent)
    }

    /** The bytes pending begin where the buffer does: bytes are put behind as many as there are. */
    ghost predicate Open()
      reads this, pending_buf
    {
      Valid() && pending_out == 0
    }

    /** There is room for n more bits. */
    ghost predicate Room(n: nat)
      reads this, pending_buf
    {
      Open() && 8 * pending + bi_valid + n <= 8 * pending_buf.Length
    }

    lemma ValidIs()
      ensures Valid() <==>
                && pending_out + pending <= pending_buf.Length && (pending_out > 0 ==> bi_valid < 8 && pending > 0)
                && (pending_out == 0 ==> 8 * pending + bi_valid <= 8 * pending_buf.Length)
                && bi_valid <= 16 && bi_buf < Pow2(bi_valid) && ChunksOk(sent)
                && Held(Bytes(), bi_buf) == Value(sent) && 8 * |Bytes()| + bi_valid == Total(sent)
    {
    }

    lemma NowIs()
      ensures Now() == Snap(out, sent, pending, 8 * pending + bi_valid, pending_buf[..])
    {
    }

    lemma OpenIs()
      ensures Open() <==> Valid() && pending_out == 0
    {
    }

    lemma RoomIs(n: nat)
      ensures Room(n) <==> Open() && Now().used + n <= 8 * pending_buf.Length
      ensures Now().sent == sent && Now().gone == out && Now().pending == pending && |Now().mem| == pending_buf.Length
    {
    }

    lemma BytesAre()
      requires pending_out + pending <= pending_buf.Length
      ensures Bytes() == out + pending_buf[pending_out..pending_out + pending]
      ensures pending == 0 ==> Bytes() == out
    {
    }

    constructor (size: nat)
      ensures Open() && bi_valid == 0 && pending == 0 && sent == [] && out == [] && pending_buf.Length == size
      ensures fresh(pending_buf)
    {
      pending_buf := new Byte[size];
      out, pending_out, pending, bi_buf, bi_valid, sent := [], 0, 0, 0, 0, [];
      new;
      NoPower();
      HeldIs([], 0);
      LittleNone();
    }

    method PutByte(c: Byte)
      requires pending_out == 0 && pending < pending_buf.Length
      modifies `pending, pending_buf
      ensures pending == old(pending) + 1 && Bytes() == old(Bytes()) + [c]
      ensures SameBehind(old(pending_buf[..]), pending_buf[..], pending)
    {
      pending_buf[pending] := c;
      pending := pending + 1;
    }

    /** Puts out a number of sixteen bits, the low byte first. */
    method PutShort(w: nat)
      requires w < 0x10000 && pending_out == 0 && pending + 2 <= pending_buf.Length
      modifies `pending, pending_buf
      ensures pending == old(pending) + 2 && Bytes() == old(Bytes()) + [w % 0x100] + [w / 0x100]
      ensures SameBehind(old(pending_buf[..]), pending_buf[..], pending)
    {
      PutByte(w % 0x100);
      PutByte(w / 0x100);
    }

    /** Sends the number value of length bits: those there is room for now, the others when the buffer is empty. The
        bits added to the buffer lie above those it holds. */
    method SendBits(value: nat, length: nat)
      requires Room(length) && length <= 16 && value < Pow2(length)
      modifies this, pending_buf
      ensures Open() && BitsOn(old(Now()), Now(), [Chunk(value, length)])
    {
      hide *;
      RoomIs(length);
      OpenIs();
      ValidIs();
      NowIs();
      ghost var c, a, bytes, buf, valid := Chunk(value, length), Now(), Bytes(), bi_buf, bi_valid;
      ChunkIs(c);
      SixteenBits();
      if bi_valid > BUF_SIZE - length {
        Spill(bytes, bi_buf, bi_valid, value, length);
        var low := (bi_buf + value * Pow2(bi_valid)) % 0x10000;
        var high := value / Pow2(BUF_SIZE - bi_valid);
        SentMore(bytes, buf, valid, sent, bytes + [low % 0x100] + [low / 0x100], high, c);
        PutShort(low);
        bi_buf := high;
        bi_valid := bi_valid + length - BUF_SIZE;
      } else {
        BufferMore(bytes, bi_buf, bi_valid, value, length);
        SentMore(bytes, buf, valid, sent, bytes, bi_buf + value * Pow2(bi_valid), c);
        bi_buf := bi_buf + value * Pow2(bi_valid);
        bi_valid := bi_valid + length;
        BehindNone(pending_buf[..], pending);
      }
      sent := sent + [c];
      assert out == a.gone;
      BytesAre();
      ValidIs();
      OpenIs();
      NowIs();
      PairsKept(a, Now(), length);
      SentMade(a, Now(), c);
      BitsOnMade(a, Now(), [c]);
    }

    /** Puts out whole bytes held back. */
    method Flush()
      requires Valid()
      modifies `pending, `bi_buf, `bi_valid, pending_buf
      ensures Valid() && bi_valid < 8 && bi_valid <= old(bi_valid)
      ensures old(bi_valid) < 8 ==> pending == old(pending) && pending_buf[..] == old(pending_buf[..])
    {
      hide *;
      ValidIs();
      SixteenBits();
      if bi_valid == 16 {
        ShortOut(Bytes(), bi_buf);
        PutShort(bi_buf);
        bi_buf := 0;
        bi_valid := 0;
        NoPower();
      } else if bi_valid >= 8 {
        ByteOut(Bytes(), bi_buf);
        EightLess(bi_buf, bi_valid);
        PutByte(bi_buf % 0x100);
        bi_buf := bi_buf / 0x100;
        bi_valid := bi_valid - 8;
      }
      ValidIs();
    }

    /** Hands over what there is room for, and returns the room left. */
    method FlushPending(avail_out: nat) returns (left: nat)
      requires Valid()
      modifies `out, `pending_out, `pending, `bi_buf, `bi_valid, pending_buf
      ensures Valid() && bi_valid < 8 && bi_valid <= old(bi_valid) && left <= avail_out && (left > 0 ==> pending == 0)
      ensures old(bi_valid) < 8 ==> pending <= old(pending) && pending_buf[..] == old(pending_buf[..])
      ensures old(bi_valid) < 8 && old(pending) > 0 && avail_out > 0 ==> pending < old(pending)
      ensures pending == 0 ==> pending_out == 0
    {
      hide *;
      Flush();
      var len := pending;
      if len > avail_out { len := avail_out; }
      left := avail_out - len;
      ValidIs();
      if len == 0 { return; }
      ghost var bytes := Bytes();
      BytesAre();
      HandOver(out, pending_buf[..], pending_out, len, pending);
      out := out + pending_buf[pending_out..pending_out + len];
      pending_out := pending_out + len;
      pending := pending - len;
      if pending == 0 { pending_out := 0; }
      BytesAre();
      ValidIs();
    }

    /** Fills up the last byte with zero bits. */
    method WindUp() returns (ghost pad: nat)
      requires Room(7)
      modifies this, pending_buf
      ensures Open() && bi_valid == 0 && pad < 8 && SentOn(old(Now()), Now(), [Chunk(0, pad)])
      ensures Total(sent) == 8 * |Bytes()|
    {
      hide *;
      RoomIs(7);
      OpenIs();
      ValidIs();
      NowIs();
      SixteenBits();
      NoPower();
      pad := if bi_valid > 8 then 16 - bi_valid else if bi_valid > 0 then 8 - bi_valid else 0;
      ghost var c, a, bytes, buf, valid := Chunk(0, pad), Now(), Bytes(), bi_buf, bi_valid;
      ZeroChunk(pad, Pow2(8 * |bytes| + valid));
      SentMore(bytes, buf, valid, sent, bytes, buf, c);
      if bi_valid > 8 {
        Pow2Grows(bi_valid, 16);
        ShortOut(bytes, bi_buf);
        PutShort(bi_buf);
      } else if bi_valid > 0 {
        Pow2Grows(bi_valid, 8);
        ByteOut(bytes, bi_buf);
        Small(bi_buf);
        PutByte(bi_buf);
      } else {
        HeldIs(bytes, bi_buf);
        BehindNone(pending_buf[..], pending);
      }
      bi_buf := 0;
      bi_valid := 0;
      sent := sent + [c];
      ValidIs();
      OpenIs();
      NowIs();
      SentMade(a, Now(), c);
    }

    /** Puts out whole bytes, no bits being held back. */
    method SendByte(b: Byte)
      requires Room(8) && bi_valid == 0
      modifies this, pending_buf
      ensures Open() && bi_valid == 0 && SentOn(old(Now()), Now(), [Chunk(b, 8)])
    {
      hide *;
      RoomIs(8);
      OpenIs();
      ValidIs();
      NowIs();
      NoPower();
      SixteenBits();
      ghost var c, a, bytes, buf := Chunk(b, 8), Now(), Bytes(), bi_buf;
      ChunkIs(c);
      BufferMore(bytes, bi_buf, 0, b, 8);
      SentMore(bytes, buf, 0, sent, bytes, b, c);
      ByteOut(bytes, b);
      Small(b);
      PutByte(b);
      sent := sent + [c];
      ValidIs();
      OpenIs();
      NowIs();
      SentMade(a, Now(), c);
    }

    /** Puts out a number of sixteen bits as two bytes. */
    method SendShort(w: nat)
      requires Room(16) && bi_valid == 0 && w < 0x10000
      modifies this, pending_buf
      ensures Open() && bi_valid == 0 && SentOn(old(Now()), Now(), [Chunk(w, 16)])
    {
      hide *;
      RoomIs(16);
      OpenIs();
      ValidIs();
      NowIs();
      NoPower();
      SixteenBits();
      ghost var c, a, bytes, buf := Chunk(w, 16), Now(), Bytes(), bi_buf;
      ChunkIs(c);
      BufferMore(bytes, bi_buf, 0, w, 16);
      SentMore(bytes, buf, 0, sent, bytes, w, c);
      ShortOut(bytes, w);
      PutShort(w);
      sent := sent + [c];
      ValidIs();
      OpenIs();
      NowIs();
      SentMade(a, Now(), c);
    }

    /** Puts out a block of bytes behind its length and the complement of that. */
    method CopyBlock(buf: seq<Byte>) returns (ghost pad: nat)
      requires Room(7 + 32 + 8 * |buf|) && |buf| <= 0xffff
      modifies this, pending_buf
      ensures Open() && bi_valid == 0 && pad < 8 && (Total(old(sent)) + pad) % 8 == 0
      ensures SentOn(old(Now()), Now(),
                     [Chunk(0, pad), Chunk(|buf|, 16), Chunk(0xffff - |buf|, 16)] + ByteChunks(buf))
    {
      hide *;
      ghost var a, before := Now(), sent;
      RoomIs(7 + 32 + 8 * |buf|);
      RoomIs(7);
      pad := WindUp();
      ghost var b := Now();
      SentOnIs(a, b, [Chunk(0, pad)]);
      TotalAdd(before, [Chunk(0, pad)]);
      OneChunk(Chunk(0, pad));
      RoomIs(16);
      SendShort(|buf|);
      ghost var c := Now();
      SentOnIs(b, c, [Chunk(|buf|, 16)]);
      OneChunk(Chunk(|buf|, 16));
      RoomIs(16);
      SendShort(0xffff - |buf|);
      ghost var d := Now();
      SentOnIs(c, d, [Chunk(0xffff - |buf|, 16)]);
      OneChunk(Chunk(0xffff - |buf|, 16));
      SentThen(a, b, c, [Chunk(0, pad)], [Chunk(|buf|, 16)]);
      SentThen(a, c, d, [Chunk(0, pad)] + [Chunk(|buf|, 16)], [Chunk(0xffff - |buf|, 16)]);
      ghost var head := [Chunk(0, pad), Chunk(|buf|, 16), Chunk(0xffff - |buf|, 16)];
      assert [Chunk(0, pad)] + [Chunk(|buf|, 16)] + [Chunk(0xffff - |buf|, 16)] == head;
      NoByteChunks();
      assert buf[..0] == [] && head + [] == head;
      for i := 0 to |buf|
        invariant Open() && bi_valid == 0 && SentOn(a, Now(), head + ByteChunks(buf[..i]))
        invariant Now().used + 8 * (|buf| - i) <= 8 * pending_buf.Length
      {
        ghost var e := Now();
        RoomIs(8);
        SendByte(buf[i]);
        ByteChunksPush(buf, i);
        SentOnIs(e, Now(), [Chunk(buf[i], 8)]);
        OneChunk(Chunk(buf[i], 8));
        SentThen(a, e, Now(), head + ByteChunks(buf[..i]), [Chunk(buf[i], 8)]);
        assert head + ByteChunks(buf[..i]) + [Chunk(buf[i], 8)] == head + ByteChunks(buf[..i + 1]);
      }
      assert buf[..|buf|] == buf;
    }
  }

  lemma BitsOnMade(a: Snap, b: Snap, cs: seq<Chunk>)
    requires SentOn(a, b, cs) && (InPairs(a) ==> InPairs(b))
    ensures BitsOn(a, b, cs)
  {
  }

  lemma BehindNone(mem: seq<Byte>, n: nat)
    ensures SameBehind(mem, mem, n)
  {
  }

  /** Handing over the first of the bytes pending changes nothing about all of them. */
  lemma HandOver(out: seq<Byte>, mem: seq<Byte>, start: nat, len: nat, n: nat)
    requires len <= n && start + n <= |mem|
    ensures out + mem[start..start + len] + mem[start + len..start + n] == out + mem[start..start + n]
  {
  }

  /** Puts out the bytes of a buffer that is full, or padded. */
  lemma ShortOut(bytes: seq<Byte>, w: nat)
    requires w < 0x10000
    ensures w / 0x100 < 0x100 && Held(bytes + [w % 0x100] + [w / 0x100], 0) == Held(bytes, w)
  {
    hide *;
    ByteOut(bytes, w);
    ByteOut(bytes + [w % 0x100], w / 0x100);
    Small(w / 0x100);
  }

  lemma Small(x: nat)
    requires x < 0x100
    ensures x % 0x100 == x && x / 0x100 == 0
  {
  }

  ghost function ByteChunks(bytes: seq<Byte>): (r: seq<Chunk>)
    ensures |r| == |bytes|
  {
    seq(|bytes|, k requires 0 <= k < |bytes| => Chunk(bytes[k], 8))
  }

  lemma NoByteChunks()
    ensures ByteChunks([]) == []
  {
  }

  lemma ByteChunksPush(buf: seq<Byte>, i: nat)
    requires i < |buf|
    ensures ByteChunks(buf[..i + 1]) == ByteChunks(buf[..i]) + [Chunk(buf[i], 8)]
  {
  }

  lemma OneChunk(c: Chunk)
    ensures Value([c]) == c.v && Total([c]) == c.n
  {
    var cs := [c];
    assert cs[1..] == [];
    ValueStep(cs);
  }

  lemma ChunksMore(cs: seq<Chunk>, c: Chunk)
    requires ChunksOk(cs) && ChunkOk(c)
    ensures ChunksOk(cs + [c])
  {
  }

  lemma ChunkIs(c: Chunk)
    ensures ChunkOk(c) <==> c.v < Pow2(c.n)
  {
  }

  lemma ZeroChunk(n: nat, p: nat)
    ensures ChunkOk(Chunk(0, n)) && p * 0 == 0
  {
  }

  lemma SixteenBits()
    ensures Pow2(8) == 0x100 && Pow2(16) == 0x10000 && BUF_SIZE == 16
  {
    assert Pow2(8) == 0x100;
    Pow2Add(8, 8);
  }

  /** The bits of value for which the buffer has no room. */
  lemma Overflow(buf: nat, valid: nat, value: nat, length: nat)
    requires buf < Pow2(valid) && value < Pow2(length) && valid <= 16 && length <= 16 && valid > 16 - length
    ensures value * Pow2(valid) >= 0 && Pow2(16 - valid) > 0
    ensures (buf + value * Pow2(valid)) / 0x10000 == value / Pow2(16 - valid)
    ensures 0 <= value / Pow2(16 - valid) < Pow2(valid + length - 16)
  {
    var p, q, all := Pow2(valid), Pow2(16 - valid), buf + value * Pow2(valid);
    SixteenBits();
    Pow2Add(valid, 16 - valid);
    Pow2Add(valid + length - 16, 16 - valid);
    hide *;
    Share(value, p);
    DivUnique(all, p, value, buf);
    DivTwice(all, p, q);
    QuotientBound(value, q, Pow2(valid + length - 16));
    DivMod(value, q);
  }

  /** Adding to a buffer that overflows: two bytes go out, and what there was no room for is held back. */
  lemma Spill(bytes: seq<Byte>, buf: nat, valid: nat, v: nat, n: nat)
    requires buf < Pow2(valid) && v < Pow2(n) && valid <= 16 && n <= 16 && valid > 16 - n
    ensures 0 <= v / Pow2(16 - valid) < Pow2(valid + n - 16) && v * Pow2(valid) >= 0
    ensures (buf + v * Pow2(valid)) % 0x10000 / 0x100 < 0x100
    ensures var low := (buf + v * Pow2(valid)) % 0x10000;
            Held(bytes + [low % 0x100] + [low / 0x100], v / Pow2(16 - valid))
            == Held(bytes, buf) + Pow2(8 * |bytes| + valid) * v
  {
    hide *;
    BufferMore(bytes, buf, valid, v, n);
    Overflow(buf, valid, v, n);
    TwoOut(bytes, buf + v * Pow2(valid));
  }

  /** Putting out the two lowest bytes held back. */
  lemma TwoOut(bytes: seq<Byte>, all: nat)
    ensures all % 0x10000 / 0x100 < 0x100
    ensures Held(bytes + [all % 0x10000 % 0x100] + [all % 0x10000 / 0x100], all / 0x10000) == Held(bytes, all)
  {
    hide *;
    ByteOut(bytes, all);
    ByteOut(bytes + [all % 0x100], all / 0x100);
    Digits(all);
  }

  lemma Digits(x: nat)
    ensures x % 0x10000 % 0x100 == x % 0x100 && x % 0x10000 / 0x100 == x / 0x100 % 0x100
    ensures x / 0x100 / 0x100 == x / 0x10000
  {
  }

  lemma EightLess(buf: nat, valid: nat)
    requires buf < Pow2(valid) && valid >= 8
    ensures buf / 0x100 < Pow2(valid - 8)
  {
    SixteenBits();
    Pow2Add(valid - 8, 8);
    hide *;
    QuotientBound(buf, 0x100, Pow2(valid - 8));
  }
}
