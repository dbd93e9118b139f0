/** Decoding a whole stream by inflateBack: blocks stored, with the fixed codes, or with codes of their own (section
    3.2.3 of RFC 1951). */
module InflateStream {
  import opened Arithmetic
  import opened MachineInts
  import opened SetSums
  import opened SymbolSort
  import opened Xors
  import opened DeflateCodes
  import opened TableLayout
  import opened InflateTable
  import opened InflateBits
  import opened InflateSource
  import opened BackWindow
  import opened DeflateTokens
  import opened DeflateBlocks
  import opened InflateHeader
  import opened InflateBack

  /* ---- the fixed codes ---- */

  ghost function FixedLens(): (r: seq<nat>)
    ensures |r| == 288
  {
    seq(144, _ => 8) + seq(112, _ => 9) + seq(24, _ => 7) + seq(8, _ => 8)
  }

  ghost function FixedDists(): (r: seq<nat>)
    ensures |r| == 32
  {
    seq(32, _ => 5)
  }

  ghost function FixedCodes(): Codes {
    Codes(FixedLens(), FixedDists())
  }

  lemma {:induction false} KraftRun(lens: seq<nat>, l: nat, n: nat)
    requires 1 <= l <= 15
    ensures Kraft(lens + seq(n, _ => l)) == Kraft(lens) + n * Unit(l)
  {
    hide *;
    if n == 0 {
      assert lens + seq(n, _ => l) == lens;
    } else {
      KraftRun(lens, l, n - 1);
      assert lens + seq(n, _ => l) == lens + seq(n - 1, _ => l) + [l];
      KraftPush(lens + seq(n - 1, _ => l), l);
      Spread(n - 1, 1, Unit(l));
    }
  }

  lemma UnitValues()
    ensures Unit(5) == 1024 && Unit(7) == 256 && Unit(8) == 128 && Unit(9) == 64
  {
  }

  /** The fixed codes fill the code space. */
  lemma FixedKraft()
    ensures Kraft(FixedLens()) == 0x8000 && Kraft(FixedDists()) == 0x8000
  {
    var a, b, c: seq<nat> := seq(144, _ => 8), seq(112, _ => 9), seq(24, _ => 7);
    var none: seq<nat> := [];
    FixedAre(a, b, c);
    hide *;
    UnitValues();
    KraftPush([], 1);
    KraftRun(none, 8, 144);
    KraftRun(a, 9, 112);
    KraftRun(a + b, 7, 24);
    KraftRun(a + b + c, 8, 8);
    KraftRun(none, 5, 32);
    assert none + seq(144, _ => 8) == a && none + seq(32, _ => 5) == seq(32, _ => 5);
  }

  lemma FixedAre(a: seq<nat>, b: seq<nat>, c: seq<nat>)
    requires a == seq(144, _ => 8) && b == seq(112, _ => 9) && c == seq(24, _ => 7)
    ensures FixedLens() == a + b + c + seq(8, _ => 8) && FixedDists() == seq(32, _ => 5)
  {
  }

  lemma FixedAt(s: nat)
    ensures s < 288 ==>
              && s < |FixedLens()|
              && FixedLens()[s] == if s < 144 then 8 else if s < 256 then 9 else if s < 280 then 7 else 8
    ensures s < 32 ==> s < |FixedDists()| && FixedDists()[s] == 5
  {
  }

  lemma FixedWithin()
    ensures LengthsOk(FixedLens()) && AllWithin(FixedLens(), 9) && LengthsOk(FixedDists()) && AllWithin(FixedDists(), 5)
  {
  }

  lemma OrderedWithin(lens: seq<nat>, ls: seq<nat>, most: nat, k: nat)
    requires InOrder(lens, ls) && AllWithin(lens, most) && k < |ls|
    ensures ls[k] <= most
  {
    LengthFacts(lens, ls, k);
    OffsetStep(lens, ls[k]);
    assert lens[..|lens|] == lens;
    var s := Occurrence(lens, ls[k], 0, |lens|);
  }

  /** A code no longer than the index asked for needs no second table. */
  lemma NoOverflow(ct: CodeType, bits: nat, lens: seq<nat>)
    requires AllWithin(lens, bits) && Pow2(bits) <= Room(ct, bits)
    ensures !Overflows(ct, bits, lens)
  {
    hide *;
    forall ls | InOrder(lens, ls)
      ensures !TooLarge(ct, bits, ls)
    {
      NotTooLarge(ct, bits, lens, ls);
    }
    NoneTooLarge(ct, bits, lens);
  }

  lemma NoneTooLarge(ct: CodeType, bits: nat, lens: seq<nat>)
    requires forall ls :: InOrder(lens, ls) ==> !TooLarge(ct, bits, ls)
    ensures !Overflows(ct, bits, lens)
  {
  }

  lemma NotTooLarge(ct: CodeType, bits: nat, lens: seq<nat>, ls: seq<nat>)
    requires InOrder(lens, ls) && AllWithin(lens, bits) && Pow2(bits) <= Room(ct, bits)
    ensures !TooLarge(ct, bits, ls)
  {
    hide InOrder, AllWithin, Pow2, Room, Space;
    if ls != [] {
      var n := |ls| - 1;
      OrderedWithin(lens, ls, bits, n);
      forall k | 0 <= k < |ls|
        ensures ls[k] <= ls[n]
      {
        LengthsGrow(lens, ls, k, n);
      }
      SpaceFlat(ls, RootBits(bits, ls), |ls|);
      Pow2Grows(RootBits(bits, ls), bits);
    }
  }

  lemma FixedNotRefused()
    ensures !Refused(LENS, FixedLens()) && !Refused(DISTS, FixedDists())
    ensures !Overflows(LENS, 9, FixedLens()) && !Overflows(DISTS, 5, FixedDists())
  {
    hide *;
    FixedKraft();
    FixedWithin();
    RefusedIs(LENS, FixedLens());
    RefusedIs(DISTS, FixedDists());
    PowersFit();
    NoOverflow(LENS, 9, FixedLens());
    NoOverflow(DISTS, 5, FixedDists());
  }

  lemma PowersFit()
    ensures Pow2(9) <= Room(LENS, 9) && Pow2(5) <= Room(DISTS, 5)
  {
    assert Pow2(9) == 512 && Pow2(5) == 32;
  }

  /** Builds the tables of the fixed codes. */
  method FixedTables(lens: array<nat>, codes: array<Code>, work: array<nat>) returns (len: Table, dist: Table)
    requires lens.Length >= 288 && codes.Length == 852 + 592 && work.Length >= 288 && work != lens
    modifies lens, codes, work
    ensures len.code == dist.code == codes
    ensures TableOk(len, FixedLens(), LENS) && TableOk(dist, FixedDists(), DISTS)
  {
    hide *;
    FixedNotRefused();
    FixedWithin();
    SpaceForBoth();
    var sym: nat := 0;
    while sym < 144
      invariant sym <= 144 && forall s :: 0 <= s < sym ==> lens[s] == 8
    {
      lens[sym] := 8;
      sym := sym + 1;
    }
    while sym < 256
      invariant 144 <= sym <= 256 && forall s :: 0 <= s < sym ==> lens[s] == if s < 144 then 8 else 9
    {
      lens[sym] := 9;
      sym := sym + 1;
    }
    while sym < 280
      invariant 256 <= sym <= 280
      invariant forall s :: 0 <= s < sym ==> lens[s] == if s < 144 then 8 else if s < 256 then 9 else 7
    {
      lens[sym] := 7;
      sym := sym + 1;
    }
    while sym < 288
      invariant 280 <= sym <= 288
      invariant forall s ::
        0 <= s < sym ==> lens[s] == if s < 144 then 8 else if s < 256 then 9 else if s < 280 then 7 else 8
    {
      lens[sym] := 8;
      sym := sym + 1;
    }
    forall s | 0 <= s < 288
      ensures lens[0..0 + 288][s] == FixedLens()[s]
    {
      FixedAt(s);
    }
    assert lens[0..0 + 288] == FixedLens();
    var ret, next, bits := InflateTable.InflateTable(LENS, lens, 0, 288, codes, 0, 9, work);
    len := Table(codes, 0, bits);
    ghost var first := codes[0..next];
    sym := 0;
    while sym < 32
      invariant sym <= 32 && (forall s :: 0 <= s < sym ==> lens[s] == 5) && codes[0..next] == first
    {
      lens[sym] := 5;
      sym := sym + 1;
    }
    forall s | 0 <= s < 32
      ensures lens[0..0 + 32][s] == FixedDists()[s]
    {
      FixedAt(s);
    }
    assert lens[0..0 + 32] == FixedDists();
    var end: nat;
    ret, end, bits := InflateTable.InflateTable(DISTS, lens, 0, 32, codes, next, 5, work);
    dist := Table(codes, next, bits);
    assert codes[0..next] == first;
    TableMade(len, FixedLens(), LENS, next);
    TableMade(dist, FixedDists(), DISTS, end);
  }

  /* ---- a stored block ---- */

  /** The next whole byte. */
  ghost function ToWhole(p: Place): Bits {
    Rounded(p.h, p.avail, p.avail % 8)
  }

  ghost function Rounded(h: nat, avail: nat, n: nat): Bits {
    Bits(After(h, n), if n <= avail then avail - n else 0)
  }

  lemma ToWholeIs(p: Place)
    ensures p.avail % 8 <= p.avail && ToWhole(p) == Skip(Bits(p.h, p.avail), p.avail % 8)
    ensures ToWhole(p).avail == p.avail - p.avail % 8
  {
    hide After;
  }

  /** At s lie the length of data, its complement, and data; then q. */
  ghost predicate StoredAt(data: seq<Byte>, s: Bits, text: seq<Byte>, q: Place) {
    && |data| <= 0xffff && 32 + 8 * |data| <= s.avail
    && ExtraIs(s.h, 16, |data|) && ExtraIs(After(s.h, 16), 16, 0xffff - |data|)
    && data == Bytes(Skip(s, 32), |data|)
    && Bits(q.h, q.avail) == Skip(s, 32 + 8 * |data|) && q.text == text + data
  }

  /** The next n bytes. */
  ghost function Bytes(p: Bits, n: nat): (r: seq<Byte>)
    ensures |r| == n
    decreases n
  {
    if n == 0 then [] else [p.h % 0x100] + Bytes(Bits(p.h / 0x100, p.avail), n - 1)
  }

  lemma {:induction false} BytesAre(rest: seq<Byte>, n: nat, avail: nat)
    requires n <= |rest|
    ensures Bytes(Bits(Little(rest), avail), n) == rest[..n]
    decreases n
  {
    if n > 0 {
      LittleStep(rest);
      DivUnique(Little(rest), 0x100, Little(rest[1..]), rest[0]);
      BytesAre(rest[1..], n - 1, avail);
      assert rest[..n] == [rest[0]] + rest[1..][..n - 1];
    }
  }

  lemma StoredIs(data: seq<Byte>, s: Bits, text: seq<Byte>, q: Place)
    ensures StoredAt(data, s, text, q) <==>
              && |data| <= 0xffff && 32 + 8 * |data| <= s.avail
              && ExtraIs(s.h, 16, |data|) && ExtraIs(After(s.h, 16), 16, 0xffff - |data|)
              && data == Bytes(Skip(s, 32), |data|)
              && Bits(q.h, q.avail) == Skip(s, 32 + 8 * |data|) && q.text == text + data
  {
    hide After, Skip, Bytes, ExtraIs;
  }

  /** Leaves out the bits up to the next whole byte. */
  method ToByte(src: BitSource)
    requires src.Valid() && src.bits < 8
    modifies src
    ensures src.Valid() && src.bits == 0 && BitsOf(src) == Skip(old(BitsOf(src)), old(BitsOf(src)).avail % 8)
  {
    hide *;
    BitsOfIs(src);
    src.Parts();
    EightBytes(src.bits, |src.Rest()|);
    UseUp(src, src.bits % 8);
  }

  lemma EightBytes(b: nat, n: nat)
    requires b < 8
    ensures b % 8 == b == (b + 8 * n) % 8
  {
  }

  /** A number of 32 bits, split in two halves; one is the complement of the other. */
  lemma Complement(hold: nat)
    requires hold < Pow2(32)
    ensures hold / 0x10000 <= 0xffff && hold % 0x10000 <= 0xffff
    ensures hold % 0x10000 == Xor(hold / 0x10000, 0xffff) <==> hold % 0x10000 == 0xffff - hold / 0x10000
  {
    hide *;
    Sixteen();
    QuotientBound(hold, 0x10000, 0x10000);
    XorOnes(hold / 0x10000, 16);
  }

  lemma Sixteen()
    ensures Pow2(16) == 0x10000 && Pow2(32) == 0x10000 * 0x10000
  {
    assert Pow2(8) == 0x100;
    Pow2Add(8, 8);
    Pow2Add(16, 16);
  }

  /** Flipping the low n bits. */
  lemma {:induction false} XorOnes(x: nat, n: nat)
    requires x < Pow2(n)
    ensures Xor(x, Pow2(n) - 1) == Pow2(n) - 1 - x
  {
    hide *;
    if n == 0 {
      NoBits(x);
    } else {
      OnesHalf(x, n);
      XorOnes(x / 2, n - 1);
      XorDigits(x, Pow2(n) - 1);
      DigitsFlipped(x, Pow2(n - 1));
    }
  }

  lemma NoBits(x: nat)
    requires x < Pow2(0)
    ensures Pow2(0) == 1 && Xor(x, Pow2(0) - 1) == 0 == x
  {
    XorZero(0);
  }

  lemma OnesHalf(x: nat, n: nat)
    requires n > 0 && x < Pow2(n)
    ensures Pow2(n) == 2 * Pow2(n - 1) && Pow2(n - 1) > 0 && x / 2 < Pow2(n - 1)
    ensures (Pow2(n) - 1) / 2 == Pow2(n - 1) - 1 && (Pow2(n) - 1) % 2 == 1
  {
  }

  lemma DigitsFlipped(x: nat, p: nat)
    requires p > 0
    ensures forall v: nat :: v / 2 == p - 1 - x / 2 && v % 2 == (x % 2 + 1) % 2 ==> v == 2 * p - 1 - x
  {
  }

  /** The bits of the lengths of a stored block, as they lie in a number of 32 bits. */
  lemma HalvesAre(h: nat, hold: nat)
    requires hold == h % Pow2(32)
    ensures Pow2(16) == 0x10000 && hold < Pow2(32)
    ensures ExtraIs(h, 16, hold % 0x10000) && ExtraIs(After(h, 16), 16, hold / 0x10000)
  {
    hide *;
    Sixteen();
    DivMod(h, Pow2(32));
    ModMod(h, 16, 32);
    ModSplit(h, 16, 16);
    AfterIs(h, 16);
    ExtraAre(h, 16, hold % 0x10000);
    ExtraAre(After(h, 16), 16, hold / 0x10000);
  }

  lemma ExtraAre(h: nat, n: nat, v: nat)
    ensures Pow2(n) > 0 && (ExtraIs(h, n, v) <==> v == h % Pow2(n))
  {
  }

  /** Copies some of the bytes of input at hand: as many as there are, as there is room for, and at most length. */
  method CopySome(src: BitSource, out: Window, length: nat) returns (copy: nat)
    requires src.Valid() && out.Valid() && src.bits == 0 && length > 0 && src.next < |src.piece|
    modifies src, out, out.window
    ensures src.Valid() && out.Valid() && src.bits == 0 && 0 < copy <= length && copy <= |old(src.Rest())|
    ensures src.Rest() == old(src.Rest())[copy..] && out.Text() == old(out.Text()) + old(src.Rest())[..copy]
  {
    hide *;
    src.Parts();
    out.Room();
    copy := length;
    if copy > |src.piece| - src.next { copy := |src.piece| - src.next; }
    if copy > out.left { copy := out.left; }
    ghost var rest := src.Rest();
    var next := src.next;
    out.PutBytes(src.piece[next..next + copy]);
    src.TakePiece(copy);
  }

  /** Copies length bytes of input to the output. */
  method CopyStored(src: BitSource, out: Window, length0: nat) returns (ok: bool)
    requires src.Valid() && out.Valid() && src.bits == 0
    modifies src, out, out.window
    ensures src.Valid() && out.Valid() && src.bits == 0 && |src.Rest()| <= |old(src.Rest())|
    ensures ok <==> length0 <= |old(src.Rest())|
    ensures ok ==> src.Rest() == old(src.Rest())[length0..]
    ensures ok ==> out.Text() == old(out.Text()) + old(src.Rest())[..length0]
  {
    hide *;
    ghost var rest, text := src.Rest(), out.Text();
    ghost var k: nat := 0;
    assert rest[0..] == rest && text + rest[..0] == text;
    var length := length0;
    while length != 0
      invariant src.Valid() && out.Valid() && src.bits == 0 && k + length == length0 && k <= |rest|
      invariant src.Rest() == rest[k..] && out.Text() == text + rest[..k]
      decreases length
    {
      ok := src.Pull();
      if !ok {
        assert |rest[k..]| == 0;
        return;
      }
      var copy := CopySome(src, out, length);
      NextPart(rest, text, k, copy);
      length := length - copy;
      k := k + copy;
    }
    ok := true;
  }

  lemma NextPart(rest: seq<Byte>, text: seq<Byte>, k: nat, copy: nat)
    requires k + copy <= |rest|
    ensures rest[k..][copy..] == rest[k + copy..] && text + rest[..k] + rest[k..][..copy] == text + rest[..k + copy]
  {
    assert rest[k..][..copy] == rest[k..k + copy];
    assert rest[..k] + rest[k..k + copy] == rest[..k + copy];
  }

  /** Reads a stored block. */
  method ReadStored(inf: Inflater, ghost data: seq<Byte>, ghost q: Place) returns (mode: Mode, ghost got: seq<Byte>)
    requires inf.Valid() && inf.source.bits < 8
    modifies inf.source, inf.output, inf.output.window
    ensures inf.Valid() && (mode == TYPE || mode == BAD || mode == BufError)
    ensures mode == TYPE ==> inf.source.bits < 8 && inf.source.Avail() <= old(inf.source.Avail())
    ensures StoredAt(data, ToWhole(old(inf.Here())), old(inf.Here()).text, q) ==> mode == TYPE && inf.Here() == q
    ensures mode == TYPE ==> StoredAt(got, ToWhole(old(inf.Here())), old(inf.Here()).text, inf.Here())
  {
    hide *;
    got := [];
    var src := inf.source;
    inf.ValidIs();
    inf.HereIs();
    ghost var p, n := inf.Here(), |data|;
    ToWholeIs(p);
    StoredIs(data, ToWhole(p), p.text, q);
    ghost var on := StoredAt(data, ToWhole(p), p.text, q);
    BitsOfIs(src);
    ToByte(src);
    ghost var s := BitsOf(src);
    var ok := Need(src, 32);
    if !ok {
      inf.ValidIs();
      return BufError, got;
    }
    BitsOfIs(src);
    src.Held();
    WholeBytes(src);
    AgreeIs(src.hold, src.bits, s.h);
    HalvesAre(s.h, src.hold);
    Complement(src.hold);
    if src.hold % 0x10000 != Xor(src.hold / 0x10000, 0xffff) {
      inf.ValidIs();
      if on { HalvesSame(s.h, src.hold, n); }
      return BAD, got;
    }
    var length := src.hold % 0x10000;
    if on { HalvesSame(s.h, src.hold, n); }
    UseUp(src, 32);
    SkipIs(s, 32);
    BitsOfIs(src);
    src.NoneHeld();
    ghost var rest := src.Rest();
    if on { StoredRest(data, s, p.text, q, rest); }
    ok := CopyStored(src, inf.output, length);
    inf.ValidIs();
    src.NoneHeld();
    if !ok {
      return BufError, got;
    }
    mode := TYPE;
    BitsOfIs(src);
    inf.HereIs();
    if on { PlaceIs(inf.Here(), q); }
    got := rest[..length];
    SkipSkip(s, 32, 8 * length);
    SkipIs(s, 32 + 8 * length);
    BytesAre(rest, length, 8 * |rest|);
    BytesSkipped(rest, length);
    StoredIs(got, s, p.text, inf.Here());
  }

  /** The bytes of a stored block, and what follows them. */
  lemma StoredRest(data: seq<Byte>, s: Bits, text: seq<Byte>, q: Place, rest: seq<Byte>)
    requires StoredAt(data, s, text, q) && 32 <= s.avail && Skip(s, 32) == Bits(Little(rest), 8 * |rest|)
    ensures |data| <= |rest| && data == rest[..|data|] && q.text == text + rest[..|data|]
    ensures Bits(q.h, q.avail) == Bits(Little(rest[|data|..]), 8 * |rest[|data|..]|)
  {
    hide *;
    StoredIs(data, s, text, q);
    SkipIs(s, 32);
    SkipSkip(s, 32, 8 * |data|);
    BytesAre(rest, |data|, 8 * |rest|);
    BytesSkipped(rest, |data|);
  }

  lemma PlaceIs(p: Place, q: Place)
    requires Bits(p.h, p.avail) == Bits(q.h, q.avail) && p.text == q.text
    ensures p == q
  {
  }

  lemma AgreeIs(hold: nat, bits: nat, h: nat)
    requires Agree(hold, bits, h)
    ensures hold == h % Pow2(bits) && hold < Pow2(bits)
  {
  }

  lemma HalvesSame(h: nat, hold: nat, n: nat)
    requires n <= 0xffff && ExtraIs(h, 16, n) && ExtraIs(After(h, 16), 16, 0xffff - n)
    requires ExtraIs(h, 16, hold % 0x10000) && ExtraIs(After(h, 16), 16, hold / 0x10000)
    ensures hold % 0x10000 == n && hold / 0x10000 == 0xffff - n
  {
  }

  /** With 32 bits asked for at a whole byte, 32 are held. */
  lemma WholeBytes(src: BitSource)
    requires src.Valid() && 32 <= src.bits < 40 && src.Avail() % 8 == 0
    ensures src.bits == 32
  {
    src.Parts();
  }

  /** What remains of the bytes to come, behind n of them. */
  lemma {:induction false} BytesSkipped(rest: seq<Byte>, n: nat)
    requires n <= |rest|
    ensures Skip(Bits(Little(rest), 8 * |rest|), 8 * n) == Bits(Little(rest[n..]), 8 * |rest[n..]|)
    decreases n
  {
    hide *;
    var p := Bits(Little(rest), 8 * |rest|);
    if n == 0 {
      SkipNone(p);
      assert rest[0..] == rest;
    } else {
      LittleStep(rest);
      DivUnique(Little(rest), 0x100, Little(rest[1..]), rest[0]);
      SkipSkip(p, 8, 8 * (n - 1));
      SkipIs(p, 8);
      EightPower();
      BytesSkipped(rest[1..], n - 1);
      assert rest[1..][n - 1..] == rest[n..];
    }
  }

  lemma EightPower()
    ensures Pow2(8) == 0x100
  {
  }

  /* ---- blocks ---- */

  datatype Block = Stored(data: seq<Byte>) | Fixed(xs: seq<Coded>) | Dynamic(head: Head, xs: seq<Coded>)

  function TypeOf(b: Block): nat {
    match b
    case Stored(_) => 0
    case Fixed(_) => 1
    case Dynamic(_, _) => 2
  }

  /** Behind the three bits that tell its type, the block b lies at p and ends at q. */
  ghost predicate BodyHere(b: Block, p: Place, q: Place, wsize: nat) {
    match b
    case Stored(data) => StoredAt(data, ToWhole(p), p.text, q)
    case Fixed(xs) => BlockReadable(FixedCodes(), xs, p, q, wsize)
    case Dynamic(head, xs) => DynamicHere(head, xs, p, q, wsize)
  }

  ghost predicate DynamicHere(head: Head, xs: seq<Coded>, p: Place, q: Place, wsize: nat) {
    exists r: Bits :: HeadHere(head, Bits(p.h, p.avail), r) && BlockReadable(head.z, xs, At(r, p.text), q, wsize)
  }

  ghost function At(r: Bits, text: seq<Byte>): Place {
    Place(r.h, r.avail, text)
  }

  /** The text after a block. */
  ghost function BlockText(text: seq<Byte>, b: Block): seq<Byte> {
    match b
    case Stored(data) => text + data
    case Fixed(xs) => Expanded(text, xs)
    case Dynamic(_, xs) => Expanded(text, xs)
  }

  /** The bits at p are the head of block b, the last one or not. */
  ghost predicate TypeHere(b: Block, last: bool, p: Bits) {
    3 <= p.avail && (last <==> p.h % 2 == 1) && TypeOf(b) == After(p.h, 1) % 4
  }

  /** The block b lies at p and ends at q. */
  ghost predicate BlockHere(b: Block, last: bool, p: Place, q: Place, wsize: nat) {
    && TypeHere(b, last, Bits(p.h, p.avail))
    && BodyHere(b, At(Skip(Bits(p.h, p.avail), 3), p.text), q, wsize)
  }

  /** The blocks bs, the last one marked so, lie at p; their bytes end at q. */
  ghost predicate StreamHere(bs: seq<Block>, p: Place, q: Place, wsize: nat)
    decreases |bs|
  {
    && bs != []
    && exists r: Place ::
         && BlockHere(bs[0], |bs| == 1, p, r, wsize)
         && (if |bs| == 1 then q == At(ToWhole(r), r.text) else StreamHere(bs[1..], r, q, wsize))
  }

  ghost function StreamText(text: seq<Byte>, bs: seq<Block>): seq<Byte>
    decreases |bs|
  {
    if bs == [] then text else StreamText(BlockText(text, bs[0]), bs[1..])
  }

  lemma BodyText(b: Block, p: Place, q: Place, wsize: nat)
    requires BodyHere(b, p, q, wsize)
    ensures q.text == BlockText(p.text, b)
  {
    hide StoredAt, BlockReadable, HeadHere, Expanded;
    match b
    case Stored(data) => StoredIs(data, ToWhole(p), p.text, q);
    case Fixed(xs) => ReadableText(FixedCodes(), xs, p, q, wsize);
    case Dynamic(head, xs) =>
      var r: Bits :| HeadHere(head, Bits(p.h, p.avail), r) && BlockReadable(head.z, xs, At(r, p.text), q, wsize);
      ReadableText(head.z, xs, At(r, p.text), q, wsize);
  }

  /** A stream ends with the text of its blocks. */
  lemma {:induction false} StreamEnds(bs: seq<Block>, p: Place, q: Place, wsize: nat)
    requires StreamHere(bs, p, q, wsize)
    ensures q.text == StreamText(p.text, bs)
    decreases |bs|
  {
    hide BodyHere, TypeHere, BlockText, ToWhole;
    var r: Place :|
      && BlockHere(bs[0], |bs| == 1, p, r, wsize)
      && (if |bs| == 1 then q == At(ToWhole(r), r.text) else StreamHere(bs[1..], r, q, wsize));
    BodyText(bs[0], At(Skip(Bits(p.h, p.avail), 3), p.text), r, wsize);
    if |bs| > 1 { StreamEnds(bs[1..], r, q, wsize); }
  }

  lemma StreamNext(bs: seq<Block>, p: Place, q: Place, wsize: nat) returns (r: Place)
    requires StreamHere(bs, p, q, wsize)
    ensures bs != [] && BlockHere(bs[0], |bs| == 1, p, r, wsize)
    ensures |bs| == 1 ==> q == At(ToWhole(r), r.text)
    ensures |bs| > 1 ==> StreamHere(bs[1..], r, q, wsize)
  {
    hide BlockHere, ToWhole;
    r :|
      && BlockHere(bs[0], |bs| == 1, p, r, wsize)
      && (if |bs| == 1 then q == At(ToWhole(r), r.text) else StreamHere(bs[1..], r, q, wsize));
  }

  lemma BlockIs(b: Block, last: bool, p: Place, q: Place, wsize: nat)
    ensures BlockHere(b, last, p, q, wsize) ==>
              && 3 <= p.avail && (last <==> p.h % 2 == 1) && TypeOf(b) == After(p.h, 1) % 4
              && BodyHere(b, At(Skip(Bits(p.h, p.avail), 3), p.text), q, wsize)
  {
    hide BodyHere, After, Skip;
  }

  lemma BodyIs(b: Block, p: Place, q: Place, wsize: nat)
    requires BodyHere(b, p, q, wsize)
    ensures TypeOf(b) == 0 ==> b.Stored? && StoredAt(b.data, ToWhole(p), p.text, q)
    ensures TypeOf(b) == 1 ==> b.Fixed? && BlockReadable(FixedCodes(), b.xs, p, q, wsize)
    ensures TypeOf(b) == 2 ==> b.Dynamic? && DynamicHere(b.head, b.xs, p, q, wsize)
    ensures TypeOf(b) <= 2
  {
    hide StoredAt, BlockReadable, DynamicHere;
  }

  /** The blocks bs, none of them the last, lie at p and end at r. */
  ghost predicate BlocksHere(bs: seq<Block>, p: Place, r: Place, wsize: nat)
    decreases |bs|
  {
    if bs == [] then p == r
    else exists m: Place :: BlockHere(bs[0], false, p, m, wsize) && BlocksHere(bs[1..], m, r, wsize)
  }

  lemma {:induction false} BlocksPush(bs: seq<Block>, p: Place, r: Place, b: Block, q: Place, wsize: nat)
    requires BlocksHere(bs, p, r, wsize) && BlockHere(b, false, r, q, wsize)
    ensures BlocksHere(bs + [b], p, q, wsize)
    decreases |bs|
  {
    hide BlockHere;
    var all := bs + [b];
    if bs == [] {
      assert all[1..] == [];
      assert BlocksHere(all[1..], q, q, wsize);
    } else {
      assert all[1..] == bs[1..] + [b];
      var m: Place :| BlockHere(bs[0], false, p, m, wsize) && BlocksHere(bs[1..], m, r, wsize);
      BlocksPush(bs[1..], m, r, b, q, wsize);
    }
  }

  /** The last block completes the stream. */
  lemma {:induction false} BlocksClose(bs: seq<Block>, p: Place, r: Place, b: Block, q: Place, wsize: nat)
    requires BlocksHere(bs, p, r, wsize) && BlockHere(b, true, r, q, wsize)
    ensures StreamHere(bs + [b], p, At(ToWhole(q), q.text), wsize)
    decreases |bs|
  {
    hide BlockHere, ToWhole, At;
    var all := bs + [b];
    if bs == [] {
      assert BlockHere(all[0], |all| == 1, p, q, wsize);
    } else {
      assert all[1..] == bs[1..] + [b];
      var m: Place :| BlockHere(bs[0], false, p, m, wsize) && BlocksHere(bs[1..], m, r, wsize);
      BlocksClose(bs[1..], m, r, b, q, wsize);
      assert BlockHere(all[0], |all| == 1, p, m, wsize);
    }
  }

  /* ---- what has been read, whether or not its distances are sound ---- */

  /** The bits of b lie at p and end at q. */
  ghost predicate BodySpelled(b: Block, p: Bits, q: Bits) {
    match b
    case Stored(data) => StoredAt(data, ToWhole(At(p, [])), [], At(q, data))
    case Fixed(xs) => Spelled(TYPE, FixedCodes(), xs, p.h, p.avail, q.h, q.avail)
    case Dynamic(head, xs) => DynamicSpelled(head, xs, p, q)
  }

  ghost predicate DynamicSpelled(head: Head, xs: seq<Coded>, p: Bits, q: Bits) {
    exists r: Bits :: HeadHere(head, p, r) && Spelled(TYPE, head.z, xs, r.h, r.avail, q.h, q.avail)
  }

  ghost predicate BlockSpelled(b: Block, last: bool, p: Bits, q: Bits) {
    TypeHere(b, last, p) && BodySpelled(b, Skip(p, 3), q)
  }

  /** The bits from p on are blocks, none of them the last, and then those at q. */
  ghost predicate BlocksSpelled(bs: seq<Block>, p: Bits, q: Bits)
    decreases |bs|
  {
    if bs == [] then p == q
    else exists r: Bits :: BlockSpelled(bs[0], false, p, r) && BlocksSpelled(bs[1..], r, q)
  }

  /** The bits from p on are blocks, only the last of them marked so, up to the whole byte at q. */
  ghost predicate StreamSpelled(bs: seq<Block>, p: Bits, q: Bits)
    decreases |bs|
  {
    && bs != []
    && exists r: Bits ::
         && BlockSpelled(bs[0], |bs| == 1, p, r)
         && (if |bs| == 1 then q == ToWhole(At(r, [])) else StreamSpelled(bs[1..], r, q))
  }

  lemma {:induction false} SpelledPush(bs: seq<Block>, p: Bits, r: Bits, b: Block, q: Bits)
    requires BlocksSpelled(bs, p, r) && BlockSpelled(b, false, r, q)
    ensures BlocksSpelled(bs + [b], p, q)
    decreases |bs|
  {
    hide BlockSpelled;
    var all := bs + [b];
    if bs == [] {
      assert all[1..] == [];
      assert BlocksSpelled(all[1..], q, q);
    } else {
      assert all[1..] == bs[1..] + [b];
      var m: Bits :| BlockSpelled(bs[0], false, p, m) && BlocksSpelled(bs[1..], m, r);
      SpelledPush(bs[1..], m, r, b, q);
    }
  }

  lemma {:induction false} SpelledClose(bs: seq<Block>, p: Bits, r: Bits, b: Block, q: Bits)
    requires BlocksSpelled(bs, p, r) && BlockSpelled(b, true, r, q)
    ensures StreamSpelled(bs + [b], p, ToWhole(At(q, [])))
    decreases |bs|
  {
    hide BlockSpelled, ToWhole, At;
    var all := bs + [b];
    if bs == [] {
      assert BlockSpelled(all[0], |all| == 1, p, q);
    } else {
      assert all[1..] == bs[1..] + [b];
      var m: Bits :| BlockSpelled(bs[0], false, p, m) && BlocksSpelled(bs[1..], m, r);
      SpelledClose(bs[1..], m, r, b, q);
      assert BlockSpelled(all[0], |all| == 1, p, m);
    }
  }

  lemma NoneSpelled(p: Bits)
    ensures BlocksSpelled([], p, p)
  {
  }

  lemma StoredSpelled(data: seq<Byte>, p: Place, q: Place)
    requires StoredAt(data, ToWhole(p), p.text, q)
    ensures BodySpelled(Stored(data), Bits(p.h, p.avail), Bits(q.h, q.avail))
  {
    StoredIs(data, ToWhole(p), p.text, q);
    hide After, Skip, Bytes, ExtraIs, StoredAt;
    StoredIs(data, ToWhole(p), [], Place(q.h, q.avail, data));
    assert [] + data == data;
  }

  lemma FixedSpelled(xs: seq<Coded>, p: Bits, q: Bits)
    requires Spelled(TYPE, FixedCodes(), xs, p.h, p.avail, q.h, q.avail)
    ensures BodySpelled(Fixed(xs), p, q)
  {
    hide Spelled;
  }

  lemma DynamicIsSpelled(head: Head, xs: seq<Coded>, p: Bits, r: Bits, q: Bits)
    requires HeadHere(head, p, r) && Spelled(TYPE, head.z, xs, r.h, r.avail, q.h, q.avail)
    ensures BodySpelled(Dynamic(head, xs), p, q)
  {
    hide Spelled, HeadHere;
  }

  lemma BlockSpelledMade(b: Block, last: bool, p: Bits, q: Bits)
    requires 3 <= p.avail && (last <==> p.h % 2 == 1) && TypeOf(b) == After(p.h, 1) % 4 && BodySpelled(b, Skip(p, 3), q)
    ensures BlockSpelled(b, last, p, q)
  {
    hide BodySpelled, After;
  }

  lemma TypeOfIs(b: Block)
    ensures TypeOf(b) == if b.Stored? then 0 else if b.Fixed? then 1 else 2
  {
  }

  /* ---- and when they are sound ---- */

  /** No distance in the block reaches back too far. */
  ghost predicate BlockReach(b: Block, text: seq<Byte>, wsize: nat) {
    match b
    case Stored(_) => true
    case Fixed(xs) => AllReach(xs, text, wsize)
    case Dynamic(_, xs) => AllReach(xs, text, wsize)
  }

  /** Nor in any of the blocks. */
  ghost predicate StreamReach(bs: seq<Block>, text: seq<Byte>, wsize: nat)
    decreases |bs|
  {
    bs == [] || (BlockReach(bs[0], text, wsize) && StreamReach(bs[1..], BlockText(text, bs[0]), wsize))
  }

  lemma {:induction false} StreamReachPush(bs: seq<Block>, b: Block, text: seq<Byte>, wsize: nat)
    ensures StreamReach(bs + [b], text, wsize)
            <==> StreamReach(bs, text, wsize) && BlockReach(b, StreamText(text, bs), wsize)
    decreases |bs|
  {
    hide BlockReach, BlockText;
    var all := bs + [b];
    if bs == [] {
      assert all[1..] == [];
      assert StreamReach(all[1..], BlockText(text, b), wsize);
    } else {
      assert all[1..] == bs[1..] + [b];
      StreamReachPush(bs[1..], b, BlockText(text, bs[0]), wsize);
    }
  }

  lemma {:induction false} BlocksText(bs: seq<Block>, p: Place, q: Place, wsize: nat)
    requires BlocksHere(bs, p, q, wsize)
    ensures q.text == StreamText(p.text, bs)
    decreases |bs|
  {
    hide BodyHere, TypeHere, BlockText;
    if bs != [] {
      var m: Place :| BlockHere(bs[0], false, p, m, wsize) && BlocksHere(bs[1..], m, q, wsize);
      BodyText(bs[0], At(Skip(Bits(p.h, p.avail), 3), p.text), m, wsize);
      BlocksText(bs[1..], m, q, wsize);
    }
  }

  /** The bits of b lie at p and end at q; and the text is its text, if no distance reaches back too far. */
  ghost predicate BodyTold(b: Block, p: Place, q: Place, wsize: nat) {
    && BodySpelled(b, Bits(p.h, p.avail), Bits(q.h, q.avail))
    && (BlockReach(b, p.text, wsize) ==> BodyHere(b, p, q, wsize))
  }

  ghost predicate BlockTold(b: Block, last: bool, p: Place, q: Place, wsize: nat) {
    && BlockSpelled(b, last, Bits(p.h, p.avail), Bits(q.h, q.avail))
    && (BlockReach(b, p.text, wsize) ==> BlockHere(b, last, p, q, wsize))
  }

  ghost predicate BlocksTold(bs: seq<Block>, p: Place, q: Place, wsize: nat) {
    && BlocksSpelled(bs, Bits(p.h, p.avail), Bits(q.h, q.avail))
    && (StreamReach(bs, p.text, wsize) ==> BlocksHere(bs, p, q, wsize))
  }

  ghost predicate StreamTold(bs: seq<Block>, p: Place, q: Place, wsize: nat) {
    && StreamSpelled(bs, Bits(p.h, p.avail), Bits(q.h, q.avail))
    && (StreamReach(bs, p.text, wsize) ==> StreamHere(bs, p, q, wsize))
  }

  lemma BodyToldIs(b: Block, p: Place, q: Place, wsize: nat)
    ensures BodyTold(b, p, q, wsize) <==>
              && BodySpelled(b, Bits(p.h, p.avail), Bits(q.h, q.avail))
              && (BlockReach(b, p.text, wsize) ==> BodyHere(b, p, q, wsize))
  {
  }

  lemma StreamToldIs(bs: seq<Block>, p: Place, q: Place, wsize: nat)
    ensures StreamTold(bs, p, q, wsize) <==>
              && StreamSpelled(bs, Bits(p.h, p.avail), Bits(q.h, q.avail))
              && (StreamReach(bs, p.text, wsize) ==> StreamHere(bs, p, q, wsize))
  {
  }

  lemma NoneTold(p: Place, wsize: nat)
    ensures BlocksTold([], p, p, wsize) && StreamReach([], p.text, wsize)
  {
    NoneSpelled(Bits(p.h, p.avail));
  }

  lemma StoredTold(data: seq<Byte>, p: Place, q: Place, wsize: nat)
    requires StoredAt(data, ToWhole(p), p.text, q)
    ensures BodyTold(Stored(data), p, q, wsize) && BlockReach(Stored(data), p.text, wsize)
  {
    StoredSpelled(data, p, q);
    hide StoredAt, BodySpelled;
  }

  lemma FixedTold(xs: seq<Coded>, p: Place, q: Place, wsize: nat)
    requires Told(TYPE, FixedCodes(), xs, p, q, wsize)
    ensures BodyTold(Fixed(xs), p, q, wsize)
    ensures BlockReach(Fixed(xs), p.text, wsize) <==> AllReach(xs, p.text, wsize)
  {
    ToldIs(TYPE, FixedCodes(), xs, p, q, wsize);
    FixedSpelled(xs, Bits(p.h, p.avail), Bits(q.h, q.avail));
    hide AllReach, Lies, Spelled, BodySpelled, BlockReadable, FixedCodes;
    if AllReach(xs, p.text, wsize) { LiesBlock(FixedCodes(), xs, p, q, wsize); }
  }

  lemma DynamicTold(head: Head, xs: seq<Coded>, p: Place, r: Bits, q: Place, wsize: nat)
    requires HeadHere(head, Bits(p.h, p.avail), r) && Told(TYPE, head.z, xs, At(r, p.text), q, wsize)
    ensures BodyTold(Dynamic(head, xs), p, q, wsize)
    ensures BlockReach(Dynamic(head, xs), p.text, wsize) <==> AllReach(xs, p.text, wsize)
  {
    ToldIs(TYPE, head.z, xs, At(r, p.text), q, wsize);
    DynamicIsSpelled(head, xs, Bits(p.h, p.avail), r, Bits(q.h, q.avail));
    hide AllReach, Lies, Spelled, BodySpelled, BlockReadable, HeadHere;
    if AllReach(xs, p.text, wsize) { LiesBlock(head.z, xs, At(r, p.text), q, wsize); }
  }

  lemma BlockToldMade(b: Block, last: bool, p: Place, q: Place, wsize: nat)
    requires 3 <= p.avail && (last <==> p.h % 2 == 1) && TypeOf(b) == After(p.h, 1) % 4
    requires BodyTold(b, At(Skip(Bits(p.h, p.avail), 3), p.text), q, wsize)
    ensures BlockTold(b, last, p, q, wsize)
  {
    var s := At(Skip(Bits(p.h, p.avail), 3), p.text);
    BodyToldIs(b, s, q, wsize);
    AtIs(Skip(Bits(p.h, p.avail), 3), p.text);
    BlockSpelledMade(b, last, Bits(p.h, p.avail), Bits(q.h, q.avail));
    hide BodySpelled, BlockSpelled, BodyHere, BlockReach, After;
  }

  lemma ToldPush(bs: seq<Block>, p: Place, r: Place, b: Block, q: Place, wsize: nat)
    requires BlocksTold(bs, p, r, wsize) && BlockTold(b, false, r, q, wsize)
    ensures BlocksTold(bs + [b], p, q, wsize)
    ensures StreamReach(bs, p.text, wsize) && BlockReach(b, r.text, wsize) ==> StreamReach(bs + [b], p.text, wsize)
  {
    SpelledPush(bs, Bits(p.h, p.avail), Bits(r.h, r.avail), b, Bits(q.h, q.avail));
    hide BlocksSpelled, BlockSpelled, BlocksHere, BlockHere, StreamReach, BlockReach;
    StreamReachPush(bs, b, p.text, wsize);
    if StreamReach(bs, p.text, wsize) {
      BlocksText(bs, p, r, wsize);
      if BlockReach(b, r.text, wsize) { BlocksPush(bs, p, r, b, q, wsize); }
    }
  }

  lemma ToldClose(bs: seq<Block>, p: Place, r: Place, b: Block, q: Place, wsize: nat)
    requires BlocksTold(bs, p, r, wsize) && BlockTold(b, true, r, q, wsize)
    ensures StreamTold(bs + [b], p, At(ToWhole(q), q.text), wsize)
    ensures StreamReach(bs, p.text, wsize) && BlockReach(b, r.text, wsize) ==> StreamReach(bs + [b], p.text, wsize)
  {
    SpelledClose(bs, Bits(p.h, p.avail), Bits(r.h, r.avail), b, Bits(q.h, q.avail));
    WholeSame(q);
    AtIs(ToWhole(q), q.text);
    AtIs(Bits(q.h, q.avail), []);
    hide BlocksSpelled, BlockSpelled, StreamSpelled, BlocksHere, BlockHere, StreamHere, StreamReach, BlockReach;
    hide ToWhole, At;
    StreamReachPush(bs, b, p.text, wsize);
    if StreamReach(bs, p.text, wsize) {
      BlocksText(bs, p, r, wsize);
      if BlockReach(b, r.text, wsize) { BlocksClose(bs, p, r, b, q, wsize); }
    }
  }

  lemma WholeSame(q: Place)
    ensures ToWhole(At(Bits(q.h, q.avail), [])) == ToWhole(q)
  {
  }

  /** In a valid stream no distance reaches back too far. */
  lemma {:induction false} ReadableReach(z: Codes, xs: seq<Coded>, p: Place, q: Place, wsize: nat)
    requires BlockReadable(z, xs, p, q, wsize)
    ensures AllReach(xs, p.text, wsize)
    decreases |xs|
  {
    if xs != [] {
      ReadableIs(z, xs[0], p.h, p.avail, Min(|p.text|, wsize));
      hide Begins, Size, Beyond, Appended, Readable;
      ReadableReach(z, xs[1..], Moved(z, xs[0], p), q, wsize);
    }
  }

  lemma {:induction false} HereReach(bs: seq<Block>, p: Place, q: Place, wsize: nat)
    requires StreamHere(bs, p, q, wsize)
    ensures StreamReach(bs, p.text, wsize)
    decreases |bs|
  {
    var r := StreamNext(bs, p, q, wsize);
    BlockIs(bs[0], |bs| == 1, p, r, wsize);
    var s := At(Skip(Bits(p.h, p.avail), 3), p.text);
    BodyText(bs[0], s, r, wsize);
    BodyReach(bs[0], s, r, wsize);
    hide BlockReach, BlockText, BlockHere, BodyHere, StreamHere;
    if |bs| > 1 { HereReach(bs[1..], r, q, wsize); }
  }

  lemma BodyReach(b: Block, p: Place, q: Place, wsize: nat)
    requires BodyHere(b, p, q, wsize)
    ensures BlockReach(b, p.text, wsize)
  {
    hide StoredAt, BlockReadable, AllReach, HeadHere;
    match b
    case Stored(_) =>
    case Fixed(xs) => ReadableReach(FixedCodes(), xs, p, q, wsize);
    case Dynamic(head, xs) =>
      var r := DynamicParts(head, xs, p, q, wsize);
      ReadableReach(head.z, xs, At(r, p.text), q, wsize);
  }

  ghost function BitsHere(inf: Inflater): Bits
    requires inf.Valid()
    reads inf.source, inf.output, inf.output.window
  {
    Bits(inf.source.Ahead(), inf.source.Avail())
  }

  lemma BitsHereIs(inf: Inflater)
    requires inf.Valid()
    ensures inf.source.Valid() && BitsHere(inf) == BitsOf(inf.source) == Bits(inf.Here().h, inf.Here().avail)
  {
  }

  /** What one block needs and works on: the tables are made in codes, from lengths gathered in lens. */
  class Tables {
    const lens: array<nat>
    const codes: array<Code>
    const work: array<nat>

    constructor ()
      ensures Valid() && fresh(lens) && fresh(codes) && fresh(work)
    {
      lens, codes, work := new nat[320], new Code[852 + 592](_ => InvalidEntry()), new nat[288];
    }

    ghost predicate Valid() {
      lens.Length == 320 && codes.Length == 852 + 592 && work.Length == 288 && work != lens
    }

    lemma ValidIs()
      ensures Valid() <==> lens.Length == 320 && codes.Length == 852 + 592 && work.Length == 288 && work != lens
    {
    }
  }

  lemma AtIs(r: Bits, text: seq<Byte>)
    ensures At(r, text) == Place(r.h, r.avail, text) && Bits(At(r, text).h, At(r, text).avail) == r
  {
  }

  /** Reads a block with codes of its own. */
  method ReadDynamic(inf: Inflater, tables: Tables, ghost b: Block, ghost q: Place)
    returns (mode: Mode, ghost got: Block)
    requires inf.Valid() && tables.Valid() && inf.source.bits < 8
    modifies inf.source, inf.output, inf.output.window, tables.lens, tables.codes, tables.work
    ensures inf.Valid() && (mode == TYPE || mode == BAD || mode == BufError)
    ensures mode == TYPE ==> inf.source.bits < 8 && inf.source.Avail() <= old(inf.source.Avail())
    ensures b.Dynamic? && DynamicHere(b.head, b.xs, old(inf.Here()), q, inf.output.window.Length) ==>
              mode == TYPE && inf.Here() == q
    ensures mode == TYPE ==>
              && TypeOf(got) == 2 && BodyTold(got, old(inf.Here()), inf.Here(), inf.output.window.Length)
              && (inf.output.window.Length <= 258 ==> BlockReach(got, old(inf.Here()).text, inf.output.window.Length))
  {
    hide *;
    inf.ValidIs();
    inf.HereIs();
    tables.ValidIs();
    BitsOfIs(inf.source);
    ghost var p, wsize := inf.Here(), inf.output.window.Length;
    ghost var on := b.Dynamic? && DynamicHere(b.head, b.xs, p, q, wsize);
    ghost var hd, r, xs := Head(0, 0, 0, [], [], FixedCodes()), Bits(0, 0), [];
    if on {
      hd, xs := b.head, b.xs;
      r := DynamicParts(hd, xs, p, q, wsize);
    }
    got := b;
    var len, dist;
    ghost var head;
    BitsHereIs(inf);
    mode, len, dist, head := ReadHead(inf.source, tables.lens, tables.codes, tables.work, hd, r);
    inf.ValidIs();
    if mode != LEN {
      return;
    }
    inf.HereIs();
    BitsOfIs(inf.source);
    HeadShorter(head, Bits(p.h, p.avail), BitsOf(inf.source));
    AtIs(r, p.text);
    ghost var ys, at := [], BitsOf(inf.source);
    AtIs(at, p.text);
    mode, ys := inf.DecodeBlock(len, dist, head.z, xs, q);
    BitsHereIs(inf);
    inf.HereIs();
    if mode == TYPE {
      got := Dynamic(head, ys);
      TypeOfIs(got);
      DynamicTold(head, ys, p, at, inf.Here(), wsize);
    }
  }

  lemma DynamicParts(head: Head, xs: seq<Coded>, p: Place, q: Place, wsize: nat) returns (r: Bits)
    requires DynamicHere(head, xs, p, q, wsize)
    ensures HeadHere(head, Bits(p.h, p.avail), r) && BlockReadable(head.z, xs, At(r, p.text), q, wsize)
  {
    r :| HeadHere(head, Bits(p.h, p.avail), r) && BlockReadable(head.z, xs, At(r, p.text), q, wsize);
  }

  lemma {:induction false} UnrollsShorter(cl: seq<nat>, xs: seq<Item>, total: nat, sofar: seq<nat>, p: Bits,
                                          lens: seq<nat>, q: Bits)
    requires Unrolls(cl, xs, total, sofar, p, lens, q)
    ensures q.avail <= p.avail
    decreases |xs|
  {
    if xs != [] {
      UnrollsShorter(cl, xs[1..], total, sofar + Adds(xs[0], sofar), Skip(p, ItemSize(cl, xs[0])), lens, q);
    }
  }

  lemma HeadShorter(hd: Head, p: Bits, q: Bits)
    requires HeadHere(hd, p, q)
    ensures q.avail <= p.avail
  {
    HeadIs(hd, p, q);
    hide *;
    SkipIs(p, 14 + 3 * hd.ncode);
    UnrollsShorter(hd.cl, hd.items, hd.nlen + hd.ndist, [], Skip(p, 14 + 3 * hd.ncode), hd.z.lens + hd.z.dists, q);
  }

  /** Reads a block with the fixed codes. */
  method ReadFixed(inf: Inflater, tables: Tables, ghost b: Block, ghost q: Place)
    returns (mode: Mode, ghost got: Block)
    requires inf.Valid() && tables.Valid() && inf.source.bits < 8
    modifies inf.source, inf.output, inf.output.window, tables.lens, tables.codes, tables.work
    ensures inf.Valid() && (mode == TYPE || mode == BAD || mode == BufError)
    ensures mode == TYPE ==> inf.source.bits < 8 && inf.source.Avail() <= old(inf.source.Avail())
    ensures b.Fixed? && BlockReadable(FixedCodes(), b.xs, old(inf.Here()), q, inf.output.window.Length) ==>
              mode == TYPE && inf.Here() == q
    ensures mode == TYPE ==>
              && TypeOf(got) == 1 && BodyTold(got, old(inf.Here()), inf.Here(), inf.output.window.Length)
              && (inf.output.window.Length <= 258 ==> BlockReach(got, old(inf.Here()).text, inf.output.window.Length))
  {
    hide *;
    inf.ValidIs();
    inf.HereIs();
    tables.ValidIs();
    FixedCodesAre();
    got := b;
    BitsHereIs(inf);
    ghost var p := inf.Here();
    var len, dist := FixedTables(tables.lens, tables.codes, tables.work);
    inf.ValidIs();
    inf.HereIs();
    ghost var xs := if b.Fixed? then b.xs else [];
    ghost var ys;
    mode, ys := inf.DecodeBlock(len, dist, FixedCodes(), xs, q);
    BitsHereIs(inf);
    inf.HereIs();
    if mode == TYPE {
      got := Fixed(ys);
      TypeOfIs(got);
      FixedTold(ys, p, inf.Here(), inf.output.window.Length);
    }
  }

  lemma FixedCodesAre()
    ensures FixedCodes() == Codes(FixedLens(), FixedDists())
  {
  }

  /** Reads the type of a block, and the block. */
  method ReadBlock(inf: Inflater, tables: Tables, ghost b: Block, ghost q: Place)
    returns (mode: Mode, last: bool, ghost got: Block)
    requires inf.Valid() && tables.Valid() && inf.source.bits < 8
    modifies inf.source, inf.output, inf.output.window, tables.lens, tables.codes, tables.work
    ensures inf.Valid() && (mode == TYPE || mode == BAD || mode == BufError)
    ensures mode == TYPE ==> inf.source.bits < 8 && inf.source.Avail() < old(inf.source.Avail())
    ensures forall z :: BlockHere(b, z, old(inf.Here()), q, inf.output.window.Length) ==>
              mode == TYPE && last == z && inf.Here() == q
    ensures mode == TYPE ==>
              && BlockTold(got, last, old(inf.Here()), inf.Here(), inf.output.window.Length)
              && (inf.output.window.Length <= 258 ==> BlockReach(got, old(inf.Here()).text, inf.output.window.Length))
  {
    hide *;
    got := b;
    var src := inf.source;
    inf.ValidIs();
    inf.HereIs();
    BitsOfIs(src);
    BitsHereIs(inf);
    ghost var p, wsize := inf.Here(), inf.output.window.Length;
    ghost var s := Bits(p.h, p.avail);
    ghost var on := false;
    ghost var z := false;
    if exists y :: BlockHere(b, y, p, q, wsize) {
      z :| BlockHere(b, z, p, q, wsize);
      on := true;
    }
    BlockIs(b, true, p, q, wsize);
    BlockIs(b, false, p, q, wsize);
    last := false;
    var ok := Need(src, 3);
    if !ok {
      inf.ValidIs();
      return BufError, last, got;
    }
    SkipIs(s, 1);
    SkipIs(s, 3);
    SkipSkip(s, 1, 2);
    var u := Take(src, 1);
    last := u == 1;
    var v := Take(src, 2);
    SmallExtras(s.h, After(s.h, 1), u, v);
    BitsOfIs(src);
    inf.ValidIs();
    inf.HereIs();
    AtIs(Skip(s, 3), p.text);
    if on { BodyIs(b, At(Skip(s, 3), p.text), q, wsize); }
    BitsHereIs(inf);
    if v == 0 {
      ghost var here, data := inf.Here(), [];
      mode, data := ReadStored(inf, if b.Stored? then b.data else [], q);
      inf.HereIs();
      BitsHereIs(inf);
      if mode == TYPE {
        got := Stored(data);
        TypeOfIs(got);
        StoredTold(data, here, inf.Here(), wsize);
        BlockToldMade(got, last, p, inf.Here(), wsize);
      }
    } else if v == 1 {
      mode, got := ReadFixed(inf, tables, b, q);
      if mode == TYPE { BlockToldMade(got, last, p, inf.Here(), wsize); }
    } else if v == 2 {
      mode, got := ReadDynamic(inf, tables, b, q);
      if mode == TYPE { BlockToldMade(got, last, p, inf.Here(), wsize); }
    } else {
      mode := BAD;
    }
  }

  lemma SmallExtras(g: nat, h: nat, u: nat, v: nat)
    requires ExtraIs(g, 1, u) && ExtraIs(h, 2, v)
    ensures u == g % 2 && v == h % 4
  {
    assert Pow2(1) == 2 && Pow2(2) == 4;
  }

  /** How decoding ends: the stream is complete, is not valid, or goes on behind the input. */
  datatype Ending = StreamEnd | DataError | NoInput

  /** Decodes a whole stream. One that is valid is decoded to the text of its blocks. Where the end is reported, the
      bits were blocks, with codes that may be used, up to the last one; they were a valid stream exactly if no distance
      in them reaches back too far, and then they are decoded to its text. With a window of at most 258 bytes none
      does. */
  method Inflate(inf: Inflater, tables: Tables, ghost bs: seq<Block>, ghost q: Place)
    returns (ret: Ending, ghost got: seq<Block>)
    requires inf.Valid() && tables.Valid() && inf.source.bits == 0
    modifies inf.source, inf.output, inf.output.window, tables.lens, tables.codes, tables.work
    ensures inf.Valid()
    ensures StreamHere(bs, old(inf.Here()), q, inf.output.window.Length) ==>
              && ret == StreamEnd && inf.Here() == q && inf.output.Text() == StreamText(old(inf.output.Text()), bs)
    ensures ret == StreamEnd ==>
              && StreamSpelled(got, old(BitsHere(inf)), BitsHere(inf))
              && (StreamReach(got, old(inf.output.Text()), inf.output.window.Length) <==>
                    StreamHere(got, old(inf.Here()), inf.Here(), inf.output.window.Length))
              && (StreamReach(got, old(inf.output.Text()), inf.output.window.Length) ==>
                    inf.output.Text() == StreamText(old(inf.output.Text()), got))
              && (inf.output.window.Length <= 258 ==>
                    StreamReach(got, old(inf.output.Text()), inf.output.window.Length))
  {
    hide *;
    BitsHereIs(inf);
    got := [];
    inf.ValidIs();
    inf.HereIs();
    ghost var p, r, wsize, rem := inf.Here(), inf.Here(), inf.output.window.Length, bs;
    NoneTold(p, wsize);
    ghost var on := StreamHere(bs, p, q, wsize);
    if on { StreamEnds(bs, p, q, wsize); }
    var last := false;
    while !last
      invariant inf.Valid() && tables.Valid() && inf.source.Valid() && inf.source.bits < 8 && r == inf.Here()
      invariant on && last ==> q == At(ToWhole(r), r.text)
      invariant on && !last ==> StreamHere(rem, r, q, wsize)
      invariant if last then StreamTold(got, p, At(ToWhole(r), r.text), wsize) else BlocksTold(got, p, r, wsize)
      invariant wsize <= 258 ==> StreamReach(got, p.text, wsize)
      decreases !last, inf.source.Avail()
    {
      ghost var end := r;
      ghost var b := Stored([]);
      if on {
        end := StreamNext(rem, r, q, wsize);
        b := rem[0];
      }
      var mode;
      ghost var g;
      mode, last, g := ReadBlock(inf, tables, b, end);
      inf.ValidIs();
      if mode == BAD {
        return DataError, got;
      }
      if mode == BufError {
        return NoInput, got;
      }
      inf.HereIs();
      if last {
        ToldClose(got, p, r, g, inf.Here(), wsize);
      } else {
        ToldPush(got, p, r, g, inf.Here(), wsize);
      }
      got := got + [g];
      r := inf.Here();
      if on { rem := rem[1..]; }
    }
    inf.HereIs();
    inf.ValidIs();
    BitsHereIs(inf);
    ToWholeIs(r);
    BitsOfIs(inf.source);
    ToByte(inf.source);
    inf.ValidIs();
    inf.HereIs();
    BitsOfIs(inf.source);
    AtIs(ToWhole(r), r.text);
    BitsHereIs(inf);
    ret := StreamEnd;
    StreamToldIs(got, p, inf.Here(), wsize);
    if StreamHere(got, p, inf.Here(), wsize) {
      HereReach(got, p, inf.Here(), wsize);
      StreamEnds(got, p, inf.Here(), wsize);
    }
  }
}
