/** The fast decoding loop: while six bytes of input and room for a longest match are at hand, nothing is tested. */
module InflateFast {
  import opened Arithmetic
  import opened MachineInts
  import opened SetSums
  import opened DeflateCodes
  import opened NextCodes
  import opened TableLayout
  import opened InflateTable
  import opened InflateBits
  import opened BitStream
  import opened InflateSource
  import opened BackWindow
  import opened DeflateTokens
  import opened DeflateBlocks
  import opened Lz77

  /** Of the six bytes a token may need, t are taken in, and no more than used bits of it are used up. */
  ghost predicate Budget(src: BitSource, t: nat, used: nat)
    reads src
  {
    t <= 6 && 8 * t <= src.bits + used && src.next + 6 <= |src.piece| + t
  }

  lemma BudgetIs(src: BitSource, t: nat, used: nat)
    ensures Budget(src, t, used) <==> t <= 6 && 8 * t <= src.bits + used && src.next + 6 <= |src.piece| + t
  {
  }

  /** Where decoding stood: how many bits it held, the input, and all bits to come. */
  datatype Origin = Origin(hold: nat, bits: nat, next: nat, piece: seq<Byte>, later: seq<seq<Byte>>, h: nat, avail: nat)

  ghost function Stand(src: BitSource): Origin
    requires src.Valid()
    reads src
  {
    Origin(src.hold, src.bits, src.next, src.piece, src.later, src.Ahead(), src.Avail())
  }

  /** Since o, bytes of the same piece have been taken in and n bits used up. */
  ghost predicate Since(src: BitSource, o: Origin, n: nat)
    reads src
  {
    && src.Valid() && src.piece == o.piece && src.later == o.later && o.next <= src.next
    && src.bits == o.bits + 8 * (src.next - o.next) - n
    && src.Ahead() == After(o.h, n) && src.Avail() == o.avail - n
  }

  lemma SinceIs(src: BitSource, o: Origin, n: nat)
    ensures Since(src, o, n)
        <==> && src.Valid() && src.piece == o.piece && src.later == o.later && o.next <= src.next
             && src.bits == o.bits + 8 * (src.next - o.next) - n
             && src.Ahead() == After(o.h, n) && src.Avail() == o.avail - n
  {
  }

  lemma StandIs(src: BitSource)
    requires src.Valid()
    ensures Stand(src) == Origin(src.hold, src.bits, src.next, src.piece, src.later, src.Ahead(), src.Avail())
    ensures Since(src, Stand(src), 0)
  {
    ExtraValue(src.Ahead(), 0);
  }

  /** From o to o', n bits were used up. */
  ghost predicate Reached(o: Origin, n: nat, o': Origin) {
    && o'.piece == o.piece && o'.later == o.later && o.next <= o'.next
    && o'.bits == o.bits + 8 * (o'.next - o.next) - n && o'.h == After(o.h, n) && o'.avail == o.avail - n
  }

  lemma StandReached(src: BitSource, o: Origin, n: nat)
    requires Since(src, o, n)
    ensures src.Valid() && Reached(o, n, Stand(src)) && Since(src, Stand(src), 0)
  {
    StandIs(src);
  }

  /** One stretch of decoding after another. */
  lemma SinceBoth(src: BitSource, o: Origin, m: nat, o': Origin, n: nat)
    requires Since(src, o', n) && Reached(o, m, o')
    ensures Since(src, o, m + n)
  {
    AfterTwice(o.h, m, n);
  }

  lemma AfterTwice(h: nat, m: nat, n: nat)
    ensures After(After(h, m), n) == After(h, m + n)
  {
    hide *;
    AfterIs(h, m);
    AfterIs(After(h, m), n);
    AfterIs(h, m + n);
    TwoDrops(h, m, n);
  }

  /** Takes in two bytes when fewer than 15 bits are held. */
  method Refill(src: BitSource, ghost t: nat, ghost used: nat) returns (ghost t': nat)
    requires src.Valid() && Budget(src, t, used) && used <= 20
    modifies src
    ensures src.Valid() && src.bits >= 15 && Budget(src, t', used)
    ensures Since(src, old(Stand(src)), 0) && src.Ahead() == old(src.Ahead())
  {
    hide *;
    ghost var o := Stand(src);
    StandIs(src);
    BudgetIs(src, t, used);
    ExtraValue(src.Ahead(), 0);
    t' := t;
    if src.bits < 15 {
      src.TakeByte();
      src.TakeByte();
      t' := t + 2;
    }
    BudgetIs(src, t', used);
    SinceIs(src, o, 0);
  }

  /** Takes in a byte when fewer than n bits are held. */
  method TopUp(src: BitSource, n: nat, ghost t: nat, ghost used: nat) returns (ghost t': nat)
    requires src.Valid() && Budget(src, t, used) && n + used <= 48
    modifies src
    ensures src.Valid() && Budget(src, t', used) && src.bits >= old(src.bits)
    ensures src.bits >= n || src.bits == old(src.bits) + 8
    ensures Since(src, old(Stand(src)), 0) && src.Ahead() == old(src.Ahead())
  {
    hide *;
    ghost var o := Stand(src);
    StandIs(src);
    BudgetIs(src, t, used);
    ExtraValue(src.Ahead(), 0);
    t' := t;
    if src.bits < n {
      src.TakeByte();
      t' := t + 1;
    }
    BudgetIs(src, t', used);
    SinceIs(src, o, 0);
  }

  /** The low n bits held, used up. */
  method Extra(src: BitSource, n: nat, ghost t: nat, ghost used: nat) returns (v: nat)
    requires src.Valid() && n <= src.bits && Budget(src, t, used)
    modifies src
    ensures src.Valid() && ExtraIs(old(src.Ahead()), n, v) && Pow2(n) > v && Budget(src, t, used + n)
    ensures Since(src, old(Stand(src)), n) && src.Ahead() == After(old(src.Ahead()), n)
  {
    hide *;
    ghost var o := Stand(src);
    StandIs(src);
    src.Held();
    AgreeBelow(src.hold, src.bits, src.Ahead(), n);
    ExtraValue(src.Ahead(), n);
    AfterIs(src.Ahead(), n);
    BudgetIs(src, t, used);
    PowPositive(n);
    Remainder(src.hold, Pow2(n));
    v := src.hold % Pow2(n);
    src.DropBits(n);
    BudgetIs(src, t, used + n);
    SinceIs(src, o, n);
  }

  /** Looks up the next code, 15 bits being held. */
  method Code1(src: BitSource, table: Table, ghost lens: seq<nat>, ghost ct: CodeType, ghost t: nat, ghost used: nat)
    returns (here: Code, ghost n: nat)
    requires src.Valid() && TableOk(table, lens, ct) && src.bits >= 15 && Budget(src, t, used)
    modifies src
    ensures table.at <= table.code.Length && TablesFor(table.code[table.at..], table.bits, lens, ct)
    ensures src.Valid() && Finds(table.code[table.at..], table.bits, old(src.Ahead()), here, n) && n <= 15
    ensures Since(src, old(Stand(src)), n) && src.Ahead() == After(old(src.Ahead()), n) && Budget(src, t, used + n)
  {
    hide *;
    ghost var o := Stand(src);
    StandIs(src);
    TableIs(table, lens, ct);
    BudgetIs(src, t, used);
    here, n := src.LookupFast(table.code, table.at, table.bits, lens, ct);
    AfterIs(o.h, n);
    BudgetIs(src, t, used + n);
    SinceIs(src, o, n);
  }

  lemma BudgetMore(src: BitSource, t: nat, used: nat, more: nat)
    requires Budget(src, t, used) && used <= more
    ensures Budget(src, t, more)
  {
  }

  lemma DistOp(op: Byte)
    requires op == 64 || 16 <= op <= 29
    ensures op / 16 % 2 == 1 <==> op != 64
    ensures op / 64 % 2 == 1 <==> op == 64
    ensures op != 64 ==> op % 16 == op - 16
  {
  }

  /** Reads a distance code and its extra bits; false for bits that begin with no distance code. */
  method FastDistance(src: BitSource, dist: Table, ghost z: Codes, ghost dsym: nat, ghost dextra: nat, ghost t0: nat,
                      ghost reach: nat)
    returns (ok: bool, offset: nat, ghost used: nat, ghost ds: nat, ghost dx: nat)
    requires src.Valid() && TableOk(dist, z.dists, DISTS) && Budget(src, t0, 20)
    modifies src
    ensures Since(src, old(Stand(src)), used) && (ok ==> offset >= 1)
    ensures DistanceReadable(z, dsym, dextra, old(src.Ahead()), old(src.Avail()), reach) ==>
              && ok && offset == DBASE[dsym] + dextra && used == z.dists[dsym] + DistExtra(dsym)
    ensures ok ==>
              && DistanceSpelled(z, ds, dx, old(src.Ahead())) && ds < |z.dists| && ds < 30
              && used == z.dists[ds] + DistExtra(ds) && offset == DBASE[ds] + dx
              && src.Ahead() == After(After(old(src.Ahead()), z.dists[ds]), DistExtra(ds))
  {
    hide *;
    dx := 0;
    ghost var o := Stand(src);
    StandIs(src);
    DistanceIs(z, dsym, dextra, o.h, o.avail, reach);
    ghost var t := Refill(src, t0, 20);
    var here;
    ghost var n;
    StandReached(src, o, 0);
    ghost var o1 := Stand(src);
    here, n := Code1(src, dist, z.dists, DISTS, t, 20);
    SinceBoth(src, o, 0, o1, n);
    used := n;
    DistFound(dist.code[dist.at..], dist.bits, z, dsym, dextra, o.h, o.avail, reach, here, n);
    ds := DistanceSymbol(dist.code[dist.at..], dist.bits, z, o.h, here, n);
    DistOp(here.op);
    offset := here.val;
    if here.op / 16 % 2 != 1 {
      return false, offset, used, ds, dx;
    }
    var op: nat := here.op % 16;
    BudgetMore(src, t, 20 + n, 35);
    StandReached(src, o, n);
    o1 := Stand(src);
    t := TopUp(src, op, t, 35);
    SinceBoth(src, o, n, o1, 0);
    StandReached(src, o, n);
    o1 := Stand(src);
    t := TopUp(src, op, t, 35);
    SinceBoth(src, o, n, o1, 0);
    StandReached(src, o, n);
    o1 := Stand(src);
    var v := Extra(src, op, t, 35);
    SinceBoth(src, o, n, o1, op);
    ExtraSame(After(o.h, n), op, v, dextra);
    offset := offset + v;
    used := n + op;
    dx := v;
    DistanceIsSpelled(z, ds, dx, o.h);
    AfterTwice(o.h, n, op);
    SinceIs(src, o, used);
    ok := true;
  }

  lemma DistanceIsSpelled(z: Codes, ds: nat, dx: nat, h: nat)
    requires ds < 30 && ds < |z.dists| && Leads(z.dists, ds, h) && ExtraIs(After(h, z.dists[ds]), DistExtra(ds), dx)
    ensures DistanceSpelled(z, ds, dx, h)
  {
  }

  lemma LengthBound(op: Byte, val: nat, v: nat)
    requires 16 <= op <= 21 && val + Pow2(op - 16) <= 259 && v < Pow2(op % 16)
    ensures op % 16 == op - 16 && val + v <= 258
  {
  }

  lemma PairBeyond(here: Code, z: Codes, x: Coded, h: nat, g: nat, avail: nat, reach: nat)
    requires PairReadable(here, z, x, h, g, avail, reach)
    ensures PairOk(x) && x.dsym < |z.dists| && x.lsym < |z.lens| && Begins(z.lens, z.dists, x, h)
    ensures Size(z.lens, z.dists, x, h) - z.lens[x.lsym] == here.op % 16 + (z.dists[x.dsym] + DistExtra(x.dsym))
    ensures After(g, here.op % 16 + (z.dists[x.dsym] + DistExtra(x.dsym))) == Beyond(z.lens, z.dists, x, h)
  {
    PairIs(here, z, x, h, g, avail, reach);
    hide *;
    var op := here.op % 16;
    AfterTwice(After(g, op), z.dists[x.dsym], DistExtra(x.dsym));
    AfterTwice(g, op, z.dists[x.dsym] + DistExtra(x.dsym));
  }

  /** Reads the rest of a pair whose length code has been read. */
  method PairBits(src: BitSource, here: Code, dist: Table, ghost z: Codes, ghost x: Coded, ghost h: nat, ghost t0: nat,
                  ghost reach: nat, ghost s: nat)
    returns (ok: bool, length: nat, offset: nat, ghost used: nat, ghost y: Coded)
    requires src.Valid() && TableOk(dist, z.dists, DISTS) && Budget(src, t0, 15)
    requires 16 <= here.op <= 21 && 3 <= here.val && here.val + Pow2(here.op - 16) <= 259
    requires 257 <= s <= 285 && s < |z.lens| && Leads(z.lens, s, h) && here.op % 16 == LengthExtra(s)
    requires src.Ahead() == After(h, z.lens[s]) && here.val == LBASE[s - 257]
    modifies src
    ensures Since(src, old(Stand(src)), used) && 3 <= length <= 258 && (ok ==> offset >= 1)
    ensures PairReadable(here, z, x, h, old(src.Ahead()), old(src.Avail()), reach) ==>
              && ok && PairOk(x) && x.lsym < |z.lens| && Match(offset, length) == TokenOf(x)
              && Begins(z.lens, z.dists, x, h) && used == Size(z.lens, z.dists, x, h) - z.lens[x.lsym]
              && src.Ahead() == Beyond(z.lens, z.dists, x, h)
    ensures ok ==> !y.End? && Spells(z, y, h, old(src.Avail()) + z.lens[s], src.Ahead(), src.Avail())
    ensures ok ==> PairOk(y) && TokenOf(y) == Match(offset, length) && DistanceOf(y) == offset
  {
    hide *;
    y := End;
    ghost var o := Stand(src);
    StandIs(src);
    PairIs(here, z, x, h, o.h, o.avail, reach);
    var op: nat := here.op % 16;
    LengthBound(here.op, here.val, 0);
    PowPositive(op);
    ghost var t := TopUp(src, op, t0, 15);
    StandReached(src, o, 0);
    ghost var o1 := Stand(src);
    var v := Extra(src, op, t, 15);
    SinceBoth(src, o, 0, o1, op);
    BudgetMore(src, t, 15 + op, 20);
    LengthBound(here.op, here.val, v);
    ExtraSame(o.h, op, v, if x.Pair? then x.lextra else 0);
    length := here.val + v;
    StandReached(src, o, op);
    o1 := Stand(src);
    ghost var n;
    ghost var ds, dx := if x.Pair? then x.dsym else 0, if x.Pair? then x.dextra else 0;
    ghost var d, e;
    ok, offset, n, d, e := FastDistance(src, dist, z, ds, dx, t, reach);
    SinceBoth(src, o, op, o1, n);
    used := op + n;
    SinceIs(src, o, used);
    if ok {
      y := Pair(s, v, d, e);
      PairIsSpelled(z, y, h);
      PairToldBy(y, offset, length);
      SpellsPair(z, y, h, o.avail + z.lens[s], src.Ahead(), src.Avail());
    }
    if PairReadable(here, z, x, h, o.h, o.avail, reach) { PairBeyond(here, z, x, h, o.h, o.avail, reach); }
  }

  lemma PairIsSpelled(z: Codes, y: Coded, h: nat)
    requires y.Pair? && 257 <= y.lsym <= 285 && y.dsym < 30 && y.lsym < |z.lens| && Leads(z.lens, y.lsym, h)
    requires ExtraIs(After(h, z.lens[y.lsym]), LengthExtra(y.lsym), y.lextra)
    ensures PairOk(y) && PairSpelled(z, y, h)
  {
  }

  /** Reads the rest of a pair whose length code has been read, and copies the match. */
  method FastPair(src: BitSource, out: Window, here: Code, dist: Table, ghost z: Codes, ghost x: Coded, ghost h: nat,
                  ghost t0: nat, ghost s: nat)
    returns (ok: bool, ghost used: nat, ghost toks: seq<Token>, ghost y: Coded)
    requires src.Valid() && out.Valid() && TableOk(dist, z.dists, DISTS) && Budget(src, t0, 15) && out.left >= 258
    requires 16 <= here.op <= 21 && 3 <= here.val && here.val + Pow2(here.op - 16) <= 259
    requires 257 <= s <= 285 && s < |z.lens| && Leads(z.lens, s, h) && here.op % 16 == LengthExtra(s)
    requires src.Ahead() == After(h, z.lens[s]) && here.val == LBASE[s - 257]
    modifies src, out, out.window
    ensures Since(src, old(Stand(src)), used) && out.Valid() && old(out.Text()) <= out.Text()
    ensures out.Reach() >= old(out.Reach()) && out.whave == old(out.whave)
    ensures PairReadable(here, z, x, h, old(src.Ahead()), old(src.Avail()), old(out.put) + out.whave) ==>
              && ok && Begins(z.lens, z.dists, x, h) && PairOk(x) && toks == [TokenOf(x)] && x.lsym < |z.lens|
              && src.Ahead() == Beyond(z.lens, z.dists, x, h)
              && used == Size(z.lens, z.dists, x, h) - z.lens[x.lsym]
    ensures ok ==> !y.End? && Spells(z, y, h, old(src.Avail()) + z.lens[s], src.Ahead(), src.Avail())
    ensures ok ==> PairOk(y) && toks == [TokenOf(y)] && InReach(y, old(out.put) + out.whave) && out.left < old(out.left)
    ensures ok && DistanceOf(y) <= old(out.Reach()) ==> out.Text() == Expand(old(out.Text()), toks)
  {
    hide *;
    ghost var text, limit := out.Text(), out.put + out.whave;
    var length, offset;
    PairIs(here, z, x, h, src.Ahead(), src.Avail(), limit);
    ok, length, offset, used, y := PairBits(src, here, dist, z, x, h, t0, limit, s);
    toks := [];
    if PairOk(x) { DistanceTold(x); }
    if ok {
      InReachIs(y, limit);
      ok := out.CopyFast(offset, length);
      toks := [Match(offset, length)];
      ExpandOne(text, Match(offset, length));
    }
  }

  lemma DistanceTold(x: Coded)
    requires PairOk(x)
    ensures TokenOf(x) == Match(DistanceOf(x), LengthOf(x))
  {
  }

  /** The kinds of entries, told by the tests in the order of this loop. */
  lemma FastKinds(op: Byte)
    requires op == 0 || op == 96 || op == 64 || op == 72 || op == 78 || 16 <= op <= 21
    ensures op != 0 ==> (op / 16 % 2 == 1 <==> 16 <= op <= 21)
    ensures op != 0 && op / 16 % 2 != 1 ==> (op / 32 % 2 == 1 <==> op == 96)
  {
  }

  lemma CodeTakes(t: seq<Code>, root: nat, lens: seq<nat>, ct: CodeType, h: nat, e: Code, n: nat)
    requires TablesFor(t, root, lens, ct) && Finds(t, root, h, e, n)
    ensures n >= 1
  {
    var f, m := TablesFind(t, root, lens, ct, h);
    FindsOnce(t, root, h, e, n, f, m);
  }

  /** Takes in enough bytes and looks up the code of a literal or length. */
  method FirstCode(src: BitSource, len: Table, ghost z: Codes, ghost x: Coded, ghost reach: nat)
    returns (here: Code, ghost n: nat, ghost t: nat, ghost s: nat)
    requires src.Valid() && TableOk(len, z.lens, LENS) && Budget(src, 0, 0)
    modifies src
    ensures Since(src, old(Stand(src)), n) && Budget(src, t, 15) && n >= 1
    ensures here.op == 0 || here.op == 96 || here.op == 64 || here.op == 72 || here.op == 78 || 16 <= here.op <= 21
    ensures here.op == 0 ==> here.val < 256
    ensures 16 <= here.op <= 21 ==> 3 <= here.val && here.val + Pow2(here.op - 16) <= 259
    ensures Readable(z, x, old(src.Ahead()), old(src.Avail()), reach) ==>
              LenTells(z, x, old(src.Ahead()), old(src.Avail()), reach, here, n)
    ensures here.op == 0 || here.op == 96 || 16 <= here.op <= 21 ==>
              s < |z.lens| && Leads(z.lens, s, old(src.Ahead())) && n == z.lens[s]
    ensures (here.op == 0 ==> s == here.val) && (here.op == 96 ==> s == 256)
    ensures 16 <= here.op <= 21 ==> 257 <= s <= 285 && here.op % 16 == LengthExtra(s) && here.val == LBASE[s - 257]
  {
    hide *;
    ghost var o := Stand(src);
    StandIs(src);
    t := Refill(src, 0, 0);
    StandReached(src, o, 0);
    ghost var o1 := Stand(src);
    here, n := Code1(src, len, z.lens, LENS, t, 0);
    SinceBoth(src, o, 0, o1, n);
    BudgetMore(src, t, n, 15);
    CodeTakes(len.code[len.at..], len.bits, z.lens, LENS, o.h, here, n);
    LensEntry(len.code[len.at..], len.bits, z.lens, o.h, here, n);
    s := LenSymbol(len.code[len.at..], len.bits, z, o.h, here, n);
    LenFound(len.code[len.at..], len.bits, z, x, o.h, o.avail, reach, here, n);
  }

  /** Decodes one literal, pair or end of block. A pair is accepted if its distance is at most put + whave, which may be
      more than there is text; the text is right if there is as much. */
  method FastToken(src: BitSource, out: Window, len: Table, dist: Table, ghost z: Codes, ghost x: Coded)
    returns (mode: Mode, ghost used: nat, ghost toks: seq<Token>, ghost y: Coded)
    requires src.Valid() && out.Valid() && TableOk(len, z.lens, LENS) && TableOk(dist, z.dists, DISTS)
    requires Budget(src, 0, 0) && out.left >= 258
    modifies src, out, out.window
    ensures Since(src, old(Stand(src)), used) && out.Valid() && old(out.Text()) <= out.Text() && used > 0
    ensures out.Reach() >= old(out.Reach()) && mode != BufError && out.whave == old(out.whave)
    ensures Readable(z, x, old(src.Ahead()), old(src.Avail()), old(out.put) + out.whave) ==>
              Decoded(z, x, old(src.Ahead()), old(src.Avail()), src.Ahead(), src.Avail(), mode, toks)
    ensures mode == LEN || mode == TYPE ==>
              && (y.End? <==> mode == TYPE)
              && Spells(z, y, old(src.Ahead()), old(src.Avail()), src.Ahead(), src.Avail())
              && InReach(y, old(out.put) + out.whave)
              && (InReach(y, old(out.Reach())) ==> out.Text() == Expand(old(out.Text()), toks))
    ensures mode == LEN ==> (y.Byte0? || PairOk(y)) && toks == [TokenOf(y)] && out.left < old(out.left)
    ensures mode == TYPE ==> toks == []
  {
    hide *;
    y := End;
    ghost var o, text, limit := Stand(src), out.Text(), out.put + out.whave;
    StandIs(src);
    ExpandNone(text);
    toks := [];
    var here;
    ghost var n, t, s;
    here, n, t, s := FirstCode(src, len, z, x, limit);
    SinceIs(src, o, n);
    used := n;
    FastKinds(here.op);
    OpBits(here.op);
    ghost var told := LenTells(z, x, o.h, o.avail, limit, here, n);
    if told { TellsAll(z, x, o.h, o.avail, limit, here, n); }
    if here.op == 0 {
      TellsLiteral(z, x, o.h, o.avail, limit, here, n);
      out.PutByte(here.val);
      toks := [Literal(here.val)];
      ExpandOne(text, Literal(here.val));
      mode, y := LEN, Byte0(here.val);
      ByteTold(here.val, limit);
      SpellsLen(z, y, s, o.h, o.avail);
    } else if here.op / 16 % 2 == 1 {
      StandReached(src, o, n);
      ghost var o1 := Stand(src);
      if told { PairTold(z, x, o.h, o.avail, limit, here, n); }
      ghost var reach := out.Reach();
      var ok;
      ghost var m;
      ok, m, toks, y := FastPair(src, out, here, dist, z, x, o.h, t, s);
      SinceBoth(src, o, n, o1, m);
      SinceIs(src, o, n + m);
      used := n + m;
      mode := if ok then LEN else BAD;
      if ok {
        InReachIs(y, limit);
        InReachIs(y, reach);
        PairNoEnd(y);
      }
      TellsPair(z, x, o.h, o.avail, limit, here, n, src.Ahead(), src.Avail(), mode, toks);
    } else if here.op / 32 % 2 == 1 {
      TellsEnd(z, x, o.h, o.avail, limit, here, n);
      mode := TYPE;
      InReachIs(End, limit);
      SpellsLen(z, End, s, o.h, o.avail);
    } else {
      mode := BAD;
    }
  }

  lemma ByteTold(c: Byte, reach: nat)
    ensures TokenOf(Byte0(c)) == Literal(c) && InReach(Byte0(c), reach)
  {
  }

  lemma PairNoEnd(y: Coded)
    requires PairOk(y)
    ensures y.Pair?
  {
  }

  /** What is accepted, put + whave, is exactly what is within reach only where nothing has been put out since the
      window last went round. */
  lemma LimitIs(out: Window)
    requires out.Valid() && out.whave == if out.whave < out.window.Length then out.put else out.window.Length
    ensures out.put + out.whave == out.Reach() <==> out.put == 0
  {
  }

  /** One byte has been put out, and the bits begin with a match that reaches back two bytes: with any window of more
      than 258 bytes the match is accepted. */
  method AcceptsTwoBack(src: BitSource, w: array<Byte>, c: Byte, len: Table, dist: Table, ghost z: Codes,
                        ghost x: Coded)
    returns (mode: Mode, out: Window, ghost before: seq<Byte>)
    requires src.Valid() && Budget(src, 0, 0) && TableOk(len, z.lens, LENS) && TableOk(dist, z.dists, DISTS)
    requires w.Length > 258 && Readable(z, x, src.Ahead(), src.Avail(), 2) && x.Pair? && PairOk(x) && DistanceOf(x) == 2
    modifies src, w
    ensures mode == LEN && before == [c] && out.Valid() && before <= out.Text()
  {
    hide *;
    out := new Window(w);
    out.Parts();
    out.PutByte(c);
    out.Parts();
    assert out.Text() == [c];
    out.NoteFilled();
    out.Parts();
    before := out.Text();
    ghost var used, toks, y;
    BudgetIs(src, 0, 0);
    ghost var o := Stand(src);
    StandIs(src);
    mode, used, toks, y := FastToken(src, out, len, dist, z, x);
    SinceIs(src, o, used);
    DecodedPair(z, x, old(src.Ahead()), old(src.Avail()), src.Ahead(), src.Avail(), mode, toks);
    out.Parts();
  }

  lemma DecodedPair(z: Codes, x: Coded, h: nat, avail: nat, h': nat, avail': nat, mode: Mode, toks: seq<Token>)
    requires Decoded(z, x, h, avail, h', avail', mode, toks) && x.Pair?
    ensures mode == LEN
  {
  }

  /* ---- giving back bytes that were not needed ---- */

  /** Behind the bits held, whole bytes can be skipped. */
  lemma {:induction false} SkipBytes(hold: nat, bits: nat, rest: seq<Byte>, m: nat)
    requires hold < Pow2(bits) && m <= |rest|
    ensures After(Upcoming(hold, bits, rest), bits + 8 * m) == Little(rest[m..])
    decreases m
  {
    hide *;
    var u := Upcoming(hold, bits, rest);
    if m == 0 {
      DropKeeps(hold, bits, rest, bits);
      DivUnique(hold, Pow2(bits), 0, hold);
      AfterIs(u, bits);
      UpcomingIs(0, 0, rest);
      OnePower();
      assert rest[0..] == rest;
    } else {
      SkipBytes(hold, bits, rest, m - 1);
      AfterTwice(u, bits + 8 * (m - 1), 8);
      LittleStep(rest[m - 1..]);
      assert rest[m - 1..][1..] == rest[m..];
      AfterIs(Little(rest[m - 1..]), 8);
      OnePower();
      DivUnique(Little(rest[m - 1..]), 0x100, Little(rest[m..]), rest[m - 1]);
    }
  }

  lemma OnePower()
    ensures Pow2(0) == 1 && Pow2(8) == 0x100
  {
  }

  ghost predicate OriginOk(o: Origin) {
    && o.hold < Pow2(o.bits) && o.bits < 8 && o.next <= |o.piece|
    && o.h == Upcoming(o.hold, o.bits, o.piece[o.next..] + Join(o.later))
  }

  lemma OriginMade(src: BitSource)
    requires src.Valid() && src.bits < 8
    ensures OriginOk(Stand(src))
  {
    src.Parts();
  }

  /** The bits to come, seen from a place k bytes back. */
  lemma BackUp(o: Origin, n: nat, hold: nat, bits: nat, next: nat, a: nat, k: nat)
    requires OriginOk(o) && o.next <= next <= |o.piece| && bits == o.bits + 8 * (next - o.next) - n && k == bits / 8
    requires a == After(o.h, n) && a == Upcoming(hold, bits, o.piece[next..] + Join(o.later)) && hold < Pow2(bits)
    ensures k <= next && bits - 8 * k >= 0 && Pow2(bits - 8 * k) > 0
    ensures a == Upcoming(hold % Pow2(bits - 8 * k), bits - 8 * k, o.piece[next - k..] + Join(o.later))
  {
    var c := bits - 8 * k;
    var m := next - k - o.next;
    var rest := o.piece[o.next..] + Join(o.later);
    assert rest[m..] == o.piece[next - k..] + Join(o.later);
    hide *;
    OriginIs(o);
    SkipBytes(o.hold, o.bits, rest, m);
    AfterTwice(o.h, n, c);
    AfterIs(a, c);
    DropKeeps(hold, bits, o.piece[next..] + Join(o.later), c);
    DivMod(a, Pow2(c));
    UpcomingIs(hold % Pow2(c), c, o.piece[next - k..] + Join(o.later));
    Flip2(Little(rest[m..]), Pow2(c));
  }

  lemma Flip2(a: nat, b: nat)
    ensures a * b == b * a
  {
  }

  lemma OriginIs(o: Origin)
    requires OriginOk(o)
    ensures o.hold < Pow2(o.bits) && o.bits < 8 && o.next <= |o.piece|
    ensures o.h == Upcoming(o.hold, o.bits, o.piece[o.next..] + Join(o.later))
  {
  }

  /** Gives whole bytes still held back to the input. */
  method GiveBack(src: BitSource, ghost o: Origin, ghost n: nat)
    requires Since(src, o, n) && OriginOk(o)
    modifies src
    ensures src.Valid() && src.bits < 8 && src.Ahead() == old(src.Ahead()) && src.Avail() == old(src.Avail())
  {
    hide *;
    SinceIs(src, o, n);
    OriginIs(o);
    src.Parts();
    ghost var hold, bits, next, a, rest := src.hold, src.bits, src.next, src.Ahead(), src.Rest();
    var len: nat := src.bits / 8;
    BackUp(o, n, hold, bits, next, a, len);
    src.next := src.next - len;
    src.bits := src.bits - len * 8;
    Remainder(src.hold, Pow2(src.bits));
    src.hold := src.hold % Pow2(src.bits);
    src.ValidIs();
    src.Parts();
  }

  /** One round: decodes a token where there is input and room enough. */
  method FastRound(src: BitSource, out: Window, len: Table, dist: Table, ghost z: Codes, ghost xs: seq<Coded>,
                   ghost q: Place, ghost o: Origin, ghost n: nat)
    returns (mode: Mode, ghost m: nat, ghost got: seq<Coded>)
    requires out.Valid() && TableOk(len, z.lens, LENS) && TableOk(dist, z.dists, DISTS) && Since(src, o, n)
    requires src.Valid() && src.next + 6 <= |src.piece| && out.left >= 258
    modifies src, out, out.window
    ensures Since(src, o, m) && src.Valid() && out.Valid() && old(out.Text()) <= out.Text() && mode != BufError
    ensures src.Avail() < old(src.Avail()) && out.whave == old(out.whave) && (mode == LEN ==> out.left < old(out.left))
    ensures OnTheWay(LEN, z, xs, old(Place(src.Ahead(), src.Avail(), out.Text())), q, out.window.Length) ==>
              OnTheWay(mode, z, Others(xs), Place(src.Ahead(), src.Avail(), out.Text()), q, out.window.Length)
    ensures mode == LEN || mode == TYPE ==>
              && Told(mode, z, got, old(Place(src.Ahead(), src.Avail(), out.Text())),
                      Place(src.Ahead(), src.Avail(), out.Text()), out.window.Length)
              && (old(out.put) + out.whave == old(out.Reach()) ==>
                    AllReach(got, old(out.Text()), out.window.Length))
  {
    hide *;
    ghost var wsize, p := out.window.Length, Place(src.Ahead(), src.Avail(), out.Text());
    ghost var on := OnTheWay(LEN, z, xs, p, q, wsize);
    BudgetIs(src, 0, 0);
    out.Parts();
    MinIs(|out.Text()|, wsize);
    ghost var reach, limit := out.Reach(), out.put + out.whave;
    if on {
      NextReadable(z, xs, p, q, wsize, reach);
      ReadableMore(z, Next(xs), p.h, p.avail, reach, limit);
    }
    StandReached(src, o, n);
    ghost var o1 := Stand(src);
    ghost var used, toks, y;
    mode, used, toks, y := FastToken(src, out, len, dist, z, Next(xs));
    SinceBoth(src, o, n, o1, used);
    m := n + used;
    SinceIs(src, o, m);
    ghost var p1 := Place(src.Ahead(), src.Avail(), out.Text());
    got := if y.End? then [] else [y];
    if mode == LEN || mode == TYPE { ToldNow(mode, z, y, p, p1, toks, wsize); }
    if on {
      SameDecoded(z, Next(xs), y, p.h, p.avail, p1.h, p1.avail, mode, toks, reach);
      NextDone(z, xs, p, q, wsize, p1, mode, toks);
    }
  }

  /** Decodes tokens while six bytes of the piece of input and room for a longest match are left. A window of at most
      258 bytes has room for one only when it is empty, and then no distance is accepted beyond reach. */
  method InflateFast(src: BitSource, out: Window, len: Table, dist: Table, ghost z: Codes, ghost xs: seq<Coded>,
                     ghost q: Place)
    returns (mode: Mode, ghost rem: seq<Coded>, ghost got: seq<Coded>)
    requires src.Valid() && out.Valid() && TableOk(len, z.lens, LENS) && TableOk(dist, z.dists, DISTS)
    requires src.bits < 8 && src.next + 6 <= |src.piece| && out.left >= 258
    requires out.whave == if out.whave < out.window.Length then out.put else out.window.Length
    modifies src, out, out.window
    ensures src.Valid() && out.Valid() && old(out.Text()) <= out.Text() && mode != BufError
    ensures src.bits < 8 && src.Avail() < old(src.Avail())
    ensures OnTheWay(LEN, z, xs, old(Place(src.Ahead(), src.Avail(), out.Text())), q, out.window.Length) ==>
              OnTheWay(mode, z, rem, Place(src.Ahead(), src.Avail(), out.Text()), q, out.window.Length)
    ensures mode == LEN || mode == TYPE ==>
              && Told(mode, z, got, old(Place(src.Ahead(), src.Avail(), out.Text())),
                      Place(src.Ahead(), src.Avail(), out.Text()), out.window.Length)
              && (out.window.Length <= 258 ==> AllReach(got, old(out.Text()), out.window.Length))
  {
    hide *;
    got := [];
    ghost var o, n, text, wsize := Stand(src), 0, out.Text(), out.window.Length;
    OriginMade(src);
    StandIs(src);
    mode, rem := LEN, xs;
    ghost var p := Place(src.Ahead(), src.Avail(), out.Text());
    ghost var on := OnTheWay(LEN, z, xs, p, q, wsize);
    ghost var p0 := p;
    ToldNone(z, p0, wsize);
    out.Parts();
    while true
      invariant Told(LEN, z, got, p0, p, wsize) && (wsize <= 258 ==> AllReach(got, p0.text, wsize) && out.put == 0)
      invariant out.whave == old(out.whave)
      invariant mode == LEN && Since(src, o, n) && src.Valid() && out.Valid() && text <= out.Text()
      invariant src.next + 6 <= |src.piece| && out.left >= 258
      invariant TableOk(len, z.lens, LENS) && TableOk(dist, z.dists, DISTS)
      invariant p == Place(src.Ahead(), src.Avail(), out.Text()) && (on ==> OnTheWay(LEN, z, rem, p, q, wsize))
      decreases src.Avail()
    {
      out.Parts();
      ghost var more;
      mode, n, more := FastRound(src, out, len, dist, z, rem, q, o, n);
      ghost var p1 := Place(src.Ahead(), src.Avail(), out.Text());
      if mode == LEN || mode == TYPE {
        ToldThen(mode, z, got, more, p0, p, p1, wsize);
        got := got + more;
      }
      rem, p := Others(rem), p1;
      out.Parts();
      if mode != LEN || !(src.next + 5 < |src.piece| && out.left > 257) {
        break;
      }
    }
    GiveBack(src, o, n);
  }

  /** A token that may be read and has been decoded is within reach, and so is the one found. */
  lemma SameDecoded(z: Codes, x: Coded, y: Coded, h: nat, avail: nat, h': nat, avail': nat, mode: Mode,
                    toks: seq<Token>, reach: nat)
    requires Decoded(z, x, h, avail, h', avail', mode, toks) && Readable(z, x, h, avail, reach)
    requires mode == LEN || mode == TYPE ==> (y.End? <==> mode == TYPE)
    requires mode == LEN ==> (y.Byte0? || PairOk(y)) && toks == [TokenOf(y)]
    ensures InReach(y, reach) && (mode == LEN || mode == TYPE)
  {
    hide Begins, Beyond, Size;
    ReadableIs(z, x, h, avail, reach);
  }

  /** The token found, and the text with it. */
  lemma ToldNow(mode: Mode, z: Codes, y: Coded, p: Place, q: Place, toks: seq<Token>, wsize: nat)
    requires (mode == LEN || mode == TYPE) && (y.End? <==> mode == TYPE)
    requires Spells(z, y, p.h, p.avail, q.h, q.avail)
    requires mode == LEN ==> (y.Byte0? || PairOk(y)) && toks == [TokenOf(y)]
    requires mode == TYPE ==> toks == []
    requires InReach(y, Min(|p.text|, wsize)) ==> q.text == Expand(p.text, toks)
    ensures Told(mode, z, if y.End? then [] else [y], p, q, wsize)
    ensures InReach(y, Min(|p.text|, wsize)) ==> AllReach(if y.End? then [] else [y], p.text, wsize)
  {
    hide *;
    if y.End? {
      AppendedEnd(p.text);
      ExpandNone(p.text);
    } else {
      AppendedExpands(p.text, y, toks);
    }
    ToldOne(mode, z, y, p, q, wsize);
  }

  lemma MinIs(a: nat, b: nat)
    ensures Min(a, b) == if a < b then a else b
  {
  }
}
