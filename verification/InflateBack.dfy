/** Decoding compressed blocks by inflateBack, a symbol at a time, into a circular window. */
module InflateBack {
  import opened MachineInts
  import BitStream
  import opened DeflateCodes
  import opened TableLayout
  import opened InflateTable
  import opened InflateBits
  import opened InflateSource
  import opened BackWindow
  import opened DeflateTokens
  import opened DeflateBlocks
  import opened InflateFast
  import opened Lz77

  class Inflater {
    const source: BitSource
    const output: Window

    ghost predicate Valid()
      reads source, output, output.window
    {
      source.Valid() && output.Valid()
    }

    lemma ValidIs()
      ensures Valid() <==> source.Valid() && output.Valid()
    {
    }

    constructor (pieces: seq<seq<Byte>>, window: array<Byte>)
      requires NoneEmpty(pieces) && window.Length > 0
      ensures Valid() && fresh(source) && fresh(output) && output.window == window
      ensures source.Ahead() == Little(BitStream.Join(pieces)) && output.Text() == []
      ensures source.Avail() == 8 * |BitStream.Join(pieces)| && source.bits == 0
    {
      source := new BitSource(pieces);
      output := new Window(window);
    }

    /** Extra bits; none are asked for when there are none. */
    method ExtraBits(n: nat) returns (ok: bool, v: nat)
      requires source.Valid()
      modifies source
      ensures source.Valid() && (ok <==> n <= old(source.Avail()))
      ensures ok ==> ExtraIs(old(source.Ahead()), n, v) && source.Ahead() == After(old(source.Ahead()), n)
      ensures ok ==> source.Avail() == old(source.Avail()) - n
      ensures source.Avail() <= old(source.Avail())
      ensures ok && old(source.bits) < 8 ==> source.bits < 8
    {
      hide *;
      AfterIs(source.Ahead(), n);
      ExtraValue(source.Ahead(), n);
      ok, v := true, 0;
      if n != 0 {
        ok, v := source.TakeBits(n);
      }
    }

    /** Reads a distance code and its extra bits. */
    method ReadDistance(dist: Table, ghost z: Codes, ghost dsym: nat, ghost dextra: nat)
      returns (mode: Mode, offset: nat, ghost ds: nat, ghost dx: nat)
      requires Valid() && TableOk(dist, z.dists, DISTS)
      modifies source
      ensures Valid() && (mode == LEN || mode == BAD || mode == BufError)
      ensures mode == LEN ==> 1 <= offset <= output.Reach()
      ensures source.Avail() <= old(source.Avail())
      ensures mode == LEN && old(source.bits) < 8 ==> source.bits < 8
      ensures DistanceReadable(z, dsym, dextra, old(source.Ahead()), old(source.Avail()), output.Reach()) ==>
                && mode == LEN && offset == DBASE[dsym] + dextra
                && source.Ahead() == After(After(old(source.Ahead()), z.dists[dsym]), DistExtra(dsym))
                && source.Avail() == old(source.Avail()) - z.dists[dsym] - DistExtra(dsym)
      ensures mode == LEN ==>
                && DistanceSpelled(z, ds, dx, old(source.Ahead())) && ds < |z.dists| && ds < 30
                && offset == DBASE[ds] + dx
                && source.Ahead() == After(After(old(source.Ahead()), z.dists[ds]), DistExtra(ds))
                && source.Avail() + z.dists[ds] + DistExtra(ds) == old(source.Avail())
    {
      hide *;
      ValidIs();
      TableIs(dist, z.dists, DISTS);
      ghost var h, avail, reach := source.Ahead(), source.Avail(), output.Reach();
      ghost var t := dist.code[dist.at..];
      DistanceIs(z, dsym, dextra, h, avail, reach);
      offset, ds, dx := 0, 0, 0;
      var ok, here, v;
      ghost var e, n;
      ok, here, e, n := source.Lookup(dist.code, dist.at, dist.bits, z.dists, DISTS);
      ds := DistanceSymbol(t, dist.bits, z, h, e, n);
      DistFound(t, dist.bits, z, dsym, dextra, h, avail, reach, e, n);
      AfterIs(h, n);
      ValidIs();
      if !ok {
        return BufError, offset, ds, dx;
      }
      if here.op / 64 % 2 == 1 {
        return BAD, offset, ds, dx;
      }
      offset := here.val;
      ok, v := ExtraBits(here.op % 16);
      ValidIs();
      if !ok {
        return BufError, offset, ds, dx;
      }
      offset, dx := offset + v, v;
      DistanceIsSpelled(z, ds, dx, h);
      ExtraSame(After(h, n), here.op % 16, v, dextra);
      output.Parts();
      if offset > output.window.Length - (if output.whave < output.window.Length then output.left else 0) {
        return BAD, offset, ds, dx;
      }
      mode := LEN;
    }

    lemma DistanceIsSpelled(z: Codes, ds: nat, dx: nat, h: nat)
      requires ds < 30 && ds < |z.dists| && Leads(z.dists, ds, h) && ExtraIs(After(h, z.dists[ds]), DistExtra(ds), dx)
      ensures DistanceSpelled(z, ds, dx, h)
    {
    }

    /** Reads the rest of a pair whose length code has been read, and copies the match. */
    method FinishPair(here: Code, dist: Table, ghost z: Codes, ghost x: Coded, ghost h: nat, ghost s: nat)
      returns (mode: Mode, ghost out: seq<Token>, ghost y: Coded)
      requires Valid() && TableOk(dist, z.dists, DISTS) && 16 <= here.op <= 21 && here.val >= 3
      requires 257 <= s <= 285 && s < |z.lens| && Leads(z.lens, s, h) && here.op % 16 == LengthExtra(s)
      requires source.Ahead() == After(h, z.lens[s]) && here.val == LBASE[s - 257]
      modifies source, output, output.window
      ensures Valid() && |out| <= 1 && output.Text() == Expand(old(output.Text()), out)
      ensures output.Reach() >= old(output.Reach()) && source.Avail() <= old(source.Avail())
      ensures mode != TYPE && (mode != LEN ==> out == [])
      ensures mode == LEN && old(source.bits) < 8 ==> source.bits < 8
      ensures PairReadable(here, z, x, h, old(source.Ahead()), old(source.Avail()), old(output.Reach())) ==>
                && Begins(z.lens, z.dists, x, h) && PairOk(x) && mode == LEN && out == [TokenOf(x)]
                && source.Ahead() == Beyond(z.lens, z.dists, x, h)
                && source.Avail() == old(source.Avail()) - (Size(z.lens, z.dists, x, h) - z.lens[x.lsym])
      ensures mode == LEN ==>
                !y.End? && Spells(z, y, h, old(source.Avail()) + z.lens[s], source.Ahead(), source.Avail())
      ensures mode == LEN ==> PairOk(y) && out == [TokenOf(y)] && InReach(y, old(output.Reach()))
    {
      hide *;
      ValidIs();
      ghost var g, avail, reach := source.Ahead(), source.Avail(), output.Reach();
      PairIs(here, z, x, h, g, avail, reach);
      ExpandNone(output.Text());
      out, y := [], End;
      var length: nat := here.val;
      var ok, v := ExtraBits(here.op % 16);
      ValidIs();
      if !ok {
        return BufError, out, y;
      }
      length := length + v;
      var offset;
      ghost var ds, dx := if x.Pair? then x.dsym else 0, if x.Pair? then x.dextra else 0;
      ExtraSame(g, here.op % 16, v, if x.Pair? then x.lextra else 0);
      ghost var d, e;
      mode, offset, d, e := ReadDistance(dist, z, ds, dx);
      ValidIs();
      if mode != LEN {
        return;
      }
      ghost var text := output.Text();
      output.CopyMatch(offset, length);
      out := [Match(offset, length)];
      ExpandOne(text, Match(offset, length));
      ValidIs();
      y := Pair(s, v, d, e);
      PairIsSpelled(z, y, h);
      PairToldBy(y, offset, length);
      InReachIs(y, reach);
      SpellsPair(z, y, h, avail + z.lens[s], source.Ahead(), source.Avail());
    }

    lemma PairIsSpelled(z: Codes, y: Coded, h: nat)
      requires y.Pair? && 257 <= y.lsym <= 285 && y.dsym < 30 && y.lsym < |z.lens| && Leads(z.lens, y.lsym, h)
      requires ExtraIs(After(h, z.lens[y.lsym]), LengthExtra(y.lsym), y.lextra)
      ensures PairOk(y) && PairSpelled(z, y, h)
    {
    }

    /** Decodes one literal, pair or end of block. Whatever the bits, what is put out extends the output by at most one
        token that reaches back no further than there is output. */
    method DecodeToken(len: Table, dist: Table, ghost z: Codes, ghost x: Coded)
      returns (mode: Mode, ghost out: seq<Token>, ghost y: Coded)
      requires Valid() && TableOk(len, z.lens, LENS) && TableOk(dist, z.dists, DISTS)
      modifies source, output, output.window
      ensures Valid() && |out| <= 1 && output.Text() == Expand(old(output.Text()), out)
      ensures output.Reach() >= old(output.Reach()) && source.Avail() <= old(source.Avail())
      ensures mode == LEN ==> source.Avail() < old(source.Avail())
      ensures mode != LEN ==> out == []
      ensures (mode == LEN || mode == TYPE) && old(source.bits) < 8 ==> source.bits < 8
      ensures Readable(z, x, old(source.Ahead()), old(source.Avail()), old(output.Reach())) ==>
                && Decoded(z, x, old(source.Ahead()), old(source.Avail()), source.Ahead(), source.Avail(), mode, out)
      ensures mode == LEN || mode == TYPE ==>
                && (y.End? <==> mode == TYPE)
                && Spells(z, y, old(source.Ahead()), old(source.Avail()), source.Ahead(), source.Avail())
      ensures mode == LEN ==> (y.Byte0? || PairOk(y)) && out == [TokenOf(y)] && InReach(y, old(output.Reach()))
    {
      hide *;
      ValidIs();
      TableIs(len, z.lens, LENS);
      ExpandNone(output.Text());
      ghost var h, avail, reach := source.Ahead(), source.Avail(), output.Reach();
      ghost var t := len.code[len.at..];
      out, y := [], End;
      var ok, here;
      ghost var e, n;
      ok, here, e, n := source.Lookup(len.code, len.at, len.bits, z.lens, LENS);
      LenFound(t, len.bits, z, x, h, avail, reach, e, n);
      AfterIs(h, n);
      ghost var s := LenSymbol(t, len.bits, z, h, e, n);
      LensEntry(t, len.bits, z.lens, h, e, n);
      OpBits(e.op);
      if LenTells(z, x, h, avail, reach, e, n) { TellsAll(z, x, h, avail, reach, e, n); }
      ValidIs();
      if !ok {
        return BufError, out, y;
      }
      if here.op == 0 {
        TellsLiteral(z, x, h, avail, reach, here, n);
        out := PutLiteral(here.val);
        mode, y := LEN, Byte0(here.val);
        LiteralTold(here.val, reach);
        SpellsLen(z, y, s, h, avail);
      } else if here.op / 32 % 2 == 1 {
        TellsEnd(z, x, h, avail, reach, here, n);
        mode := TYPE;
        SpellsLen(z, End, s, h, avail);
      } else if here.op / 64 % 2 == 1 {
        mode := BAD;
      } else {
        mode, out, y := FinishPair(here, dist, z, x, h, s);
        ValidIs();
        TellsPair(z, x, h, avail, reach, here, n, source.Ahead(), source.Avail(), mode, out);
      }
    }

    lemma LiteralTold(c: Byte, reach: nat)
      ensures TokenOf(Byte0(c)) == Literal(c) && InReach(Byte0(c), reach)
    {
    }

    ghost function Here(): Place
      requires Valid()
      reads source, output, output.window
    {
      Place(source.Ahead(), source.Avail(), output.Text())
    }

    lemma HereIs()
      requires Valid()
      ensures Here() == Place(source.Ahead(), source.Avail(), output.Text())
      ensures output.Reach() == Min(|output.Text()|, output.window.Length)
    {
      output.Parts();
    }

    /** Decodes the next token of a block. */
    method NextToken(len: Table, dist: Table, ghost z: Codes, ghost xs: seq<Coded>, ghost q: Place)
      returns (mode: Mode, ghost got: seq<Coded>)
      requires Valid() && TableOk(len, z.lens, LENS) && TableOk(dist, z.dists, DISTS)
      modifies source, output, output.window
      ensures Valid() && source.Avail() <= old(source.Avail()) && (mode == LEN ==> source.Avail() < old(source.Avail()))
      ensures exists out :: |out| <= 1 && output.Text() == Expand(old(output.Text()), out)
      ensures (mode == LEN || mode == TYPE) && old(source.bits) < 8 ==> source.bits < 8
      ensures OnTheWay(LEN, z, xs, old(Here()), q, output.window.Length) ==>
                OnTheWay(mode, z, Others(xs), Here(), q, output.window.Length)
      ensures mode == LEN || mode == TYPE ==>
                && Told(mode, z, got, old(Here()), Here(), output.window.Length)
                && AllReach(got, old(Here()).text, output.window.Length)
    {
      hide *;
      ValidIs();
      HereIs();
      ghost var p := Here();
      if OnTheWay(LEN, z, xs, p, q, output.window.Length) {
        NextReadable(z, xs, p, q, output.window.Length, output.Reach());
      }
      ghost var out;
      ghost var y;
      mode, out, y := DecodeToken(len, dist, z, Next(xs));
      got := if y.End? then [] else [y];
      ValidIs();
      HereIs();
      if mode == LEN || mode == TYPE {
        InReachIs(y, Min(|p.text|, output.window.Length));
        if y.End? {
          AppendedEnd(p.text);
          ExpandNone(p.text);
        } else {
          AppendedExpands(p.text, y, out);
        }
        ToldOne(mode, z, y, p, Here(), output.window.Length);
      }
      if OnTheWay(LEN, z, xs, p, q, output.window.Length) {
        NextDone(z, xs, p, q, output.window.Length, Here(), mode, out);
      }
    }

    /** Decodes codes up to the end of the block, an error, or the end of the input; without tests wherever the piece of
        input at hand and the room in the window allow. */
    method DecodeBlock(len: Table, dist: Table, ghost z: Codes, ghost xs: seq<Coded>, ghost q: Place)
      returns (mode: Mode, ghost got: seq<Coded>)
      requires Valid() && TableOk(len, z.lens, LENS) && TableOk(dist, z.dists, DISTS) && source.bits < 8
      modifies source, output, output.window
      ensures Valid() && mode != LEN && (mode == TYPE ==> source.bits < 8) && source.Avail() <= old(source.Avail())
      ensures BlockReadable(z, xs, old(Here()), q, output.window.Length) ==> mode == TYPE && Here() == q
      ensures mode == TYPE ==>
                && Told(TYPE, z, got, old(Here()), Here(), output.window.Length)
                && (output.window.Length <= 258 ==> AllReach(got, old(Here()).text, output.window.Length))
    {
      hide *;
      mode := LEN;
      ValidIs();
      ghost var wsize := output.window.Length;
      ghost var on := BlockReadable(z, xs, Here(), q, wsize);
      WayStarts(z, xs, Here(), q, wsize);
      ghost var rem, m, p0 := xs, source.Avail(), Here();
      got := [];
      ToldNone(z, p0, wsize);
      while mode == LEN
        invariant Valid() && TableOk(len, z.lens, LENS) && TableOk(dist, z.dists, DISTS)
        invariant mode == LEN || mode == TYPE ==> source.bits < 8
        invariant on ==> OnTheWay(mode, z, rem, Here(), q, wsize)
        invariant source.Valid() && m == source.Avail() <= old(source.Avail())
        invariant mode == LEN || mode == TYPE ==>
          Told(mode, z, got, p0, Here(), wsize) && (wsize <= 258 ==> AllReach(got, p0.text, wsize))
        decreases if mode == LEN then m + 1 else 0
      {
        ghost var p1, more := Here(), [];
        mode, rem, more := DecodeSome(len, dist, z, rem, q);
        ValidIs();
        if mode == LEN || mode == TYPE {
          ToldThen(mode, z, got, more, p0, p1, Here(), wsize);
          got := got + more;
        }
        m := source.Avail();
      }
      if on { WayEnds(mode, z, rem, Here(), q, wsize); }
    }

    /** One round of decoding: many tokens without tests, or one with them. */
    method DecodeSome(len: Table, dist: Table, ghost z: Codes, ghost xs: seq<Coded>, ghost q: Place)
      returns (mode: Mode, ghost rem: seq<Coded>, ghost got: seq<Coded>)
      requires Valid() && TableOk(len, z.lens, LENS) && TableOk(dist, z.dists, DISTS) && source.bits < 8
      modifies source, output, output.window
      ensures Valid() && source.Avail() <= old(source.Avail()) && (mode == LEN ==> source.Avail() < old(source.Avail()))
      ensures mode == LEN || mode == TYPE ==> source.bits < 8
      ensures OnTheWay(LEN, z, xs, old(Here()), q, output.window.Length) ==>
                OnTheWay(mode, z, rem, Here(), q, output.window.Length)
      ensures mode == LEN || mode == TYPE ==>
                && Told(mode, z, got, old(Here()), Here(), output.window.Length)
                && (output.window.Length <= 258 ==> AllReach(got, old(Here()).text, output.window.Length))
    {
      hide *;
      ValidIs();
      HereIs();
      if |source.piece| - source.next >= 6 && output.left >= 258 {
        output.NoteFilled();
        mode, rem, got := InflateFast.InflateFast(source, output, len, dist, z, xs, q);
        ValidIs();
        HereIs();
      } else {
        rem := Others(xs);
        mode, got := NextToken(len, dist, z, xs, q);
      }
    }

    method PutLiteral(c: Byte) returns (ghost out: seq<Token>)
      requires Valid()
      modifies output, output.window
      ensures Valid() && out == [Literal(c)] && output.Text() == Expand(old(output.Text()), out)
      ensures output.Reach() >= old(output.Reach())
    {
      hide *;
      ValidIs();
      ghost var text := output.Text();
      output.Room();
      output.PutByte(c);
      out := [Literal(c)];
      ExpandOne(text, Literal(c));
      ValidIs();
    }
  }
}
