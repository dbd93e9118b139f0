/** What decoding a block of deflate comes to: the place it has reached, and what each entry found tells of the rest. */
module DeflateBlocks {
  import opened MachineInts
  import opened SetSums
  import opened DeflateCodes
  import opened TableLayout
  import opened InflateTable
  import opened InflateBits
  import opened DeflateTokens
  import opened Lz77

  /** What comes next: another code, another block, an error, or no more input. */
  datatype Mode = LEN | TYPE | BAD | BufError

  /** The two codes of a block, by the lengths of their codes. */
  datatype Codes = Codes(lens: seq<nat>, dists: seq<nat>)

  /** The bits to come begin with x, all of it is there, and its distance does not reach too far. */
  ghost predicate Readable(z: Codes, x: Coded, h: nat, avail: nat, reach: nat) {
    && Begins(z.lens, z.dists, x, h) && Size(z.lens, z.dists, x, h) <= avail
    && (x.Pair? ==> 1 <= DistanceOf(x) <= reach)
  }

  /** The distance part of a pair: what Readable says of it. */
  ghost predicate DistanceReadable(z: Codes, dsym: nat, dextra: nat, h: nat, avail: nat, reach: nat) {
    && dsym < 30 && Leads(z.dists, dsym, h) && ExtraIs(After(h, z.dists[dsym]), DistExtra(dsym), dextra)
    && z.dists[dsym] + DistExtra(dsym) <= avail && 1 <= DBASE[dsym] + dextra <= reach
  }

  /** Tables of one of a block's codes. */
  datatype Table = Table(code: array<Code>, at: nat, bits: nat)

  ghost predicate TableOk(t: Table, lens: seq<nat>, ct: CodeType)
    reads t.code
  {
    t.at <= t.code.Length && TablesFor(t.code[t.at..], t.bits, lens, ct)
  }

  /* ---- a whole block ---- */

  function Min(a: nat, b: nat): nat {
    if a < b then a else b
  }

  ghost function Appended(text: seq<Byte>, x: Coded): seq<Byte> {
    if x.Byte0? || PairOk(x) then Append(text, TokenOf(x)) else text
  }

  /** The text that the tokens of a block stand for, after what came before it. */
  ghost function Expanded(text: seq<Byte>, xs: seq<Coded>): seq<Byte>
    decreases |xs|
  {
    if xs == [] then text else Expanded(Appended(text, xs[0]), xs[1..])
  }

  /** A place in a stream: the bits to come, how many there are, and the text so far. */
  datatype Place = Place(h: nat, avail: nat, text: seq<Byte>)

  /** From p on the bits code xs and the end of the block, all of them there and no distance reaching too far; the block
      ends at q. */
  ghost predicate BlockReadable(z: Codes, xs: seq<Coded>, p: Place, q: Place, wsize: nat) {
    if xs == [] then
      Readable(z, End, p.h, p.avail, 0)
      && q == Place(Beyond(z.lens, z.dists, End, p.h), p.avail - Size(z.lens, z.dists, End, p.h), p.text)
    else
      !xs[0].End? && Readable(z, xs[0], p.h, p.avail, Min(|p.text|, wsize))
      && BlockReadable(z, xs[1..], Moved(z, xs[0], p), q, wsize)
  }

  /** The place behind x. */
  ghost function Moved(z: Codes, x: Coded, p: Place): Place
    requires Begins(z.lens, z.dists, x, p.h) && Size(z.lens, z.dists, x, p.h) <= p.avail
  {
    Place(Beyond(z.lens, z.dists, x, p.h), p.avail - Size(z.lens, z.dists, x, p.h), Appended(p.text, x))
  }

  /** Decoding is on its way through the block to q, with xs still to come. */
  ghost predicate OnTheWay(mode: Mode, z: Codes, xs: seq<Coded>, p: Place, q: Place, wsize: nat) {
    match mode
    case LEN => BlockReadable(z, xs, p, q, wsize)
    case TYPE => p == q
    case _ => false
  }

  /** The end of a block is reached with the text its tokens stand for. */
  lemma {:induction false} ReadableText(z: Codes, xs: seq<Coded>, p: Place, q: Place, wsize: nat)
    requires BlockReadable(z, xs, p, q, wsize)
    ensures q.text == Expanded(p.text, xs)
    decreases |xs|
  {
    if xs != [] { ReadableText(z, xs[1..], Moved(z, xs[0], p), q, wsize); }
  }

  /** xs are the coded forms of tokens. */
  ghost predicate Carries(xs: seq<Coded>, tokens: seq<Token>) {
    && |xs| == |tokens|
    && forall k :: 0 <= k < |xs| ==> (xs[k].Byte0? || PairOk(xs[k])) && TokenOf(xs[k]) == tokens[k]
  }

  lemma {:induction false} CarriedText(text: seq<Byte>, xs: seq<Coded>, tokens: seq<Token>)
    requires Carries(xs, tokens)
    ensures Expanded(text, xs) == Expand(text, tokens)
    decreases |xs|
  {
    if xs == [] {
      ExpandNone(text);
    } else {
      CarriedText(Appended(text, xs[0]), xs[1..], tokens[1..]);
      ExpandAdd(text, [tokens[0]], tokens[1..]);
      assert [tokens[0]] + tokens[1..] == tokens;
      ExpandOne(text, tokens[0]);
    }
  }

  /** Tokens that stand for a text, coded and decoded, give that text. */
  lemma BlockGivesText(z: Codes, xs: seq<Coded>, p: Place, q: Place, wsize: nat, tokens: seq<Token>, text: seq<Byte>,
                       e: int)
    requires BlockReadable(z, xs, p, q, wsize) && Carries(xs, tokens)
    requires 0 <= e <= |text| && Expand(p.text, tokens) == text[..e]
    ensures q.text == text[..e]
  {
    ReadableText(z, xs, p, q, wsize);
    CarriedText(p.text, xs, tokens);
  }

  lemma WayStarts(z: Codes, xs: seq<Coded>, p: Place, q: Place, wsize: nat)
    ensures OnTheWay(LEN, z, xs, p, q, wsize) <==> BlockReadable(z, xs, p, q, wsize)
  {
  }

  lemma WayEnds(mode: Mode, z: Codes, xs: seq<Coded>, p: Place, q: Place, wsize: nat)
    requires OnTheWay(mode, z, xs, p, q, wsize) && mode != LEN
    ensures mode == TYPE && p == q
  {
  }

  /** The token decoded next, and what is then still to come. */
  ghost function Next(xs: seq<Coded>): Coded {
    if xs == [] then End else xs[0]
  }

  ghost function Others(xs: seq<Coded>): seq<Coded> {
    if xs == [] then [] else xs[1..]
  }

  lemma NextReadable(z: Codes, xs: seq<Coded>, p: Place, q: Place, wsize: nat, reach: nat)
    requires OnTheWay(LEN, z, xs, p, q, wsize) && reach == Min(|p.text|, wsize)
    ensures Readable(z, Next(xs), p.h, p.avail, reach)
  {
  }

  lemma WayOn(z: Codes, xs: seq<Coded>, p: Place, q: Place, wsize: nat)
    requires OnTheWay(LEN, z, xs, p, q, wsize) && xs != []
    ensures Begins(z.lens, z.dists, xs[0], p.h) && Size(z.lens, z.dists, xs[0], p.h) <= p.avail && !xs[0].End?
    ensures OnTheWay(LEN, z, xs[1..], Moved(z, xs[0], p), q, wsize)
  {
  }

  lemma WayOver(z: Codes, p: Place, q: Place, wsize: nat)
    requires OnTheWay(LEN, z, [], p, q, wsize)
    ensures Begins(z.lens, z.dists, End, p.h) && Size(z.lens, z.dists, End, p.h) <= p.avail
    ensures q == Place(Beyond(z.lens, z.dists, End, p.h), p.avail - Size(z.lens, z.dists, End, p.h), p.text)
    ensures OnTheWay(TYPE, z, [], q, q, wsize)
  {
  }

  lemma DecodedMoves(z: Codes, x: Coded, p: Place, p': Place, mode: Mode, out: seq<Token>)
    requires Decoded(z, x, p.h, p.avail, p'.h, p'.avail, mode, out) && p'.text == Expand(p.text, out)
    requires Size(z.lens, z.dists, x, p.h) <= p.avail
    ensures Begins(z.lens, z.dists, x, p.h) && p'.h == Beyond(z.lens, z.dists, x, p.h)
    ensures p'.avail == p.avail - Size(z.lens, z.dists, x, p.h)
    ensures x.End? ==> mode == TYPE && p'.text == p.text
    ensures !x.End? ==> mode == LEN && p' == Moved(z, x, p)
  {
    ExpandNone(p.text);
    if !x.End? { ExpandOne(p.text, TokenOf(x)); }
  }

  lemma NextDone(z: Codes, xs: seq<Coded>, p: Place, q: Place, wsize: nat, p': Place, mode: Mode, out: seq<Token>)
    requires OnTheWay(LEN, z, xs, p, q, wsize) && p'.text == Expand(p.text, out)
    requires Decoded(z, Next(xs), p.h, p.avail, p'.h, p'.avail, mode, out)
    ensures OnTheWay(mode, z, Others(xs), p', q, wsize)
  {
    hide *;
    NextIs(xs);
    if xs == [] {
      WayOver(z, p, q, wsize);
      DecodedMoves(z, End, p, p', mode, out);
    } else {
      WayOn(z, xs, p, q, wsize);
      DecodedMoves(z, xs[0], p, p', mode, out);
    }
  }

  lemma NextIs(xs: seq<Coded>)
    ensures xs == [] ==> Next(xs) == End && Others(xs) == []
    ensures xs != [] ==> Next(xs) == xs[0] && Others(xs) == xs[1..]
  {
  }

  /* ---- what has been read, whether or not it is sound ---- */

  /** The bits to come begin with x and all of it is there; behind it are h' and avail'. */
  ghost predicate Spells(z: Codes, x: Coded, h: nat, avail: nat, h': nat, avail': nat) {
    && Begins(z.lens, z.dists, x, h) && Size(z.lens, z.dists, x, h) <= avail
    && h' == Beyond(z.lens, z.dists, x, h) && avail' == avail - Size(z.lens, z.dists, x, h)
  }

  /** The symbols xs lie at h, and behind them h'; in mode TYPE the end of the block is between. */
  ghost predicate Spelled(mode: Mode, z: Codes, xs: seq<Coded>, h: nat, avail: nat, h': nat, avail': nat)
    decreases |xs|
  {
    if xs == [] then
      if mode == TYPE then Spells(z, End, h, avail, h', avail') else h' == h && avail' == avail
    else
      !xs[0].End? && exists g: nat, a: nat ::
        Spells(z, xs[0], h, avail, g, a) && Spelled(mode, z, xs[1..], g, a, h', avail')
  }

  /** One symbol more, or the end. */
  lemma SpelledOne(mode: Mode, z: Codes, x: Coded, h: nat, avail: nat, h': nat, avail': nat)
    requires Spells(z, x, h, avail, h', avail') && (x.End? <==> mode == TYPE)
    ensures Spelled(mode, z, if x.End? then [] else [x], h, avail, h', avail')
  {
    hide Spells;
    if !x.End? {
      var xs := [x];
      assert xs[1..] == [];
      assert Spelled(mode, z, xs[1..], h', avail', h', avail');
    }
  }

  lemma {:induction false} SpelledThen(mode: Mode, z: Codes, xs: seq<Coded>, ys: seq<Coded>, h: nat, avail: nat,
                                       g: nat, a: nat, h': nat, avail': nat)
    requires Spelled(LEN, z, xs, h, avail, g, a) && Spelled(mode, z, ys, g, a, h', avail')
    ensures Spelled(mode, z, xs + ys, h, avail, h', avail')
    decreases |xs|
  {
    hide Spells;
    if xs == [] {
      assert xs + ys == ys;
    } else {
      var f: nat, b: nat :| Spells(z, xs[0], h, avail, f, b) && Spelled(LEN, z, xs[1..], f, b, g, a);
      SpelledThen(mode, z, xs[1..], ys, f, b, g, a, h', avail');
      assert (xs + ys)[1..] == xs[1..] + ys;
    }
  }

  /* ---- what has been read, when its distances are sound ---- */

  ghost predicate InReach(x: Coded, reach: nat) {
    x.Pair? ==> PairOk(x) && 1 <= DistanceOf(x) <= reach
  }

  /** No distance reaches back further than there is text before it, or than the window is long. */
  ghost predicate AllReach(xs: seq<Coded>, text: seq<Byte>, wsize: nat)
    decreases |xs|
  {
    xs == [] || (InReach(xs[0], Min(|text|, wsize)) && AllReach(xs[1..], Appended(text, xs[0]), wsize))
  }

  lemma {:induction false} ReachAdd(xs: seq<Coded>, ys: seq<Coded>, text: seq<Byte>, wsize: nat)
    ensures AllReach(xs + ys, text, wsize) <==> AllReach(xs, text, wsize) && AllReach(ys, Expanded(text, xs), wsize)
    decreases |xs|
  {
    hide InReach, Appended;
    if xs == [] {
      assert xs + ys == ys;
    } else {
      assert (xs + ys)[1..] == xs[1..] + ys;
      ReachAdd(xs[1..], ys, Appended(text, xs[0]), wsize);
    }
  }

  /** The symbols xs lie at p and none of their distances reaches too far; in mode TYPE the end of the block is behind
      them. */
  ghost predicate Lies(mode: Mode, z: Codes, xs: seq<Coded>, p: Place, q: Place, wsize: nat)
    decreases |xs|
  {
    if xs == [] then
      if mode == TYPE then BlockReadable(z, [], p, q, wsize) else p == q
    else
      !xs[0].End? && Readable(z, xs[0], p.h, p.avail, Min(|p.text|, wsize))
      && Lies(mode, z, xs[1..], Moved(z, xs[0], p), q, wsize)
  }

  lemma InReachIs(x: Coded, reach: nat)
    ensures InReach(x, reach) <==> (x.Pair? ==> PairOk(x) && 1 <= DistanceOf(x) <= reach)
  {
  }

  lemma PairToldBy(y: Coded, offset: nat, length: nat)
    requires PairOk(y) && offset == DBASE[y.dsym] + y.dextra && length == LBASE[y.lsym - 257] + y.lextra
    ensures TokenOf(y) == Match(offset, length) && DistanceOf(y) == offset
  {
  }

  lemma AppendedExpands(text: seq<Byte>, x: Coded, out: seq<Token>)
    requires x.Byte0? || PairOk(x)
    ensures out == [TokenOf(x)] ==> Appended(text, x) == Expand(text, out)
  {
    ExpandOne(text, TokenOf(x));
  }

  lemma AppendedEnd(text: seq<Byte>)
    ensures Appended(text, End) == text
  {
  }

  /** What reaches no further than some limit reaches no further than a greater one. */
  lemma ReadableMore(z: Codes, x: Coded, h: nat, avail: nat, reach: nat, limit: nat)
    requires reach <= limit
    ensures Readable(z, x, h, avail, reach) ==> Readable(z, x, h, avail, limit)
    ensures InReach(x, reach) ==> InReach(x, limit)
  {
    hide Begins, Size;
  }

  lemma LiesNext(mode: Mode, z: Codes, xs: seq<Coded>, p: Place, q: Place, wsize: nat)
    requires Lies(mode, z, xs, p, q, wsize) && xs != []
    ensures !xs[0].End? && Readable(z, xs[0], p.h, p.avail, Min(|p.text|, wsize))
    ensures Lies(mode, z, xs[1..], Moved(z, xs[0], p), q, wsize) && Moved(z, xs[0], p).text == Appended(p.text, xs[0])
  {
    hide Readable, Begins, Size, Beyond, Appended;
  }

  lemma {:induction false} LiesBlock(z: Codes, xs: seq<Coded>, p: Place, q: Place, wsize: nat)
    requires Lies(TYPE, z, xs, p, q, wsize)
    ensures BlockReadable(z, xs, p, q, wsize)
    decreases |xs|
  {
    hide Readable, Begins, Size, Beyond, Appended;
    if xs != [] {
      ReadableIs(z, xs[0], p.h, p.avail, Min(|p.text|, wsize));
      LiesBlock(z, xs[1..], Moved(z, xs[0], p), q, wsize);
    }
  }

  lemma {:induction false} LiesText(z: Codes, xs: seq<Coded>, p: Place, q: Place, wsize: nat)
    requires Lies(LEN, z, xs, p, q, wsize)
    ensures q.text == Expanded(p.text, xs)
    decreases |xs|
  {
    if xs != [] {
      LiesNext(LEN, z, xs, p, q, wsize);
      hide Lies, Readable, Begins, Size, Beyond, Appended, Moved;
      LiesText(z, xs[1..], Moved(z, xs[0], p), q, wsize);
    }
  }

  lemma {:induction false} LiesThen(mode: Mode, z: Codes, xs: seq<Coded>, ys: seq<Coded>, p: Place, r: Place, q: Place,
                                    wsize: nat)
    requires Lies(LEN, z, xs, p, r, wsize) && Lies(mode, z, ys, r, q, wsize)
    ensures Lies(mode, z, xs + ys, p, q, wsize)
    decreases |xs|
  {
    hide Readable, Begins, Size, Beyond, Appended;
    if xs == [] {
      assert xs + ys == ys;
    } else {
      assert (xs + ys)[1..] == xs[1..] + ys;
      ReadableIs(z, xs[0], p.h, p.avail, Min(|p.text|, wsize));
      LiesThen(mode, z, xs[1..], ys, Moved(z, xs[0], p), r, q, wsize);
    }
  }

  /** From p on the bits are the symbols xs, up to q; and the text is theirs, if none of their distances reaches too
      far. */
  ghost predicate Told(mode: Mode, z: Codes, xs: seq<Coded>, p: Place, q: Place, wsize: nat) {
    && Spelled(mode, z, xs, p.h, p.avail, q.h, q.avail)
    && (AllReach(xs, p.text, wsize) ==> Lies(mode, z, xs, p, q, wsize))
  }

  lemma ToldIs(mode: Mode, z: Codes, xs: seq<Coded>, p: Place, q: Place, wsize: nat)
    ensures Told(mode, z, xs, p, q, wsize) <==>
              && Spelled(mode, z, xs, p.h, p.avail, q.h, q.avail)
              && (AllReach(xs, p.text, wsize) ==> Lies(mode, z, xs, p, q, wsize))
  {
  }

  lemma ToldNone(z: Codes, p: Place, wsize: nat)
    ensures Told(LEN, z, [], p, p, wsize) && AllReach([], p.text, wsize)
  {
  }

  /** One symbol more, or the end. */
  lemma ToldOne(mode: Mode, z: Codes, x: Coded, p: Place, q: Place, wsize: nat)
    requires Spells(z, x, p.h, p.avail, q.h, q.avail) && (x.End? <==> mode == TYPE)
    requires InReach(x, Min(|p.text|, wsize)) ==> q.text == Appended(p.text, x)
    ensures Told(mode, z, if x.End? then [] else [x], p, q, wsize)
    ensures InReach(x, Min(|p.text|, wsize)) ==> AllReach(if x.End? then [] else [x], p.text, wsize)
  {
    SpelledOne(mode, z, x, p.h, p.avail, q.h, q.avail);
    if !x.End? {
      var xs := [x];
      assert xs[1..] == [];
      hide Begins, Size, Beyond, Appended, Spelled;
      if InReach(x, Min(|p.text|, wsize)) {
        assert q == Moved(z, x, p);
        assert Lies(mode, z, xs[1..], q, q, wsize);
      }
    }
  }

  lemma ToldThen(mode: Mode, z: Codes, xs: seq<Coded>, ys: seq<Coded>, p: Place, r: Place, q: Place, wsize: nat)
    requires Told(LEN, z, xs, p, r, wsize) && Told(mode, z, ys, r, q, wsize)
    ensures Told(mode, z, xs + ys, p, q, wsize)
    ensures AllReach(xs, p.text, wsize) && AllReach(ys, r.text, wsize) ==> AllReach(xs + ys, p.text, wsize)
  {
    hide *;
    ToldIs(LEN, z, xs, p, r, wsize);
    ToldIs(mode, z, ys, r, q, wsize);
    ToldIs(mode, z, xs + ys, p, q, wsize);
    SpelledThen(mode, z, xs, ys, p.h, p.avail, r.h, r.avail, q.h, q.avail);
    ReachAdd(xs, ys, p.text, wsize);
    if AllReach(xs, p.text, wsize) {
      LiesText(z, xs, p, r, wsize);
      if AllReach(ys, r.text, wsize) { LiesThen(mode, z, xs, ys, p, r, q, wsize); }
    }
  }

  lemma SpellsLen(z: Codes, x: Coded, s: nat, h: nat, avail: nat)
    requires !x.Pair? && s == (if x.Byte0? then x.c else 256) && Leads(z.lens, s, h) && s < |z.lens|
    requires z.lens[s] <= avail
    ensures Spells(z, x, h, avail, After(h, z.lens[s]), avail - z.lens[s])
  {
    hide Leads, After;
  }

  /** A length symbol with its extra bits, and a distance symbol with its own. */
  ghost predicate PairSpelled(z: Codes, x: Coded, h: nat) {
    && PairOk(x) && x.lsym < |z.lens| && Leads(z.lens, x.lsym, h)
    && ExtraIs(After(h, z.lens[x.lsym]), LengthExtra(x.lsym), x.lextra)
  }

  ghost predicate DistanceSpelled(z: Codes, dsym: nat, dextra: nat, g: nat) {
    && dsym < 30 && dsym < |z.dists| && Leads(z.dists, dsym, g)
    && ExtraIs(After(g, z.dists[dsym]), DistExtra(dsym), dextra)
  }

  lemma SpellsPair(z: Codes, x: Coded, h: nat, avail: nat, h': nat, avail': nat)
    requires PairSpelled(z, x, h)
    requires DistanceSpelled(z, x.dsym, x.dextra, After(After(h, z.lens[x.lsym]), LengthExtra(x.lsym)))
    requires avail' + z.lens[x.lsym] + LengthExtra(x.lsym) + z.dists[x.dsym] + DistExtra(x.dsym) == avail
    requires h' == After(After(After(After(h, z.lens[x.lsym]), LengthExtra(x.lsym)), z.dists[x.dsym]),
                         DistExtra(x.dsym))
    ensures Spells(z, x, h, avail, h', avail')
  {
    hide Leads, After, ExtraIs;
  }

  /** The symbol that the entry found for a literal or length code stands for. */
  lemma LenSymbol(t: seq<Code>, root: nat, z: Codes, h: nat, e: Code, n: nat) returns (s: nat)
    requires TablesFor(t, root, z.lens, LENS) && Finds(t, root, h, e, n)
    ensures e.op == 0 || e.op == 96 || 16 <= e.op <= 21 ==> s < |z.lens| && Leads(z.lens, s, h) && n == z.lens[s]
    ensures e.op == 0 ==> s == e.val < 256
    ensures e.op == 96 ==> s == 256
    ensures 16 <= e.op <= 21 ==> 257 <= s <= 285 && e.op % 16 == LengthExtra(s) && e.val == LBASE[s - 257]
  {
    hide *;
    s := 0;
    if NoneLeads(z.lens, h) {
      NoneFound(t, root, z.lens, LENS, h, e, n);
    } else {
      s := SomeLeading(z.lens, h);
      EntryIs(t, root, z.lens, LENS, s, h, e, n);
      AlphabetIs();
      EntryKinds(s, e.bits);
      OpBits(e.op);
    }
  }

  lemma SomeLeading(lens: seq<nat>, h: nat) returns (s: nat)
    requires !NoneLeads(lens, h)
    ensures Leads(lens, s, h)
  {
    s :| Leads(lens, s, h);
  }

  lemma NoneFound(t: seq<Code>, root: nat, lens: seq<nat>, ct: CodeType, h: nat, e: Code, n: nat)
    requires TablesFor(t, root, lens, ct) && Finds(t, root, h, e, n) && NoneLeads(lens, h)
    ensures e.op == 64
  {
    NoneSame(t, root, lens, ct, h, h);
    FindsOnce(t, root, h, e, n, InvalidEntry(), 1);
  }

  /** The symbol that the entry found for a distance code stands for. */
  lemma DistanceSymbol(t: seq<Code>, root: nat, z: Codes, h: nat, e: Code, n: nat) returns (s: nat)
    requires TablesFor(t, root, z.dists, DISTS) && Finds(t, root, h, e, n)
    ensures e.op != 64 ==> s < 30 && s < |z.dists| && Leads(z.dists, s, h) && n == z.dists[s]
    ensures e.op != 64 ==> e.op % 16 == DistExtra(s) && e.val == DBASE[s]
  {
    hide *;
    s := 0;
    if NoneLeads(z.dists, h) {
      NoneFound(t, root, z.dists, DISTS, h, e, n);
    } else {
      s := SomeLeading(z.dists, h);
      EntryIs(t, root, z.dists, DISTS, s, h, e, n);
      AlphabetIs();
      DistKinds(s, e.bits);
      OpBits(e.op);
    }
  }

  /* ---- what the entries found tell ---- */

  lemma TableIs(t: Table, lens: seq<nat>, ct: CodeType)
    requires TableOk(t, lens, ct)
    ensures t.at <= t.code.Length && TablesFor(t.code[t.at..], t.bits, lens, ct)
  {
  }

  lemma DistanceIs(z: Codes, dsym: nat, dextra: nat, h: nat, avail: nat, reach: nat)
    ensures DistanceReadable(z, dsym, dextra, h, avail, reach) ==>
              && dsym < 30 && Leads(z.dists, dsym, h) && dsym < |z.dists|
              && ExtraIs(After(h, z.dists[dsym]), DistExtra(dsym), dextra)
              && z.dists[dsym] + DistExtra(dsym) <= avail && 1 <= DBASE[dsym] + dextra <= reach
  {
  }

  /** What the entry found for a distance code tells. */
  lemma DistFound(t: seq<Code>, root: nat, z: Codes, dsym: nat, dextra: nat, h: nat, avail: nat, reach: nat,
                  e: Code, n: nat)
    requires TablesFor(t, root, z.dists, DISTS) && Finds(t, root, h, e, n)
    ensures e.op == 64 || 16 <= e.op <= 29
    ensures e.op / 64 % 2 != 1 ==> 16 <= e.op <= 29 && e.val >= 1
    ensures DistanceReadable(z, dsym, dextra, h, avail, reach) ==>
              && dsym < |z.dists| && dsym < 30 && n == z.dists[dsym] && e.op / 64 % 2 != 1
              && e.op % 16 == DistExtra(dsym) && e.val == DBASE[dsym]
  {
    hide *;
    DistEntryFound(t, root, z.dists, h, e, n);
    OpBits(e.op);
    DistanceIs(z, dsym, dextra, h, avail, reach);
    if DistanceReadable(z, dsym, dextra, h, avail, reach) {
      EntryIs(t, root, z.dists, DISTS, dsym, h, e, n);
      AlphabetIs();
      DistKinds(dsym, e.bits);
    }
  }

  lemma AlphabetIs()
    ensures Alphabet(LENS) == 288 && Alphabet(DISTS) == 32
  {
  }

  lemma ExtraSame(h: nat, n: nat, v: nat, w: nat)
    requires ExtraIs(h, n, v)
    ensures ExtraIs(h, n, w) ==> v == w
  {
  }

  lemma ExpandNone(text: seq<Byte>)
    ensures Expand(text, []) == text
  {
  }

  lemma ExpandOne(text: seq<Byte>, t: Token)
    ensures Expand(text, [t]) == Append(text, t)
    ensures t.Match? ==> Append(text, t) == CopyBack(text, t.distance, t.length)
    ensures t.Literal? ==> Append(text, t) == text + [t.c]
  {
    assert [t][..0] == [];
    assert Expand(text, []) == text;
  }

  /** What remains of a readable pair once its length code has been read. */
  ghost predicate PairReadable(here: Code, z: Codes, x: Coded, h: nat, g: nat, avail: nat, reach: nat) {
    && PairOk(x) && Begins(z.lens, z.dists, x, h) && g == After(h, z.lens[x.lsym])
    && Size(z.lens, z.dists, x, h) - z.lens[x.lsym] <= avail && 1 <= DistanceOf(x) <= reach
    && here.op % 16 == LengthExtra(x.lsym) && here.val == LBASE[x.lsym - 257]
  }

  lemma PairIs(here: Code, z: Codes, x: Coded, h: nat, g: nat, avail: nat, reach: nat)
    ensures PairReadable(here, z, x, h, g, avail, reach) ==>
              && PairOk(x) && Begins(z.lens, z.dists, x, h) && x.lsym < |z.lens| && x.dsym < |z.dists|
              && ExtraIs(g, here.op % 16, x.lextra) && here.op % 16 <= avail
              && DistanceReadable(z, x.dsym, x.dextra, After(g, here.op % 16), avail - here.op % 16, reach)
              && Beyond(z.lens, z.dists, x, h)
                 == After(After(After(g, here.op % 16), z.dists[x.dsym]), DistExtra(x.dsym))
              && Size(z.lens, z.dists, x, h) == z.lens[x.lsym] + here.op % 16 + z.dists[x.dsym] + DistExtra(x.dsym)
              && TokenOf(x) == Match(DBASE[x.dsym] + x.dextra, here.val + x.lextra)
  {
  }

  lemma ExtraValue(h: nat, n: nat)
    ensures Pow2(n) > 0 && ExtraIs(h, n, h % Pow2(n)) && ExtraIs(h, 0, 0)
    ensures After(h, 0) == h
  {
    assert Pow2(0) == 1;
  }

  /** The token x has been decoded. */
  ghost predicate Decoded(z: Codes, x: Coded, h: nat, avail: nat, h': nat, avail': nat, mode: Mode, out: seq<Token>) {
    && Begins(z.lens, z.dists, x, h) && h' == Beyond(z.lens, z.dists, x, h)
    && avail' == avail - Size(z.lens, z.dists, x, h)
    && if x.End? then mode == TYPE && out == [] else mode == LEN && (x.Byte0? || PairOk(x)) && out == [TokenOf(x)]
  }

  lemma ReadableIs(z: Codes, x: Coded, h: nat, avail: nat, reach: nat)
    ensures Readable(z, x, h, avail, reach) ==>
              && Begins(z.lens, z.dists, x, h) && Size(z.lens, z.dists, x, h) <= avail
              && (x.Pair? ==> PairOk(x) && 1 <= DistanceOf(x) <= reach)
  {
  }

  lemma BeginsIs(z: Codes, x: Coded, h: nat)
    requires Begins(z.lens, z.dists, x, h)
    ensures x.Byte0? ==> Leads(z.lens, x.c, h) && x.c < |z.lens|
                         && Beyond(z.lens, z.dists, x, h) == After(h, z.lens[x.c])
                         && Size(z.lens, z.dists, x, h) == z.lens[x.c] && TokenOf(x) == Literal(x.c)
    ensures x.End? ==> Leads(z.lens, 256, h) && 256 < |z.lens| && Beyond(z.lens, z.dists, x, h) == After(h, z.lens[256])
                       && Size(z.lens, z.dists, x, h) == z.lens[256]
    ensures x.Pair? ==> PairOk(x) && Leads(z.lens, x.lsym, h) && x.lsym < |z.lens| && 257 <= x.lsym <= 285
                        && Size(z.lens, z.dists, x, h) >= z.lens[x.lsym]
  {
  }

  ghost predicate LenTells(z: Codes, x: Coded, h: nat, avail: nat, reach: nat, e: Code, n: nat) {
    && Begins(z.lens, z.dists, x, h) && n <= avail
    && match x
       case Byte0(c) => c < |z.lens| && n == z.lens[c] && e.op == 0 && e.val == c
       case End => 256 < |z.lens| && n == z.lens[256] && e.op == 96
       case Pair(lsym, _, _, _) =>
         && PairOk(x) && lsym < |z.lens| && n == z.lens[lsym] && 16 <= e.op <= 21
         && PairReadable(e, z, x, h, After(h, n), avail - n, reach)
  }

  lemma TellsLiteral(z: Codes, x: Coded, h: nat, avail: nat, reach: nat, e: Code, n: nat)
    requires e.op == 0 && e.val < 256
    ensures LenTells(z, x, h, avail, reach, e, n) ==>
              n <= avail && Decoded(z, x, h, avail, After(h, n), avail - n, LEN, [Literal(e.val)])
  {
    if LenTells(z, x, h, avail, reach, e, n) { BeginsIs(z, x, h); }
  }

  lemma TellsEnd(z: Codes, x: Coded, h: nat, avail: nat, reach: nat, e: Code, n: nat)
    requires e.op / 32 % 2 == 1
    ensures LenTells(z, x, h, avail, reach, e, n) ==>
              n <= avail && Decoded(z, x, h, avail, After(h, n), avail - n, TYPE, [])
  {
    OpBits(e.op);
    if LenTells(z, x, h, avail, reach, e, n) { BeginsIs(z, x, h); }
  }

  lemma TellsPair(z: Codes, x: Coded, h: nat, avail: nat, reach: nat, e: Code, n: nat, h': nat, avail': nat, mode: Mode,
                  out: seq<Token>)
    requires 16 <= e.op <= 21
    requires n <= avail && PairReadable(e, z, x, h, After(h, n), avail - n, reach) ==>
               && mode == LEN && out == [TokenOf(x)] && h' == Beyond(z.lens, z.dists, x, h)
               && avail' == avail - n - (Size(z.lens, z.dists, x, h) - z.lens[x.lsym])
    ensures LenTells(z, x, h, avail, reach, e, n) ==> Decoded(z, x, h, avail, h', avail', mode, out)
  {
    if LenTells(z, x, h, avail, reach, e, n) { BeginsIs(z, x, h); }
  }

  lemma PairTold(z: Codes, x: Coded, h: nat, avail: nat, reach: nat, e: Code, n: nat)
    requires LenTells(z, x, h, avail, reach, e, n) && 16 <= e.op <= 21
    ensures n <= avail && PairReadable(e, z, x, h, After(h, n), avail - n, reach)
  {
  }

  lemma TellsAll(z: Codes, x: Coded, h: nat, avail: nat, reach: nat, e: Code, n: nat)
    requires LenTells(z, x, h, avail, reach, e, n)
    ensures n <= avail && (e.op / 64 % 2 == 1 ==> e.op / 32 % 2 == 1)
  {
    OpBits(e.op);
  }

  /** What the entry found for a literal or length code tells. */
  lemma LenFound(t: seq<Code>, root: nat, z: Codes, x: Coded, h: nat, avail: nat, reach: nat, e: Code, n: nat)
    requires TablesFor(t, root, z.lens, LENS) && Finds(t, root, h, e, n)
    ensures e.op == 0 ==> e.val < 256
    ensures e.op != 0 && e.op / 32 % 2 != 1 && e.op / 64 % 2 != 1 ==> 16 <= e.op <= 21
    ensures 16 <= e.op <= 21 ==> 3 <= e.val && e.val + Pow2(e.op - 16) <= 259
    ensures Readable(z, x, h, avail, reach) ==> LenTells(z, x, h, avail, reach, e, n)
  {
    hide *;
    LensEntry(t, root, z.lens, h, e, n);
    OpBits(e.op);
    ReadableIs(z, x, h, avail, reach);
    AlphabetIs();
    if Readable(z, x, h, avail, reach) {
      BeginsIs(z, x, h);
      var s := if x.Byte0? then x.c else if x.End? then 256 else x.lsym;
      EntryIs(t, root, z.lens, LENS, s, h, e, n);
      EntryKinds(s, e.bits);
      if x.Pair? { PairMade(e, z, x, h, avail, reach, n); }
      LenTold(z, x, h, avail, reach, e, n);
    }
  }

  lemma LenTold(z: Codes, x: Coded, h: nat, avail: nat, reach: nat, e: Code, n: nat)
    requires Begins(z.lens, z.dists, x, h) && n <= avail
    requires x.Byte0? ==> x.c < |z.lens| && n == z.lens[x.c] && e.op == 0 && e.val == x.c
    requires x.End? ==> 256 < |z.lens| && n == z.lens[256] && e.op == 96
    requires x.Pair? ==> PairOk(x) && x.lsym < |z.lens| && n == z.lens[x.lsym] && 16 <= e.op <= 21
                         && PairReadable(e, z, x, h, After(h, n), avail - n, reach)
    ensures LenTells(z, x, h, avail, reach, e, n)
  {
  }

  lemma PairMade(here: Code, z: Codes, x: Coded, h: nat, avail: nat, reach: nat, n: nat)
    requires PairOk(x) && Begins(z.lens, z.dists, x, h) && x.lsym < |z.lens| && n == z.lens[x.lsym]
    requires Size(z.lens, z.dists, x, h) <= avail && 1 <= DistanceOf(x) <= reach
    requires here.op == 16 + LengthExtra(x.lsym) <= 21 && here.val == LBASE[x.lsym - 257]
    ensures n <= avail && PairReadable(here, z, x, h, After(h, n), avail - n, reach)
  {
    OpBits(here.op);
  }
}
