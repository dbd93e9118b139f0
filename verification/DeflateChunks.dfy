/** The bits of the blocks deflate sends, and that inflate reads them back. */
module DeflateChunks {
  import opened MachineInts
  import opened SetSums
  import opened BitReverse
  import opened DeflateCodes
  import opened TableLayout
  import opened InflateTable
  import opened DeflateTokens
  import opened DeflateBlocks
  import opened DeflateSender
  import opened Lz77

  /* ---- the coded form of a token ---- */

  /** The last of the first k + 1 ranges that begins at or before x. */
  function RangeOf(bases: seq<nat>, x: nat, k: nat): (r: nat)
    requires k < |bases|
    ensures r <= k && (r > 0 ==> bases[r] <= x)
  {
    if k == 0 || bases[k] <= x then k else RangeOf(bases, x, k - 1)
  }

  /** The code of a match length less three, and of a distance less one. */
  function LengthCode(lc: nat): (r: nat)
    ensures r <= 28
  {
    RangeOf(LBASE[..29], lc + 3, 28)
  }

  function DistCode(dist: nat): (r: nat)
    ensures r <= 29
  {
    RangeOf(DBASE[..30], dist + 1, 29)
  }

  /** A literal as it is; a match by the last length range and the last distance range that begin in time. */
  function FormOf(t: Token): Coded {
    match t
    case Literal(c) => Byte0(c)
    case Match(distance, length) =>
      var l, d := LengthCode(Over(length, 3)), DistCode(Over(distance, 1));
      Pair(l + 257, Over(length, LBASE[l]), d, Over(distance, DBASE[d]))
  }

  function Over(a: nat, b: nat): nat {
    if a < b then 0 else a - b
  }

  function FormsOf(tokens: seq<Token>): (r: seq<Coded>)
    ensures |r| == |tokens|
  {
    seq(|tokens|, k requires 0 <= k < |tokens| => FormOf(tokens[k]))
  }

  /** A form with extra bits of the right size. */
  ghost predicate FormOk(x: Coded) {
    x.Pair? ==> PairOk(x) && x.lextra < Pow2(LengthExtra(x.lsym)) && x.dextra < Pow2(DistExtra(x.dsym))
  }

  /** In range k, or before the next. */
  lemma {:induction false} RangeNext(bases: seq<nat>, x: nat, k: nat)
    requires k < |bases|
    ensures RangeOf(bases, x, k) < k ==> x < bases[RangeOf(bases, x, k) + 1]
    ensures bases[0] <= x ==> bases[RangeOf(bases, x, k)] <= x
  {
    if k > 0 && x < bases[k] { RangeNext(bases, x, k - 1); }
  }

  lemma LengthForm(length: nat)
    requires 3 <= length <= 258
    ensures var l := LengthCode(length - 3);
            l <= 28 && LBASE[l] <= length && length - LBASE[l] < Pow2(LengthExtra(l + 257))
  {
    var l := RangeOf(LBASE[..29], length, 28);
    RangeNext(LBASE[..29], length, 28);
    LengthEnds();
    ExtraPowers();
    hide Pow2, RangeOf;
    assert LBASE[..29][0] == 3;
    if l < 27 {
      LengthRange(l);
      assert LBASE[..29][l + 1] == LBASE[l + 1];
    } else if l == 27 {
      assert LBASE[..29][28] == 258;
    }
  }

  lemma DistForm(distance: nat)
    requires 1 <= distance <= 32768
    ensures var d := DistCode(distance - 1);
            d <= 29 && DBASE[d] <= distance && distance - DBASE[d] < Pow2(DistExtra(d))
  {
    var d := RangeOf(DBASE[..30], distance, 29);
    RangeNext(DBASE[..30], distance, 29);
    DistEnds();
    hide Pow2, RangeOf;
    assert DBASE[..30][0] == 1;
    if d < 29 {
      DistRange(d);
      assert DBASE[..30][d + 1] == DBASE[d + 1];
    }
  }

  /** The form of a token stands for it. */
  lemma FormIs(t: Token)
    requires Sound(t, 32768)
    ensures FormOk(FormOf(t)) && (FormOf(t).Byte0? || PairOk(FormOf(t))) && TokenOf(FormOf(t)) == t
  {
    match t
    case Literal(_) =>
    case Match(distance, length) =>
      LengthForm(length);
      DistForm(distance);
      hide Pow2, LengthCode, DistCode;
  }

  lemma MatchFormIs(distance: nat, lc: nat)
    requires distance >= 1
    ensures |LBASE| == 31 && |DBASE| == 32
    ensures FormOf(Match(distance, lc + 3))
            == Pair(LengthCode(lc) + 257, Over(lc + 3, LBASE[LengthCode(lc)]),
                    DistCode(distance - 1), Over(distance, DBASE[DistCode(distance - 1)]))
  {
    hide LengthCode, DistCode;
  }

  lemma FormPairs(x: Coded)
    requires FormOk(x)
    ensures x.Pair? ==>
              && PairOk(x) && 257 <= x.lsym <= 285 && x.dsym < 30
              && x.lextra < Pow2(LengthExtra(x.lsym)) && x.dextra < Pow2(DistExtra(x.dsym))
              && LengthExtra(x.lsym) <= 5 && DistExtra(x.dsym) <= 13
  {
    hide Pow2;
  }

  lemma OverIs(a: nat, b: nat)
    ensures Over(a, b) == if a < b then 0 else a - b
  {
  }

  lemma FormsCarry(tokens: seq<Token>, maxDist: nat)
    requires AllSound(tokens, maxDist) && maxDist <= 32768
    ensures Carries(FormsOf(tokens), tokens) && forall k :: 0 <= k < |tokens| ==> FormOk(FormsOf(tokens)[k])
  {
    hide FormOf, TokenOf, FormOk;
    forall k | 0 <= k < |tokens|
      ensures var x := FormsOf(tokens)[k]; (x.Byte0? || PairOk(x)) && TokenOf(x) == tokens[k] && FormOk(x)
    {
      assert Sound(tokens[k], maxDist);
      FormIs(tokens[k]);
    }
  }

  /* ---- the bits sent ---- */

  /** The code of symbol s, its first bit lowest. */
  ghost function CodeChunk(lens: seq<nat>, s: nat): Chunk
    requires s < |lens|
  {
    Chunk(Rev(CodeOf(lens, s), lens[s]), lens[s])
  }

  /** Extra bits, if there are any. */
  ghost function ExtraChunks(v: nat, n: nat): seq<Chunk> {
    if n == 0 then [] else [Chunk(v, n)]
  }

  /** Every symbol that x needs has a code. */
  ghost predicate HasCode(z: Codes, x: Coded) {
    match x
    case Byte0(c) => Coding(z.lens, c)
    case End => Coding(z.lens, 256)
    case Pair(lsym, _, dsym, _) => Coding(z.lens, lsym) && Coding(z.dists, dsym)
  }

  ghost predicate Coding(lens: seq<nat>, s: nat) {
    s < |lens| && 0 < lens[s]
  }

  ghost predicate HasCodes(z: Codes, xs: seq<Coded>) {
    HasCode(z, End) && forall k :: 0 <= k < |xs| ==> HasCode(z, xs[k])
  }

  ghost function TokenChunks(z: Codes, x: Coded): seq<Chunk>
    requires HasCode(z, x) && (x.Pair? ==> PairOk(x))
  {
    match x
    case Byte0(c) => [CodeChunk(z.lens, c)]
    case End => [CodeChunk(z.lens, 256)]
    case Pair(lsym, lextra, dsym, dextra) =>
      [CodeChunk(z.lens, lsym)] + ExtraChunks(lextra, LengthExtra(lsym))
      + [CodeChunk(z.dists, dsym)] + ExtraChunks(dextra, DistExtra(dsym))
  }

  /** The symbols of a block, and its end. */
  ghost function BlockChunks(z: Codes, xs: seq<Coded>): seq<Chunk>
    requires HasCodes(z, xs) && AllOk(xs)
    decreases |xs|
  {
    if xs == [] then TokenChunks(z, End) else TokenChunks(z, xs[0]) + BlockChunks(z, xs[1..])
  }

  /** The place at which the bits cs begin. */
  ghost function PlaceOf(cs: seq<Chunk>, text: seq<Byte>): Place {
    Place(Value(cs), Total(cs), text)
  }

  lemma PlaceOfIs(cs: seq<Chunk>, text: seq<Byte>)
    ensures PlaceOf(cs, text) == Place(Value(cs), Total(cs), text)
  {
  }

  lemma CodeAfter(lens: seq<nat>, s: nat, t: seq<Chunk>)
    requires Coding(lens, s)
    ensures s < |lens| && ChunkOk(CodeChunk(lens, s)) && Leads(lens, s, Value([CodeChunk(lens, s)] + t))
    ensures After(Value([CodeChunk(lens, s)] + t), lens[s]) == Value(t)
    ensures Total([CodeChunk(lens, s)] + t) == lens[s] + Total(t)
  {
    RevBound(CodeOf(lens, s), lens[s]);
    hide Pow2, Value, Total, After, CodeOf, Rev;
    ValueAfter(CodeChunk(lens, s), t);
    LeadsIs(lens, s, Value([CodeChunk(lens, s)] + t));
  }

  lemma ExtraAfter(v: nat, n: nat, t: seq<Chunk>)
    requires v < Pow2(n)
    ensures ExtraIs(Value(ExtraChunks(v, n) + t), n, v) && After(Value(ExtraChunks(v, n) + t), n) == Value(t)
    ensures Total(ExtraChunks(v, n) + t) == n + Total(t) && ChunksOk(ExtraChunks(v, n))
  {
    hide After, Value, Total;
    if n == 0 {
      assert ExtraChunks(v, n) + t == t;
      ExtraValue(Value(t), 0);
      NoPower();
    } else {
      ValueAfter(Chunk(v, n), t);
    }
  }

  lemma TokenChunksAre(z: Codes, x: Coded)
    requires HasCode(z, x) && FormOk(x)
    ensures x.Byte0? ==> Coding(z.lens, x.c) && TokenChunks(z, x) == [CodeChunk(z.lens, x.c)]
    ensures x.End? ==> Coding(z.lens, 256) && TokenChunks(z, x) == [CodeChunk(z.lens, 256)]
    ensures x.Pair? ==>
              && PairOk(x) && 257 <= x.lsym <= 285 && x.dsym < 30
              && x.lextra < Pow2(LengthExtra(x.lsym)) && x.dextra < Pow2(DistExtra(x.dsym))
              && Coding(z.lens, x.lsym) && Coding(z.dists, x.dsym)
              && TokenChunks(z, x) == [CodeChunk(z.lens, x.lsym)] + ExtraChunks(x.lextra, LengthExtra(x.lsym))
                                      + [CodeChunk(z.dists, x.dsym)] + ExtraChunks(x.dextra, DistExtra(x.dsym))
  {
    hide CodeChunk, ExtraChunks, Pow2;
  }

  lemma CodingIs(lens: seq<nat>, s: nat)
    ensures Coding(lens, s) <==> s < |lens| && 0 < lens[s]
  {
  }

  /** Symbol, extra bits, symbol, extra bits. */
  lemma PairSent(z: Codes, x: Coded, t: seq<Chunk>)
    requires HasCode(z, x) && FormOk(x) && x.Pair?
    ensures var h := Value(TokenChunks(z, x) + t);
            && Begins(z.lens, z.dists, x, h) && Beyond(z.lens, z.dists, x, h) == Value(t)
            && Total(TokenChunks(z, x) + t) == Size(z.lens, z.dists, x, h) + Total(t)
    ensures ChunksOk(TokenChunks(z, x))
  {
    TokenChunksAre(z, x);
    CodingIs(z.lens, x.lsym);
    CodingIs(z.dists, x.dsym);
    var a, b := [CodeChunk(z.lens, x.lsym)], ExtraChunks(x.lextra, LengthExtra(x.lsym));
    var c, d := [CodeChunk(z.dists, x.dsym)], ExtraChunks(x.dextra, DistExtra(x.dsym));
    hide CodeChunk, ExtraChunks, Pow2, Value, Total, After, Leads, Coding, TokenChunks, ExtraIs, ChunkOk;
    hide HasCode, FormOk;
    assert TokenChunks(z, x) + t == a + (b + (c + (d + t)));
    CodeAfter(z.lens, x.lsym, b + (c + (d + t)));
    ExtraAfter(x.lextra, LengthExtra(x.lsym), c + (d + t));
    CodeAfter(z.dists, x.dsym, d + t);
    ExtraAfter(x.dextra, DistExtra(x.dsym), t);
  }

  /** Inflate finds x at its bits, and behind them what follows. */
  lemma TokenSent(z: Codes, x: Coded, t: seq<Chunk>)
    requires HasCode(z, x) && FormOk(x)
    ensures var h := Value(TokenChunks(z, x) + t);
            && Begins(z.lens, z.dists, x, h) && Beyond(z.lens, z.dists, x, h) == Value(t)
            && Total(TokenChunks(z, x) + t) == Size(z.lens, z.dists, x, h) + Total(t)
    ensures ChunksOk(TokenChunks(z, x))
  {
    if x.Pair? {
      PairSent(z, x, t);
    } else {
      TokenChunksAre(z, x);
      var s := if x.Byte0? then x.c else 256;
      CodingIs(z.lens, s);
      hide CodeChunk, Pow2, Value, Total, After, Leads, Coding, TokenChunks, ChunkOk, HasCode, FormOk;
      CodeAfter(z.lens, s, t);
    }
  }

  ghost predicate AllOk(xs: seq<Coded>) {
    forall k :: 0 <= k < |xs| ==> FormOk(xs[k])
  }

  lemma CodesNext(z: Codes, xs: seq<Coded>)
    requires HasCodes(z, xs) && AllOk(xs) && xs != []
    ensures HasCode(z, xs[0]) && FormOk(xs[0]) && HasCodes(z, xs[1..]) && AllOk(xs[1..])
    ensures BlockChunks(z, xs) == TokenChunks(z, xs[0]) + BlockChunks(z, xs[1..])
  {
  }

  lemma CodesEnd(z: Codes)
    requires HasCodes(z, [])
    ensures HasCode(z, End) && FormOk(End) && BlockChunks(z, []) == TokenChunks(z, End)
  {
  }

  lemma ReachesNext(text: seq<Byte>, tokens: seq<Token>, maxDist: nat)
    requires AllSound(tokens, maxDist) && Reaching(text, tokens) && tokens != []
    ensures Sound(tokens[0], maxDist) && (tokens[0].Match? ==> 1 <= tokens[0].distance <= |text|)
    ensures AllSound(tokens[1..], maxDist) && Reaching(Append(text, tokens[0]), tokens[1..])
  {
    assert tokens == [tokens[0]] + tokens[1..];
    ReachingPart(text, [tokens[0]], tokens[1..]);
    ExpandOne(text, tokens[0]);
    assert tokens[..0] == [];
    ExpandNone(text);
  }

  /** The bits sent for tokens that reach back no further than there is text are a block that inflate can read. */
  lemma {:induction false} BlockSent(z: Codes, xs: seq<Coded>, tokens: seq<Token>, text: seq<Byte>, t: seq<Chunk>,
                                     maxDist: nat, wsize: nat)
    requires HasCodes(z, xs) && AllOk(xs) && Carries(xs, tokens)
    requires AllSound(tokens, maxDist) && maxDist <= wsize && Reaching(text, tokens)
    ensures BlockReadable(z, xs, PlaceOf(BlockChunks(z, xs) + t, text), PlaceOf(t, Expanded(text, xs)), wsize)
    decreases |xs|
  {
    hide *;
    var p, q := PlaceOf(BlockChunks(z, xs) + t, text), PlaceOf(t, Expanded(text, xs));
    PlaceOfIs(BlockChunks(z, xs) + t, text);
    PlaceOfIs(t, Expanded(text, xs));
    if xs == [] {
      CodesEnd(z);
      TokenSent(z, End, t);
      EndReadable(z, xs, p, q, wsize);
    } else {
      CodesNext(z, xs);
      var rest := BlockChunks(z, xs[1..]) + t;
      assert BlockChunks(z, xs) + t == TokenChunks(z, xs[0]) + rest;
      TokenSent(z, xs[0], rest);
      CarriesNext(xs, tokens);
      ReachesNext(text, tokens, maxDist);
      ExpandedNext(text, xs);
      PlaceOfIs(rest, Appended(text, xs[0]));
      AppendedIs(text, xs[0], tokens[0]);
      BlockSent(z, xs[1..], tokens[1..], Appended(text, xs[0]), t, maxDist, wsize);
      TokenReadable(z, xs, p, q, wsize, tokens[0], maxDist);
    }
  }

  lemma EndReadable(z: Codes, xs: seq<Coded>, p: Place, q: Place, wsize: nat)
    requires xs == [] && Begins(z.lens, z.dists, End, p.h) && Beyond(z.lens, z.dists, End, p.h) == q.h
    requires p.avail == Size(z.lens, z.dists, End, p.h) + q.avail && q.text == Expanded(p.text, xs)
    ensures BlockReadable(z, xs, p, q, wsize)
  {
    hide Begins, Beyond, Size;
  }

  lemma CarriesNext(xs: seq<Coded>, tokens: seq<Token>)
    requires Carries(xs, tokens) && xs != []
    ensures tokens != [] && (xs[0].Byte0? || PairOk(xs[0])) && TokenOf(xs[0]) == tokens[0]
    ensures Carries(xs[1..], tokens[1..])
  {
    hide TokenOf, PairOk;
  }

  lemma ExpandedNext(text: seq<Byte>, xs: seq<Coded>)
    requires xs != []
    ensures Expanded(text, xs) == Expanded(Appended(text, xs[0]), xs[1..])
  {
  }

  lemma AppendedIs(text: seq<Byte>, x: Coded, t: Token)
    requires (x.Byte0? || PairOk(x)) && TokenOf(x) == t
    ensures Appended(text, x) == Append(text, t)
  {
    hide Append, TokenOf;
  }

  lemma TokenReadable(z: Codes, xs: seq<Coded>, p: Place, q: Place, wsize: nat, t: Token, maxDist: nat)
    requires xs != [] && Begins(z.lens, z.dists, xs[0], p.h) && Size(z.lens, z.dists, xs[0], p.h) <= p.avail
    requires (xs[0].Byte0? || PairOk(xs[0])) && TokenOf(xs[0]) == t && Sound(t, maxDist) && maxDist <= wsize
    requires t.Match? ==> 1 <= t.distance <= |p.text|
    requires BlockReadable(z, xs[1..], Place(Beyond(z.lens, z.dists, xs[0], p.h),
                                             p.avail - Size(z.lens, z.dists, xs[0], p.h), Appended(p.text, xs[0])),
                           q, wsize)
    ensures BlockReadable(z, xs, p, q, wsize)
  {
    hide Begins, Beyond, Size, Appended;
  }
}
