/** When the fixed codes leave the tokens in the shared buffer alone until they are read. */
module DeflateClear {
  import opened Arithmetic
  import opened MachineInts
  import opened SetSums
  import opened InflateStream
  import opened DeflateTokens
  import opened DeflateBlocks
  import opened DeflateSender
  import opened DeflateChunks
  import opened DeflateTrees
  import opened DeflateOverlay
  import opened Lz77

  /* ---- the fixed codes have a code for everything ---- */

  lemma FixedHasCodes(xs: seq<Coded>)
    requires AllOk(xs)
    ensures HasCodes(FixedCodes(), xs)
  {
    FixedCodesAre();
    FixedCoding(256);
    hide *;
    forall k | 0 <= k < |xs|
      ensures HasCode(FixedCodes(), xs[k])
    {
      AllOkAt(xs, k);
      FixedHas(xs[k]);
    }
    FixedHas(End);
    HasCodesMade(FixedCodes(), xs);
  }

  lemma AllOkAt(xs: seq<Coded>, k: nat)
    requires AllOk(xs) && k < |xs|
    ensures FormOk(xs[k])
  {
  }

  lemma HasCodesMade(z: Codes, xs: seq<Coded>)
    requires HasCode(z, End) && forall k :: 0 <= k < |xs| ==> HasCode(z, xs[k])
    ensures HasCodes(z, xs)
  {
  }

  lemma FixedCoding(s: nat)
    ensures s < 288 ==> Coding(FixedLens(), s)
    ensures s < 32 ==> Coding(FixedDists(), s)
  {
    FixedAt(s);
  }

  lemma FixedHas(x: Coded)
    requires x.End? || FormOk(x)
    ensures HasCode(FixedCodes(), x)
  {
    FixedCodesAre();
    hide FixedLens, FixedDists, FixedCodes, Coding, Pow2;
    match x
    case Byte0(c) => FixedCoding(c);
    case End => FixedCoding(256);
    case Pair(lsym, _, dsym, _) =>
      FixedCoding(lsym);
      FixedCoding(dsym);
  }

  /** The tokens of a block, as they are sent. */
  lemma TokensSound(tokens: seq<Token>, maxDist: nat)
    requires AllSound(tokens, maxDist) && maxDist <= 32768
    ensures AllSound(tokens, 32768) && AllOk(FormsOf(tokens)) && Carries(FormsOf(tokens), tokens)
    ensures HasCodes(FixedCodes(), FormsOf(tokens))
  {
    FormsCarry(tokens, maxDist);
    FixedHasCodes(FormsOf(tokens));
  }

  /* ---- how many bits a token takes ---- */

  /** The bits of a token with the fixed codes. */
  function FixedSize(x: Coded): nat {
    match x
    case Byte0(c) => if c < 144 then 8 else 9
    case End => 7
    case Pair(lsym, _, dsym, _) =>
      if 257 <= lsym <= 285 && dsym < 30
      then (if lsym < 280 then 7 else 8) + LengthExtra(lsym) + 5 + DistExtra(dsym)
      else 0
  }

  lemma FixedSizeIs(x: Coded)
    requires FormOk(x)
    ensures HasCode(FixedCodes(), x) && (x.Pair? ==> PairOk(x))
    ensures Total(TokenChunks(FixedCodes(), x)) == FixedSize(x)
  {
    FixedCodesAre();
    FixedHas(x);
    FormPairs(x);
    hide *;
    TokenChunksAre(FixedCodes(), x);
    SizeCases(x);
    match x
    case Byte0(c) =>
      FixedAt(c);
      CodeTotal(FixedLens(), c);
    case End =>
      FixedAt(256);
      CodeTotal(FixedLens(), 256);
    case Pair(lsym, _, dsym, _) =>
      FixedAt(lsym);
      FixedAt(dsym);
      MatchTotal(FixedCodes(), x);
  }

  lemma SizeCases(x: Coded)
    ensures x.Byte0? ==> FixedSize(x) == if x.c < 144 then 8 else 9
    ensures x.End? ==> FixedSize(x) == 7
    ensures x.Pair? && 257 <= x.lsym <= 285 && x.dsym < 30 ==>
              FixedSize(x) == (if x.lsym < 280 then 7 else 8) + LengthExtra(x.lsym) + 5 + DistExtra(x.dsym)
  {
  }

  /** At most 24 bits if the distance is at most 256, and never more than 31. */
  lemma FixedSizeBound(t: Token, maxDist: nat)
    requires Sound(t, maxDist) && maxDist <= 32768
    ensures FormOk(FormOf(t)) && FixedSize(FormOf(t)) <= if maxDist <= 256 then 24 else 31
  {
    hide *;
    SoundIs(t, maxDist);
    SizeCases(FormOf(t));
    match t
    case Literal(c) => LiteralFormIs(c);
    case Match(distance, length) =>
      var lc: Byte := length - 3;
      var x := FormOf(t);
      MatchForm(distance, lc, x);
      MostExtra(x.lsym, x.dsym);
      NearCode(distance);
  }

  lemma SoundIs(t: Token, maxDist: nat)
    requires Sound(t, maxDist)
    ensures t.Match? ==> 1 <= t.distance <= maxDist && 3 <= t.length <= 258
  {
  }

  lemma LiteralFormIs(c: Byte)
    ensures FormOf(Literal(c)) == Byte0(c) && FormOk(Byte0(c))
  {
  }

  lemma MostExtra(lsym: nat, dsym: nat)
    requires 257 <= lsym <= 285 && dsym < 30
    ensures LengthExtra(lsym) <= 5 && DistExtra(dsym) <= 13 && (dsym < 16 ==> DistExtra(dsym) <= 6)
    ensures lsym < 280 ==> LengthExtra(lsym) <= 4
  {
  }

  /** Distances up to 256 have the first 16 codes. */
  lemma NearCode(distance: nat)
    requires 1 <= distance <= 32768
    ensures distance <= 256 ==> DistCode(distance - 1) < 16
  {
    hide *;
    var d := DistCode(distance - 1);
    DistForm(distance);
    DistStarts(d);
    if distance <= 256 && d >= 16 { DistStartsGrow(16, d); }
  }

  /* ---- how many bits a block takes ---- */

  /** The bits of all tokens with the fixed codes, without the end of the block. */
  function FixedBits(tokens: seq<Token>): nat {
    if tokens == [] then 0 else FixedBits(tokens[..|tokens| - 1]) + FixedSize(FormOf(tokens[|tokens| - 1]))
  }

  lemma FixedBitsStep(tokens: seq<Token>, k: nat)
    requires k < |tokens|
    ensures FixedBits(tokens[..0]) == 0
    ensures FixedBits(tokens[..k + 1]) == FixedBits(tokens[..k]) + FixedSize(FormOf(tokens[k]))
  {
    var part := tokens[..k + 1];
    assert part[..|part| - 1] == tokens[..k] && part[|part| - 1] == tokens[k];
    hide FixedSize, FormOf;
  }

  lemma {:induction false} FixedCostTo(tokens: seq<Token>, k: nat)
    requires AllOk(FormsOf(tokens)) && k <= |tokens|
    ensures HasCodes(FixedCodes(), FormsOf(tokens))
    ensures CostTo(FixedCodes(), FormsOf(tokens), k) == FixedBits(tokens[..k])
    decreases k
  {
    hide *;
    FixedHasCodes(FormsOf(tokens));
    NoCost(FixedCodes(), FormsOf(tokens));
    NoFixedBits();
    assert tokens[..0] == [];
    if k > 0 {
      FixedCostTo(tokens, k - 1);
      CostStep(FixedCodes(), FormsOf(tokens), k - 1);
      FixedBitsStep(tokens, k - 1);
      FormAt(tokens, k - 1);
      FixedSizeIs(FormOf(tokens[k - 1]));
    }
  }

  lemma NoFixedBits()
    ensures FixedBits([]) == 0
  {
  }

  lemma FormAt(tokens: seq<Token>, k: nat)
    requires k < |tokens|
    ensures FormsOf(tokens)[k] == FormOf(tokens[k])
  {
  }

  lemma {:induction false} FixedBitsBound(tokens: seq<Token>, k: nat, maxDist: nat)
    requires AllSound(tokens, maxDist) && maxDist <= 32768 && k <= |tokens|
    ensures FixedBits(tokens[..k]) <= (if maxDist <= 256 then 24 else 31) * k
    decreases k
  {
    hide *;
    NoFixedBits();
    assert tokens[..0] == [];
    if k > 0 {
      FixedBitsBound(tokens, k - 1, maxDist);
      FixedBitsStep(tokens, k - 1);
      SoundAt(tokens, k - 1, maxDist);
      FixedSizeBound(tokens[k - 1], maxDist);
      Spread(k - 1, 1, if maxDist <= 256 then 24 else 31);
    }
  }

  lemma SoundAt(tokens: seq<Token>, k: nat, maxDist: nat)
    requires AllSound(tokens, maxDist) && k < |tokens|
    ensures Sound(tokens[k], maxDist)
  {
  }

  /** All bits of the block. */
  lemma FixedTotal(tokens: seq<Token>)
    requires AllOk(FormsOf(tokens))
    ensures HasCodes(FixedCodes(), FormsOf(tokens))
    ensures Total(BlockChunks(FixedCodes(), FormsOf(tokens))) == FixedBits(tokens) + 7
  {
    hide *;
    FixedHasCodes(FormsOf(tokens));
    var xs := FormsOf(tokens);
    FixedCostTo(tokens, |tokens|);
    assert tokens[..|tokens|] == tokens && xs[0..] == xs;
    CostWhole(FixedCodes(), xs, 0);
    NoCost(FixedCodes(), xs);
    EndForm();
    FixedSizeIs(End);
    SizeCases(End);
  }

  lemma EndForm()
    ensures FormOk(End)
  {
  }

  /* ---- which tokens are read as they were tallied ---- */

  /** Sent with the fixed codes from an empty buffer of n entries, used bits being in front of them, all tokens are read
      before the output comes to their entries. */
  ghost predicate InTimeAll(n: nat, used: nat, tokens: seq<Token>) {
    && AllOk(FormsOf(tokens)) && HasCodes(FixedCodes(), FormsOf(tokens))
    && Clear(n, used, FixedCodes(), FormsOf(tokens))
  }

  /** The bytes of the first k tokens end at or before the entry of the next one. */
  ghost predicate Ahead(n: nat, used: nat, tokens: seq<Token>, k: nat)
    requires k < |tokens|
  {
    Put(used + FixedBits(tokens[..k])) <= n + 2 * k
  }

  lemma AheadIs(n: nat, used: nat, tokens: seq<Token>, k: nat)
    requires k < |tokens|
    ensures Ahead(n, used, tokens, k) <==> Put(used + FixedBits(tokens[..k])) <= n + 2 * k
  {
    hide FixedBits, Put;
  }

  lemma InTimeMade(n: nat, used: nat, tokens: seq<Token>)
    requires AllOk(FormsOf(tokens))
    requires forall k: nat :: k < |tokens| ==> Ahead(n, used, tokens, k)
    ensures InTimeAll(n, used, tokens)
  {
    hide *;
    FixedHasCodes(FormsOf(tokens));
    var z, xs := FixedCodes(), FormsOf(tokens);
    forall k: nat | k < |xs|
      ensures InTime(n, used, z, xs, k)
    {
      FixedCostTo(tokens, k);
      AheadIs(n, used, tokens, k);
      InTimeIs(n, used, z, xs, k);
    }
    ClearIs(n, used, z, xs);
    InTimeAllIs(n, used, tokens);
  }

  lemma InTimeAllIs(n: nat, used: nat, tokens: seq<Token>)
    ensures InTimeAll(n, used, tokens) <==>
              && AllOk(FormsOf(tokens)) && HasCodes(FixedCodes(), FormsOf(tokens))
              && Clear(n, used, FixedCodes(), FormsOf(tokens))
  {
    hide AllOk, HasCodes, Clear;
  }

  /** Distances up to 256 leave at most three bytes to a token: the output stays behind the entries read. */
  lemma NearInTime(n: nat, used: nat, tokens: seq<Token>, maxDist: nat)
    requires AllSound(tokens, maxDist) && maxDist <= 256 && |tokens| < n && used <= 10
    ensures InTimeAll(n, used, tokens)
  {
    hide *;
    TokensSound(tokens, maxDist);
    forall k: nat | k < |tokens|
      ensures Ahead(n, used, tokens, k)
    {
      FixedBitsBound(tokens, k, maxDist);
      PutBound(used + FixedBits(tokens[..k]));
      AheadIs(n, used, tokens, k);
    }
    InTimeMade(n, used, tokens);
  }

  /** So does half a buffer of tokens, whatever they are. */
  lemma FewInTime(n: nat, used: nat, tokens: seq<Token>, maxDist: nat)
    requires AllSound(tokens, maxDist) && maxDist <= 32768 && 2 * |tokens| <= n && used <= 10
    ensures InTimeAll(n, used, tokens)
  {
    hide *;
    TokensSound(tokens, maxDist);
    forall k: nat | k < |tokens|
      ensures Ahead(n, used, tokens, k)
    {
      FixedBitsBound(tokens, k, maxDist);
      PutBound(used + FixedBits(tokens[..k]));
      AheadIs(n, used, tokens, k);
    }
    InTimeMade(n, used, tokens);
  }

  lemma PutBound(bits: nat)
    ensures bits <= 8 * Put(bits) + 16 && (bits > 0 ==> 8 * Put(bits) < bits) && (bits == 0 ==> Put(bits) == 0)
  {
  }
}
