/** What is read where the output has come to the entry of a token: the bits put out there in place of its distance. */
module DeflateSpoiled {
  import opened Arithmetic
  import opened MachineInts
  import opened SetSums
  import opened Counting
  import opened BitReverse
  import opened InflateBits
  import opened DeflateCodes
  import opened InflateStream
  import opened DeflateTokens
  import opened DeflateBlocks
  import opened DeflateSender
  import opened DeflateChunks
  import opened DeflateTrees
  import opened DeflateOverlay
  import opened DeflateClear
  import opened Lz77
  import InflateFast

  /* ---- sixteen bits of the output ---- */

  /** The sixteen bits of h from bit r on. */
  ghost function Window(h: nat, r: nat): nat {
    After(h, r) % 0x10000
  }

  lemma WindowIs(h: nat, r: nat)
    ensures Window(h, r) == After(h, r) % 0x10000
  {
  }

  lemma AfterNone(h: nat)
    ensures After(h, 0) == h
  {
    AfterIs(h, 0);
  }

  /** Behind a byte put out are the bytes after it. */
  lemma HeldNext(bytes: seq<Byte>, buf: nat)
    requires bytes != []
    ensures Held(bytes, buf) == bytes[0] + 0x100 * Held(bytes[1..], buf)
    ensures After(Held(bytes, buf), 8) == Held(bytes[1..], buf)
  {
    hide *;
    var rest, h := bytes[1..], Held(bytes[1..], buf);
    HeldIs(bytes, buf);
    HeldIs(rest, buf);
    LittleStep(bytes);
    EightMore(8 * |rest|);
    Nested(0x100, Little(rest), Pow2(8 * |rest|), buf);
    Flip3(0x100, Pow2(8 * |rest|));
    SixteenBits();
    AfterIs(Held(bytes, buf), 8);
    DivUnique(Held(bytes, buf), 0x100, h, bytes[0]);
  }

  lemma {:induction false} HeldFrom(bytes: seq<Byte>, buf: nat, i: nat)
    requires i <= |bytes|
    ensures After(Held(bytes, buf), 8 * i) == Held(bytes[i..], buf)
    decreases i
  {
    hide *;
    AfterNone(Held(bytes, buf));
    assert bytes[0..] == bytes;
    if i > 0 {
      HeldNext(bytes, buf);
      HeldFrom(bytes[1..], buf, i - 1);
      assert bytes[1..][i - 1..] == bytes[i..];
      InflateFast.AfterTwice(Held(bytes, buf), 8, 8 * (i - 1));
    }
  }

  /** Two bytes are sixteen bits of the whole. */
  lemma TwoBytes(bytes: seq<Byte>, buf: nat, i: nat)
    requires i + 1 < |bytes|
    ensures Window(Held(bytes, buf), 8 * i) == (var low: nat, high: nat := bytes[i], bytes[i + 1]; low + 0x100 * high)
  {
    hide *;
    var part := bytes[i..];
    HeldFrom(bytes, buf, i);
    HeldNext(part, buf);
    HeldNext(part[1..], buf);
    WindowIs(Held(bytes, buf), 8 * i);
    assert part[1..][0] == bytes[i + 1];
    TwoDigits(Held(part, buf), bytes[i], bytes[i + 1], Held(part[1..][1..], buf));
  }

  lemma TwoDigits(h: nat, a: Byte, b: Byte, rest: nat)
    requires h == a + 0x100 * (b + 0x100 * rest)
    ensures h % 0x10000 == a + 0x100 * b
  {
    assert h == (a + 0x100 * b) + 0x10000 * rest;
  }

  /** Behind what was sent before come the numbers sent since. */
  lemma ValueBehind(before: seq<Chunk>, cs: seq<Chunk>)
    requires ChunksOk(before)
    ensures After(Value(before + cs), Total(before)) == Value(cs)
  {
    hide *;
    ValueAdd(before, cs);
    ValueBound(before);
    AfterIs(Value(before + cs), Total(before));
    Flip3(Pow2(Total(before)), Value(cs));
    DivUnique(Value(before + cs), Pow2(Total(before)), Value(cs), Value(before));
  }

  /* ---- the same token over and over ---- */

  ghost function Times(p: seq<Chunk>, k: nat): seq<Chunk>
    decreases k
  {
    if k == 0 then [] else p + Times(p, k - 1)
  }

  lemma TimesStep(p: seq<Chunk>, k: nat)
    ensures Times(p, 0) == []
    ensures k > 0 ==> Times(p, k) == p + Times(p, k - 1)
  {
  }

  lemma {:induction false} TimesTotal(p: seq<Chunk>, k: nat)
    ensures Total(p) * k >= 0 && Total(Times(p, k)) == Total(p) * k
    decreases k
  {
    hide *;
    NoChunks();
    TimesStep(p, k);
    if k > 0 {
      TimesTotal(p, k - 1);
      TotalAdd(p, Times(p, k - 1));
      Spread(k - 1, 1, Total(p));
      Flip3(Total(p), k);
      Flip3(Total(p), k - 1);
    } else {
      Flip3(Total(p), 0);
    }
  }

  /** Behind the first q copies are the others. */
  lemma {:induction false} TimesBehind(p: seq<Chunk>, k: nat, q: nat)
    requires ChunksOk(p) && q <= k
    ensures Total(p) * q >= 0 && After(Value(Times(p, k)), Total(p) * q) == Value(Times(p, k - q))
    decreases q
  {
    hide *;
    AfterNone(Value(Times(p, k)));
    if q > 0 {
      TimesStep(p, k);
      ValueBehind(p, Times(p, k - 1));
      TimesBehind(p, k - 1, q - 1);
      InflateFast.AfterTwice(Value(Times(p, k)), Total(p), Total(p) * (q - 1));
      Spread(q - 1, 1, Total(p));
      Flip3(Total(p), q);
      Flip3(Total(p), q - 1);
    } else {
      Flip3(Total(p), 0);
    }
  }

  /** Sixteen bits depend on no bits behind them. */
  lemma WindowCut(x: nat, c: nat, r: nat, n: nat)
    requires r + 16 <= n
    ensures Pow2(n) * c >= 0 && Window(x + Pow2(n) * c, r) == Window(x, r)
  {
    hide *;
    SixteenBits();
    Share(Pow2(n), c);
    Pow2Add(r, n - r);
    Pow2Add(16, n - r - 16);
    var y := x + Pow2(n) * c;
    AfterIs(x, r);
    AfterIs(y, r);
    WindowIs(x, r);
    WindowIs(y, r);
    CutNumbers(x, y, c, Pow2(r), Pow2(n - r - 16), Pow2(n));
  }

  lemma CutNumbers(x: nat, y: nat, c: nat, p: nat, q: nat, all: nat)
    requires p > 0 && q > 0 && all == p * (0x10000 * q) && y == x + all * c
    ensures 0 <= x / p && 0 <= y / p && y / p % 0x10000 == x / p % 0x10000
  {
    var a, b, d := x / p, x % p, 0x10000 * (q * c);
    assert all * c == p * d by {
      assert p * (0x10000 * q) * c == p * (0x10000 * q * c);
      assert 0x10000 * q * c == d;
    }
    DivMod(x, p);
    assert y == (a + d) * p + b by { Spread(a, d, p); }
    hide *;
    DivUnique(y, p, a + d, b);
    Multiple(a, q * c);
  }

  lemma Multiple(a: nat, m: nat)
    ensures (a + 0x10000 * m) % 0x10000 == a % 0x10000
  {
  }

  /** Two copies decide about any sixteen bits that begin in the first. */
  lemma TimesWindow(p: seq<Chunk>, k: nat, r: nat)
    requires ChunksOk(p) && 16 <= Total(p) && r < Total(p) && r + 16 <= Total(p) * k
    ensures Pow2(Total(p)) * Value(p) >= 0
    ensures Window(Value(Times(p, k)), r) == Window(Value(p) + Pow2(Total(p)) * Value(p), r)
  {
    hide *;
    var b, t := Total(p), Value(p);
    Share(Pow2(b), t);
    TimesStep(p, k);
    NoChunks();
    Flip3(b, 0);
    assert k > 0;
    var rest := Times(p, k - 1);
    ValueAdd(p, rest);
    Share(Pow2(b), Value(rest));
    if k == 1 {
      TimesStep(p, 0);
      Flip3(Pow2(b), 0);
      WindowCut(t, t, r, b);
    } else {
      TimesStep(p, k - 1);
      var rest2 := Times(p, k - 2);
      ValueAdd(p, rest2);
      Share(Pow2(b), Value(rest2));
      Pow2Add(b, b);
      Nested(Pow2(b), t, Pow2(b), Value(rest2));
      WindowCut(t + Pow2(b) * t, Value(rest2), r, b + b);
    }
  }

  /** Sixteen bits anywhere within copies of the same numbers. */
  lemma WindowInTimes(p: seq<Chunk>, k: nat, m: nat)
    requires ChunksOk(p) && 16 <= Total(p) && m + 16 <= Total(p) * k
    ensures Pow2(Total(p)) * Value(p) >= 0
    ensures Window(Value(Times(p, k)), m) == Window(Value(p) + Pow2(Total(p)) * Value(p), m % Total(p))
  {
    hide *;
    var b, q, r := Total(p), m / Total(p), m % Total(p);
    DivMod(m, b);
    Flip3(b, q);
    Flip3(b, k);
    if q >= k {
      ScaleUp2(k, q, b);
      assert false;
    }
    TimesBehind(p, k, q);
    InflateFast.AfterTwice(Value(Times(p, k)), b * q, r);
    WindowIs(Value(Times(p, k)), m);
    WindowIs(Value(Times(p, k - q)), r);
    Spread(k - q, q, b);
    Flip3(b, k - q);
    TimesWindow(p, k - q, r);
  }

  lemma {:induction false} SymbolsOfSame(z: Codes, x: Coded, k: nat)
    requires HasCodes(z, seq(k, _ => x)) && AllOk(seq(k, _ => x)) && HasCode(z, x) && FormOk(x)
    requires x.Pair? ==> PairOk(x)
    ensures SymbolChunks(z, seq(k, _ => x)) == Times(TokenChunks(z, x), k)
    decreases k
  {
    hide *;
    var xs := seq(k, _ => x);
    SymbolsStep(z, xs);
    TimesStep(TokenChunks(z, x), k);
    if k > 0 {
      assert xs[1..] == seq(k - 1, _ => x);
      SymbolsOfSame(z, x, k - 1);
    }
  }

  /* ---- the entry that is read ---- */

  lemma SameForms(t: Token, n: nat, k: nat)
    requires k <= n
    ensures FormsOf(seq(n, _ => t))[..k] == seq(k, _ => FormOf(t)) && FormsOf(seq(n, _ => t)) == seq(n, _ => FormOf(t))
  {
    hide FormOf;
  }

  lemma SameSound(t: Token, n: nat, maxDist: nat)
    requires Sound(t, maxDist)
    ensures AllSound(seq(n, _ => t), maxDist)
  {
  }

  lemma PutEven(a: Snap, b: Snap)
    requires InPairs(a) && (InPairs(a) ==> InPairs(b))
    ensures b.pending % 2 == 0 && 8 * b.pending <= b.used
  {
  }

  /** What has been sent before, in front of the bytes pending. */
  lemma BeforeIs(s: Sender, a: Snap, cs: seq<Chunk>)
    requires s.Open() && BitsOn(a, s.Now(), cs)
    ensures s.pending <= s.pending_buf.Length && s.bi_buf < Pow2(s.bi_valid)
    ensures ChunksOk(a.sent) && Held(s.out + s.pending_buf[..s.pending], s.bi_buf) == Value(a.sent + cs)
    ensures Total(a.sent) == 8 * |s.out| + a.used && s.Now().used == a.used + Total(cs)
    ensures ChunksOk(cs) && s.Now().pending == s.pending
  {
    hide *;
    s.OpenIs();
    s.ValidIs();
    s.NowIs();
    s.BytesAre();
    BitsOnIs(a, s.Now(), cs);
    TotalAdd(a.sent, cs);
    ChunksOkParts(a.sent, cs);
  }

  lemma ChunksOkParts(a: seq<Chunk>, b: seq<Chunk>)
    requires ChunksOk(a + b)
    ensures ChunksOk(a) && ChunksOk(b)
  {
    var all := a + b;
    assert forall k :: 0 <= k < |a| ==> all[k] == a[k];
    assert forall k :: 0 <= k < |b| ==> all[|a| + k] == b[k];
    hide ChunkOk;
  }

  /** The sixteen bits that stand where entry k of the distances was, behind k copies of the numbers p. */
  lemma EntryWindow(s: Sender, a: Snap, n: nat, k: nat, p: seq<Chunk>)
    requires s.Open() && s.pending_buf.Length == 4 * n && n % 2 == 0 && InPairs(a) && a.used <= n && k < n
    requires BitsOn(a, s.Now(), Times(p, k)) && s.Now().pending > n + 2 * k && 16 <= Total(p)
    ensures Pow2(Total(p)) * Value(p) >= 0
    ensures DistAt(s.pending_buf[..], n, k)
            == Window(Value(p) + Pow2(Total(p)) * Value(p), (8 * (n + 2 * k) - a.used) % Total(p))
  {
    hide *;
    var cs := Times(p, k);
    var j, m := n + 2 * k, 8 * (n + 2 * k) - a.used;
    BeforeIs(s, a, cs);
    BitsOnIs(a, s.Now(), cs);
    PutEven(a, s.Now());
    TimesTotal(p, k);
    assert m + 16 <= Total(p) * k;
    Flip3(Total(p), 0);
    PartOk(p, k);
    WindowInTimes(p, k, m);
    WindowBehind(a.sent, cs, m);
    var bytes := s.out + s.pending_buf[..s.pending];
    TwoBytes(bytes, s.bi_buf, |s.out| + j);
    assert bytes[|s.out| + j] == s.pending_buf[..][j] && bytes[|s.out| + j + 1] == s.pending_buf[..][j + 1];
    DistIs(s.pending_buf[..], n, k);
  }

  lemma WindowBehind(before: seq<Chunk>, cs: seq<Chunk>, m: nat)
    requires ChunksOk(before)
    ensures Window(Value(before + cs), Total(before) + m) == Window(Value(cs), m)
  {
    hide *;
    ValueBehind(before, cs);
    InflateFast.AfterTwice(Value(before + cs), Total(before), m);
    WindowIs(Value(before + cs), Total(before) + m);
    WindowIs(Value(cs), m);
  }

  /** The same for copies of a match. */
  lemma EntryIs(s: Sender, a: Snap, n: nat, count: nat, t: Token, k: nat)
    requires s.Open() && s.pending_buf.Length == 4 * n && n % 2 == 0 && InPairs(a) && a.used <= n
    requires k < count <= n && Sound(t, 32768) && t.Match? && 16 <= FixedSize(FormOf(t))
    requires var xs := FormsOf(seq(count, _ => t));
             HasCodes(FixedCodes(), xs) && AllOk(xs) && Overtaken(n, a, s.Now(), FixedCodes(), xs, k)
    ensures var x := FormOf(t);
            && HasCode(FixedCodes(), x) && FormOk(x) && PairOk(x)
            && var p := TokenChunks(FixedCodes(), x);
               && Pow2(FixedSize(x)) * Value(p) >= 0
               && DistAt(s.pending_buf[..], n, k)
                  == Window(Value(p) + Pow2(FixedSize(x)) * Value(p), (8 * (n + 2 * k) - a.used) % FixedSize(x))
  {
    hide *;
    var x, z := FormOf(t), FixedCodes();
    FixedSizeBound(t, 32768);
    FixedSizeIs(x);
    MatchSize(t);
    OvertakenIs(n, a, s.Now(), z, FormsOf(seq(count, _ => t)), k);
    SameForms(t, count, k);
    SymbolsOfSame(z, x, k);
    EntryWindow(s, a, n, k, TokenChunks(z, x));
  }

  lemma PartOk(p: seq<Chunk>, k: nat)
    requires ChunksOk(Times(p, k)) && k > 0
    ensures ChunksOk(p)
  {
    TimesStep(p, k);
    hide *;
    ChunksOkParts(p, Times(p, k - 1));
  }

  lemma DistIs(mem: seq<Byte>, n: nat, k: nat)
    requires |mem| == 4 * n && k < n
    ensures DistAt(mem, n, k) == var low: nat, high: nat := mem[n + 2 * k], mem[n + 2 * k + 1]; low + 0x100 * high
  {
  }

  lemma MatchSize(t: Token)
    requires t.Match? && Sound(t, 32768)
    ensures FormOf(t).Pair? && PairOk(FormOf(t))
  {
    hide *;
    SoundIs(t, 32768);
    MatchForm(t.distance, t.length - 3, FormOf(t));
  }

  /* ---- two matches that take more than three bytes ---- */

  lemma {:induction false} CountRuns(lens: seq<nat>, n: nat, l: nat, c: nat)
    ensures Count(lens + seq(n, _ => l), c) == Count(lens, c) + if l == c then n else 0
    decreases n
  {
    var run: seq<nat> := seq(n, _ => l);
    if n == 0 {
      assert lens + run == lens;
    } else {
      assert lens + run == lens + seq(n - 1, _ => l) + [l];
      hide Count;
      CountPush(lens + seq(n - 1, _ => l), l, c);
      CountRuns(lens, n - 1, l, c);
    }
  }

  /** The fixed codes of the last eight symbols. */
  lemma LastCodes(n: nat)
    requires n < 8
    ensures |FixedLens()| == 288 && CodeOf(FixedLens(), 280 + n) == 0xC0 + n && FixedLens()[280 + n] == 8
  {
    var none: seq<nat> := [];
    var a, b, c: seq<nat> := seq(144, _ => 8), seq(112, _ => 9), seq(24, _ => 7);
    var lens := FixedLens();
    FixedAre(a, b, c);
    FixedAt(280 + n);
    assert none + a == a && lens[..280 + n] == a + b + c + seq(n, _ => 8);
    forall l: nat
      ensures Count(lens, l) == (if l == 8 then 152 else if l == 9 then 112 else if l == 7 then 24 else 0)
    {
      Runs(a, b, c, 8, l);
    }
    Runs(a, b, c, n, 8);
    hide *;
    FirstCodeStep(lens, 2);
    FirstCodeStep(lens, 3);
    FirstCodeStep(lens, 4);
    FirstCodeStep(lens, 5);
    FirstCodeStep(lens, 6);
    FirstCodeStep(lens, 7);
    FirstCodeStep(lens, 8);
    CodeOfIs(lens, 280 + n);
  }

  lemma CodeOfIs(lens: seq<nat>, s: nat)
    requires s < |lens|
    ensures CodeOf(lens, s) == FirstCode(lens, lens[s]) + Count(lens[..s], lens[s])
  {
  }

  lemma Runs(a: seq<nat>, b: seq<nat>, c: seq<nat>, n: nat, l: nat)
    requires a == seq(144, _ => 8) && b == seq(112, _ => 9) && c == seq(24, _ => 7)
    ensures Count(a + b + c + seq(n, _ => 8), l)
            == (if l == 8 then 144 + n else if l == 9 then 112 else if l == 7 then 24 else 0)
  {
    var none: seq<nat> := [];
    assert none + a == a;
    CountRuns(none, 144, 8, l);
    CountRuns(a, 112, 9, l);
    CountRuns(a + b, 24, 7, l);
    CountRuns(a + b + c, n, 8, l);
    assert Count(none, l) == 0;
  }

  /** The bits of a pair, its last symbols first. */
  lemma PairValue(x: Coded, l: nat, d: nat)
    requires x.Pair? && 280 <= x.lsym <= 285 && x.dsym < 30 && FormOk(x)
    requires l == Rev(0xC0 + x.lsym - 280, 8) && d == Rev(x.dsym, 5)
    ensures HasCode(FixedCodes(), x) && PairOk(x) && FixedSize(x) == 13 + LengthExtra(x.lsym) + DistExtra(x.dsym)
    ensures Pow2(LengthExtra(x.lsym)) * (d + 32 * x.dextra) >= 0
    ensures Value(TokenChunks(FixedCodes(), x))
            == l + 256 * (x.lextra + Pow2(LengthExtra(x.lsym)) * (d + 32 * x.dextra))
  {
    hide *;
    var z := FixedCodes();
    FixedCodesAre();
    FixedSizeIs(x);
    SizeCases(x);
    TokenChunksAre(z, x);
    LastCodes(x.lsym - 280);
    DistCodeOf(x.dsym);
    FixedAt(x.dsym);
    CodeChunkIs(z.lens, x.lsym);
    CodeChunkIs(z.dists, x.dsym);
    var a, b := [CodeChunk(z.lens, x.lsym)], ExtraChunks(x.lextra, LengthExtra(x.lsym));
    var c, e := [CodeChunk(z.dists, x.dsym)], ExtraChunks(x.dextra, DistExtra(x.dsym));
    assert a + b + c + e == a + (b + (c + e));
    FivePower();
    SixteenBits();
    NoChunks();
    ExtraAdds(x.dextra, DistExtra(x.dsym), []);
    assert e + [] == e;
    OneChunk(CodeChunk(z.dists, x.dsym));
    ValueAdd(c, e);
    ExtraAdds(x.lextra, LengthExtra(x.lsym), c + e);
    OneChunk(CodeChunk(z.lens, x.lsym));
    ValueAdd(a, b + (c + e));
    Flip3(Pow2(DistExtra(x.dsym)), 0);
  }

  lemma ExtraAdds(v: nat, n: nat, t: seq<Chunk>)
    requires v < Pow2(n)
    ensures Pow2(n) * Value(t) >= 0 && Value(ExtraChunks(v, n) + t) == v + Pow2(n) * Value(t)
  {
    hide *;
    ExtraChunksAre(v, n);
    NoPower();
    Share(Pow2(n), Value(t));
    if n == 0 {
      assert ExtraChunks(v, n) + t == t;
      Flip3(1, Value(t));
    } else {
      OneChunk(Chunk(v, n));
      ValueAdd([Chunk(v, n)], t);
    }
  }

  /** The match of 140 bytes at distance 257. */
  function Near(): Token {
    Match(257, 140)
  }

  /** The match of 258 bytes at distance 20000. */
  function Far(): Token {
    Match(20000, 258)
  }

  lemma NearForm()
    ensures FormOf(Near()) == Pair(281, 9, 16, 0) && FormOk(Pair(281, 9, 16, 0)) && Sound(Near(), 257)
    ensures LengthExtra(281) == 5 && DistExtra(16) == 7
  {
    LengthCodeIs(24, 137);
    LastLength(137);
    DistCodeIs(16, 256);
    MatchFormIs(257, 137);
    ExtraPowers();
    hide Pow2;
  }

  lemma FarForm()
    ensures FormOf(Far()) == Pair(285, 0, 28, 3615) && FormOk(Pair(285, 0, 28, 3615)) && Sound(Far(), 20000)
    ensures LengthExtra(285) == 0 && DistExtra(28) == 13
  {
    LastLength(255);
    DistStarts(28);
    DistCodeIs(28, 19999);
    MatchFormIs(20000, 255);
    ExtraPowers();
    NoPower();
    hide Pow2;
  }

  lemma RevBit(bit: nat, rest: nat, n: nat)
    requires bit < 2
    ensures Rev(bit + 2 * rest, n + 1) == (if bit == 1 then Pow2(n) else 0) + Rev(rest, n) && Rev(0, 0) == 0
  {
    var x := bit + 2 * rest;
    RevStep(x, n + 1);
    assert x % 2 == bit && x / 2 == rest;
  }

  lemma SmallPowers8()
    ensures Pow2(0) == 1 && Pow2(1) == 2 && Pow2(2) == 4 && Pow2(3) == 8 && Pow2(4) == 16 && Pow2(5) == 32
    ensures Pow2(6) == 64 && Pow2(7) == 128
  {
  }

  lemma NearReversed()
    ensures Rev(0xC1, 8) == 131 && Rev(16, 5) == 1
  {
    hide *;
    SmallPowers8();
    RevBit(1, 96, 7);
    RevBit(0, 48, 6);
    RevBit(0, 24, 5);
    RevBit(0, 12, 4);
    RevBit(0, 6, 3);
    RevBit(0, 3, 2);
    RevBit(1, 1, 1);
    RevBit(1, 0, 0);
    RevBit(0, 8, 4);
    RevBit(0, 4, 3);
    RevBit(0, 2, 2);
    RevBit(0, 1, 1);
    RevBit(1, 0, 0);
  }

  lemma FarReversed()
    ensures Rev(0xC5, 8) == 163 && Rev(28, 5) == 7
  {
    hide *;
    SmallPowers8();
    RevBit(1, 98, 7);
    RevBit(0, 49, 6);
    RevBit(1, 24, 5);
    RevBit(0, 12, 4);
    RevBit(0, 6, 3);
    RevBit(0, 3, 2);
    RevBit(1, 1, 1);
    RevBit(1, 0, 0);
    RevBit(0, 14, 4);
    RevBit(0, 7, 3);
    RevBit(1, 3, 2);
    RevBit(1, 1, 1);
    RevBit(1, 0, 0);
  }

  lemma NearValue()
    ensures var x := FormOf(Near());
            && HasCode(FixedCodes(), x) && FormOk(x) && PairOk(x) && FixedSize(x) == 25
            && Value(TokenChunks(FixedCodes(), x)) == 10627
  {
    NearForm();
    ExtraPowers();
    hide *;
    NearReversed();
    PairValue(Pair(281, 9, 16, 0), 131, 1);
  }

  lemma FarValue()
    ensures var x := FormOf(Far());
            && HasCode(FixedCodes(), x) && FormOk(x) && PairOk(x) && FixedSize(x) == 26
            && Value(TokenChunks(FixedCodes(), x)) == 29616035
  {
    FarForm();
    NoPower();
    hide *;
    FarReversed();
    PairValue(Pair(285, 0, 28, 3615), 163, 7);
  }

  /* ---- the exact condition ---- */

  lemma {:induction false} SameBits(t: Token, n: nat, k: nat)
    requires k <= n
    ensures FixedSize(FormOf(t)) * k >= 0 && FixedBits(seq(n, _ => t)[..k]) == FixedSize(FormOf(t)) * k
    decreases k
  {
    hide *;
    var tokens := seq(n, _ => t);
    NoFixedBits();
    assert tokens[..0] == [];
    Flip3(FixedSize(FormOf(t)), k);
    if k > 0 {
      SameBits(t, n, k - 1);
      FixedBitsStep(tokens, k - 1);
      Flip3(FixedSize(FormOf(t)), k - 1);
      Spread(k - 1, 1, FixedSize(FormOf(t)));
    }
  }

  /** In time or not, for copies of one token. */
  lemma SameInTime(n: nat, used: nat, t: Token, count: nat, k: nat)
    requires AllOk(FormsOf(seq(count, _ => t))) && HasCodes(FixedCodes(), FormsOf(seq(count, _ => t))) && k < count
    ensures FixedSize(FormOf(t)) * k >= 0
    ensures InTime(n, used, FixedCodes(), FormsOf(seq(count, _ => t)), k)
            <==> Put(used + FixedSize(FormOf(t)) * k) <= n + 2 * k
  {
    hide *;
    var tokens := seq(count, _ => t);
    SameBits(t, count, k);
    FixedCostTo(tokens, k);
    InTimeIs(n, used, FixedCodes(), FormsOf(tokens), k);
  }

  /** A block of matches of 25 bits is not read in time. */
  lemma NearLate(n: nat, used: nat)
    requires 64 <= n
    ensures !InTimeAll(n, used, seq(n - 1, _ => Near()))
  {
    hide *;
    var tokens := seq(n - 1, _ => Near());
    NearForm();
    NearValue();
    SameSound(Near(), n - 1, 257);
    TokensSound(tokens, 257);
    InTimeAllIs(n, used, tokens);
    ClearIs(n, used, FixedCodes(), FormsOf(tokens));
    SameInTime(n, used, Near(), n - 1, n - 2);
    PutBound(used + 25 * (n - 2));
    assert !InTime(n, used, FixedCodes(), FormsOf(tokens), n - 2);
  }

  /** With the fixed codes every block is read in time exactly if no distance is above 256. */
  lemma InTimeIff(n: nat, maxDist: nat)
    requires 64 <= n && maxDist <= 32768
    ensures (forall tokens: seq<Token>, used: nat ::
               |tokens| < n && AllSound(tokens, maxDist) && used <= 10 ==> InTimeAll(n, used, tokens))
            <==> maxDist <= 256
  {
    hide *;
    if maxDist <= 256 {
      forall tokens: seq<Token>, used: nat | |tokens| < n && AllSound(tokens, maxDist) && used <= 10
        ensures InTimeAll(n, used, tokens)
      {
        NearInTime(n, used, tokens, maxDist);
      }
    } else {
      NearForm();
      SoundMore(Near(), 257, maxDist);
      SameSound(Near(), n - 1, maxDist);
      NearLate(n, 3);
      assert |seq(n - 1, _ => Near())| < n;
    }
  }

  lemma SoundMore(t: Token, d: nat, maxDist: nat)
    requires Sound(t, d) && d <= maxDist
    ensures Sound(t, maxDist)
  {
  }

  /** No sixteen bits of h that begin in the first n make w. */
  predicate NoneAt(h: nat, n: nat, w: nat)
    decreases n
  {
    n == 0 || (h % 0x10000 != w && NoneAt(h / 2, n - 1, w))
  }

  lemma {:induction false} NoneAtIs(h: nat, n: nat, w: nat, r: nat)
    requires NoneAt(h, n, w) && r < n
    ensures Window(h, r) != w
    decreases r
  {
    WindowIs(h, r);
    AfterNone(h);
    if r > 0 {
      assert NoneAt(h / 2, n - 1, w);
      NoneAtIs(h / 2, n - 1, w, r - 1);
      HalfAfter(h, r);
      WindowIs(h / 2, r - 1);
    }
  }

  lemma HalfAfter(h: nat, r: nat)
    requires r > 0
    ensures After(h / 2, r - 1) == After(h, r)
  {
    hide *;
    SmallPowers8();
    AfterIs(h, 1);
    InflateFast.AfterTwice(h, 1, r - 1);
  }

  lemma NoneLeft(h: nat, w: nat)
    ensures NoneAt(h, 0, w)
  {
  }

  lemma NoneFive(h: nat, n: nat, w: nat)
    requires h % 0x10000 != w && h / 2 % 0x10000 != w && h / 4 % 0x10000 != w && h / 8 % 0x10000 != w
    requires h / 16 % 0x10000 != w && NoneAt(h / 32, n, w)
    ensures NoneAt(h, n + 5, w)
  {
    assert h / 2 / 2 == h / 4 && h / 4 / 2 == h / 8 && h / 8 / 2 == h / 16 && h / 16 / 2 == h / 32;
    assert NoneAt(h / 16, n + 1, w);
    assert NoneAt(h / 8, n + 2, w);
    assert NoneAt(h / 4, n + 3, w);
  }

  lemma NearNowhere()
    ensures NoneAt(356582959491, 25, 257) && Pow2(25) == 33554432
  {
    SmallPowers8();
    Pow2Add(8, 8);
    Pow2Add(16, 8);
    Pow2Add(24, 1);
    hide *;
    NoneLeft(10627, 257);
    NoneFive(340064, 0, 257);
    NoneFive(10882048, 5, 257);
    NoneFive(348225546, 10, 257);
    NoneFive(11143217484, 15, 257);
    NoneFive(356582959491, 20, 257);
  }

  /** Copies of the match at distance 257: where the output has come to an entry, the distance read is another one. */
  lemma NearSpoiled(s: Sender, a: Snap, n: nat, count: nat, k: nat)
    requires s.Open() && s.pending_buf.Length == 4 * n && n % 2 == 0 && InPairs(a) && a.used <= n
    requires k < count <= n
    requires var xs := FormsOf(seq(count, _ => Near()));
             HasCodes(FixedCodes(), xs) && AllOk(xs) && Overtaken(n, a, s.Now(), FixedCodes(), xs, k)
    ensures DistAt(s.pending_buf[..], n, k) != 257
  {
    hide *;
    NearForm();
    NearValue();
    NearIs();
    SoundMore(Near(), 257, 32768);
    EntryIs(s, a, n, count, Near(), k);
    NearNowhere();
    assert 10627 + Pow2(25) * 10627 == 356582959491;
    var r := (8 * (n + 2 * k) - a.used) % 25;
    NoneAtIs(356582959491, 25, 257, r);
  }

  lemma NearIs()
    ensures Near() == Match(257, 140) && Far() == Match(20000, 258)
  {
  }

  /** A full block of matches of 258 bytes at distance 20000, in a buffer for 128 tokens: the output comes to the entry
      of token 104, and the distance read there is 34767. */
  lemma FarSpoiled(s: Sender, a: Snap, k: nat)
    requires s.Open() && s.pending_buf.Length == 4 * 128 && InPairs(a) && a.used == 3 && k < 127
    requires var xs := FormsOf(seq(127, _ => Far()));
             HasCodes(FixedCodes(), xs) && AllOk(xs) && Overtaken(128, a, s.Now(), FixedCodes(), xs, k)
    ensures k == 104 && DistAt(s.pending_buf[..], 128, k) == 34767
  {
    hide *;
    FarForm();
    FarValue();
    NearIs();
    SoundMore(Far(), 20000, 32768);
    OvertakenIs(128, a, s.Now(), FixedCodes(), FormsOf(seq(127, _ => Far())), k);
    SameInTime(128, 3, Far(), 127, k);
    SameInTime(128, 3, Far(), 127, 104);
    FarPlace(k);
    FarPlace(104);
    EntryIs(s, a, 128, 127, Far(), k);
    FarWindow();
  }

  lemma FarPlace(k: nat)
    requires k <= 104
    ensures Put(3 + 26 * k) <= 128 + 2 * k <==> k < 104
  {
  }

  lemma FarWindow()
    ensures Pow2(26) * 29616035 >= 0 && Window(29616035 + Pow2(26) * 29616035, 7) == 34767
  {
    SmallPowers8();
    Pow2Add(8, 8);
    Pow2Add(16, 8);
    Pow2Add(24, 2);
    AfterIs(29616035 + Pow2(26) * 29616035, 7);
    hide Pow2;
    WindowIs(29616035 + Pow2(26) * 29616035, 7);
  }
}
