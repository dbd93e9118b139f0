/** The string matching of deflate: a sliding window, hash chains, and the tokens they yield. */
module Deflate {
  import opened SetSums
  import opened MachineInts
  import opened RollingHash
  import opened Lz77
  import opened HashChains
  import opened DeflateText
  import opened DeflateSender
  import DeflateTrees
  import opened DeflateOverlay
  import opened DeflateClear
  import opened DeflateStream
  import InflateStream

  const MIN_LOOKAHEAD := 262

  lemma Lookahead()
    ensures MIN_LOOKAHEAD == 262 && MIN_MATCH == 3 && MAX_MATCH == 258
  {
  }

  /** Whatever is ready, the bytes at str and str + 1 have been shifted into the hash if a string can be inserted
      there. */
  ghost predicate RollingAt(z: Sizes, w: seq<Byte>, str: int, ahead: int, ins_h: nat) {
    ahead >= 3 ==> 0 <= str && str + 1 < |w| && Rolled(z, ins_h, w[str], w[str + 1])
  }

  lemma RollingStart(z: Sizes, w: seq<Byte>, str: nat, ahead: int)
    requires SizesOk(z) && str + 1 < |w|
    ensures RollingAt(z, w, str, ahead, UpdateHash(z, w[str], w[str + 1]))
  {
    RolledStart(z, w[str], w[str + 1]);
  }

  lemma RollingFew(z: Sizes, w: seq<Byte>, str: int, ahead: int, ins_h: nat)
    requires ahead < 3
    ensures RollingAt(z, w, str, ahead, ins_h)
  {
  }

  /** Shifting in the third byte gives the hash of the string at str and is ready for the next one. */
  lemma RollingNext(z: Sizes, w: seq<Byte>, str: nat, ahead: int, ins_h: nat)
    requires SizesOk(z) && RollingAt(z, w, str, ahead, ins_h) && ahead >= 3 && str + 2 < |w|
    ensures UpdateHash(z, ins_h, w[str + 2]) == HashAt(z, w, str)
    ensures RollingAt(z, w, str + 1, ahead - 1, UpdateHash(z, ins_h, w[str + 2]))
  {
    RolledGives(z, ins_h, w[str], w[str + 1], w[str + 2]);
  }

  lemma RollingSame(z: Sizes, w: seq<Byte>, w': seq<Byte>, str: int, str': int, ahead: int, ins_h: nat)
    requires RollingAt(z, w, str, ahead, ins_h) && 0 <= str' && (ahead >= 3 ==> str' + 1 < |w'|)
    requires ahead >= 3 && 0 <= str && str + 1 < |w| ==> w'[str'] == w[str] && w'[str' + 1] == w[str + 1]
    ensures RollingAt(z, w', str', ahead, ins_h)
  {
  }

  const Z_NO_FLUSH := 0
  const Z_PARTIAL_FLUSH := 1
  const Z_FULL_FLUSH := 3
  const Z_FINISH := 4
  const Z_BLOCK := 5
  const TOO_FAR := 4096

  lemma FlushModes()
    ensures Z_NO_FLUSH == 0 && Z_PARTIAL_FLUSH == 1 && Z_FULL_FLUSH == 3 && Z_FINISH == 4 && Z_BLOCK == 5
    ensures TOO_FAR == 4096
  {
  }

  datatype BlockState = NeedMore | BlockDone | FinishStarted | FinishDone

  datatype Status = Z_OK | Z_STREAM_END | Z_BUF_ERROR | Z_STREAM_ERROR

  /** The modes of flushing, from weak to strong. */
  function Rank(flush: int): int {
    2 * flush - if flush > 4 then 9 else 0
  }

  /** The parameters that a compression level sets. */
  datatype Config = Config(goodLength: nat, maxLazy: nat, niceLength: nat, maxChain: UInt32)

  /** The parameters of each level that matches; levels up to 3 match greedily, the others lazily. */
  function Configuration(level: nat): (r: Config) {
    if level <= 1 then Config(4, 4, 8, 4)
    else if level == 2 then Config(4, 5, 16, 8)
    else if level == 3 then Config(4, 6, 32, 32)
    else if level == 4 then Config(4, 4, 16, 16)
    else if level == 5 then Config(8, 16, 32, 32)
    else if level == 6 then Config(8, 16, 128, 128)
    else if level == 7 then Config(8, 32, 128, 256)
    else if level == 8 then Config(32, 128, 258, 1024)
    else Config(32, 258, 258, 4096)
  }

  lemma SmallPowers()
    ensures Pow2(9) == 512 && Pow2(15) == 32768 && Pow2(7) == 128
  {
  }

  /** Tokens of a block sent with codes, and how many bits were in front of them in the buffer. */
  datatype CodedBlock = CodedBlock(used: nat, tokens: seq<Token>)

  /** All of them were read before the output came to them. */
  ghost predicate AllInTime(n: nat, coded: seq<CodedBlock>) {
    forall k :: 0 <= k < |coded| ==> InTimeAll(n, coded[k].used, coded[k].tokens)
  }

  /** They are the tokens of full blocks at most, with distances as the matchers make them. */
  ghost predicate Fitting(n: nat, maxDist: int, coded: seq<CodedBlock>) {
    0 <= maxDist && forall k :: 0 <= k < |coded| ==> FitsBlock(n, maxDist, coded[k])
  }

  ghost predicate FitsBlock(n: nat, maxDist: nat, c: CodedBlock) {
    c.used <= 10 && |c.tokens| < n && AllSound(c.tokens, maxDist)
  }

  lemma NoneCoded(n: nat, maxDist: nat)
    ensures AllInTime(n, []) && Fitting(n, maxDist, [])
  {
  }

  lemma CodedPush(n: nat, maxDist: nat, coded: seq<CodedBlock>, c: CodedBlock)
    requires Fitting(n, maxDist, coded) && c.used <= 10 && |c.tokens| < n && AllSound(c.tokens, maxDist)
    ensures Fitting(n, maxDist, coded + [c])
    ensures AllInTime(n, coded + [c]) <==> AllInTime(n, coded) && InTimeAll(n, c.used, c.tokens)
  {
    hide AllSound, InTimeAll;
    var all := coded + [c];
    assert all[|coded|] == c && forall k :: 0 <= k < |coded| ==> all[k] == coded[k];
  }

  class DeflateState {
    const level: nat
    const sizes: Sizes
    const w_size: nat
    const window: array<Byte>
    const prev: array<UInt16>
    const head: array<UInt16>
    const lit_bufsize: nat
    const config: Config
    const filtered: bool
    const fixedOnly: bool
    // the buffer of output and tokens, and what has been sent
    const sender: Sender
    // the input not yet read, and the room for output
    var next_in: seq<Byte>
    var avail_out: nat
    // how many bytes each block to come is found to take with codes of its own
    var estimates: seq<nat>
    // whether the output came to a token before it was read
    var lost: bool
    // whether the last block has been sent
    var finished: bool
    var last_flush: int
    var ins_h: nat
    var block_start: int
    var match_length: nat
    var prev_match: UInt32
    var match_available: bool
    var strstart: nat
    var match_start: UInt32
    var lookahead: nat
    var prev_length: nat
    var last_lit: nat
    var insert: nat
    var high_water: nat
    /** All bytes read so far; the window begins base bytes into them. */
    ghost var text: seq<Byte>
    ghost var base: nat
    /** The window positions inserted into the hash chains. */
    ghost var ins: set<nat>
    /** The tokens handed on with earlier blocks. */
    ghost var flushed: seq<Token>
    ghost var cut: Cut
    /** The blocks gone out with the fixed codes, a last one included of which a token was lost. */
    ghost var coded: seq<CodedBlock>
    /** The blocks sent. */
    ghost var blocks: seq<InflateStream.Block>

    /** A compressor at the start of a stream. */
    constructor (level: nat, w_bits: nat, memLevel: nat, filtered: bool, fixedOnly: bool)
      requires 1 <= level <= 9 && 9 <= w_bits <= 15 && 1 <= memLevel <= 9
      ensures Valid() && this.level == level && next_in == [] && text == [] && flushed == [] && Held() == 0
      ensures strstart == 0 && cut == Cut(0, 0) && !finished && this.fixedOnly == fixedOnly && w_size == Pow2(w_bits)
      ensures fresh(sender) && fresh(sender.pending_buf) && sender.pending == 0 && sender.out == [] && !lost
      ensures fresh(window) && fresh(prev) && fresh(head) && lit_bufsize == Pow2(memLevel + 6)
    {
      hide *;
      Lookahead();
      var out := new Sender(4 * Pow2(memLevel + 6));
      Pow2Grows(9, w_bits);
      Pow2Grows(w_bits, 15);
      Pow2Grows(7, memLevel + 6);
      SmallPowers();
      this.level, this.filtered, this.fixedOnly, config := level, filtered, fixedOnly, Configuration(level);
      sender := out;
      sizes := Sizes(Pow2(w_bits), memLevel + 7, (memLevel + 7 + 2) / 3);
      w_size := Pow2(w_bits);
      window := new Byte[2 * Pow2(w_bits)];
      prev := new UInt16[Pow2(w_bits)];
      head := new UInt16[Pow2(memLevel + 7)](i => 0);
      lit_bufsize := Pow2(memLevel + 6);
      next_in, avail_out, estimates, lost, last_flush := [], 0, [], false, Z_NO_FLUSH;
      strstart, block_start, lookahead, insert, high_water, last_lit := 0, 0, 0, 0, 0, 0;
      match_length, prev_length, match_available := MIN_MATCH - 1, MIN_MATCH - 1, false;
      ins_h, match_start, prev_match := 0, 0, 0;
      text, base, ins, flushed, cut, blocks, finished := [], 0, {}, [], Cut(0, 0), [], false;
      coded := [];
      new;
      SizesMade(w_bits, memLevel);
      Begins();
    }

    lemma SizesMade(w_bits: nat, memLevel: nat)
      requires 9 <= w_bits <= 15 && 1 <= memLevel <= 9
      ensures SizesOk(Sizes(Pow2(w_bits), memLevel + 7, (memLevel + 7 + 2) / 3))
    {
      SmallPowers();
      Pow2Grows(9, w_bits);
      Pow2Grows(w_bits, 15);
    }

    /** The bytes not yet passed by. */
    ghost function Left(): nat
      reads `lookahead, `next_in
    {
      lookahead + |next_in|
    }

    ghost predicate Shape() {
      && SizesOk(sizes) && w_size == sizes.wsize
      && window.Length == 2 * w_size && prev.Length == w_size && head.Length == Pow2(sizes.hashBits)
      && sender.pending_buf.Length == 4 * lit_bufsize && lit_bufsize >= 64
      && window != sender.pending_buf && prev != head
    }

    function MaxDist(): int {
      w_size - MIN_LOOKAHEAD
    }

    ghost predicate Windowed()
      reads window, `text, `base, `cut, `strstart, `lookahead
    {
      Shape() && cut.bytes <= base && InWindow(window[..], text, base, strstart + lookahead)
    }

    /** The chains hold every position inserted; the last insert positions before strstart still wait. */
    ghost predicate Chained()
      reads window, prev, head, `strstart, `lookahead, `insert, `ins
    {
      && Shape() && insert <= strstart && insert <= 2
      && Chains(sizes, window[..], head[..], prev[..], strstart - insert, strstart + lookahead, ins)
    }

    ghost predicate ChainedTo(top: nat, limit: nat)
      reads window, prev, head, `ins
    {
      Shape() && Chains(sizes, window[..], head[..], prev[..], top, limit, ins)
    }

    ghost predicate Rolling()
      reads window, `strstart, `lookahead, `insert, `ins_h
    {
      insert == 0 ==> RollingAt(sizes, window[..], strstart, lookahead, ins_h)
    }

    /** Waiting positions lack bytes. */
    ghost predicate Caught()
      reads `insert, `lookahead
    {
      insert == 0 || lookahead + insert < 3
    }

    ghost function Block(): seq<Token>
      reads sender.pending_buf, `last_lit
    {
      if Shape() && last_lit <= lit_bufsize then TokensIn(sender.pending_buf[..], lit_bufsize, last_lit) else []
    }

    /** What has been sent gives, when it is decoded, the first start bytes of t, unless the output came to a token
        before it was read; that takes distances above 256 and more than half a buffer of tokens. */
    ghost predicate WrittenAs(t: seq<Byte>, start: int)
      reads sender, sender.pending_buf, `blocks, `finished, `lost, `coded
    {
      && sender.Valid() && (lost ==> MaxDist() > 256 && 2 * |t| > lit_bufsize)
      && (lost <==> !AllInTime(lit_bufsize, coded)) && Fitting(lit_bufsize, MaxDist(), coded)
      && (fixedOnly && !lost ==>
            && 0 <= start <= |t| && Sent(sender.sent, blocks, t[..start], finished, w_size)
            && (finished ==> sender.bi_valid == 0))
    }

    lemma WrittenIs(t: seq<Byte>, start: int)
      ensures WrittenAs(t, start) <==>
        && sender.Valid() && (lost ==> MaxDist() > 256 && 2 * |t| > lit_bufsize)
        && (lost <==> !AllInTime(lit_bufsize, coded)) && Fitting(lit_bufsize, MaxDist(), coded)
        && (fixedOnly && !lost ==>
              && 0 <= start <= |t| && Sent(sender.sent, blocks, t[..start], finished, w_size)
              && (finished ==> sender.bi_valid == 0))
    {
    }

    /** What has been tallied stands for the text up to pos. */
    ghost predicate Tallied(pos: int)
      reads sender, sender.pending_buf, `last_lit, `flushed, `cut, `text, `base, `block_start, `blocks, `finished
      reads `lost, `coded
    {
      && Shape() && last_lit <= lit_bufsize - 1 && sender.bi_valid < 8
      && TalliedUpTo(flushed, Block(), cut, text, base + block_start, pos, MaxDist())
      && WrittenAs(text, base + block_start)
    }

    lemma ShapeFacts()
      requires Shape()
      ensures SizesOk(sizes) && w_size == sizes.wsize && 512 <= w_size <= 32768
      ensures window.Length == 2 * w_size && prev.Length == w_size && head.Length == Pow2(sizes.hashBits)
      ensures sender.pending_buf.Length == 4 * lit_bufsize && lit_bufsize >= 64
      ensures window != sender.pending_buf && prev != head
      ensures MaxDist() == w_size - 262 && MIN_LOOKAHEAD == 262
    {
    }

    lemma WindowedIs()
      ensures Windowed() <==> Shape() && cut.bytes <= base && InWindow(window[..], text, base, strstart + lookahead)
    {
    }

    lemma ChainedToIs(top: nat, limit: nat)
      ensures ChainedTo(top, limit) <==> Shape() && Chains(sizes, window[..], head[..], prev[..], top, limit, ins)
    {
    }

    lemma TalliedIs(pos: int)
      ensures Tallied(pos) <==>
        && Shape() && last_lit <= lit_bufsize - 1 && sender.bi_valid < 8
        && TalliedUpTo(flushed, Block(), cut, text, base + block_start, pos, MaxDist())
        && WrittenAs(text, base + block_start)
    {
    }

    lemma ChainedIs()
      ensures Chained() <==>
        Shape() && insert <= strstart && insert <= 2 && Chains(sizes, window[..], head[..], prev[..],
              strstart - insert, strstart + lookahead, ins)
    {
    }

    lemma RollingIs()
      ensures Rolling() <==> (insert == 0 ==> RollingAt(sizes, window[..], strstart, lookahead, ins_h))
    {
    }

    lemma CaughtIs()
      ensures Caught() <==> insert == 0 || lookahead + insert < 3
    {
    }

    /* ---- reading ---- */

    /** Moves at most size bytes of input into the window at pos. */
    method ReadBuf(pos: nat, size: nat) returns (n: nat)
      requires pos + size <= window.Length
      modifies `next_in, window
      ensures n == (if |old(next_in)| < size then |old(next_in)| else size) && next_in == old(next_in)[n..]
      ensures FilledIn(old(window[..]), window[..], pos, old(next_in)[..n])
    {
      n := |next_in|;
      if n > size { n := size; }
      for i := 0 to n
        invariant next_in == old(next_in)
        invariant forall k :: 0 <= k < i ==> window[pos + k] == next_in[k]
        invariant forall k :: 0 <= k < pos ==> window[k] == old(window[k])
      {
        window[pos + i] := next_in[i];
      }
      FilledInIs(old(window[..]), window[..], pos, next_in[..n]);
      next_in := next_in[n..];
    }

    method SlideTable(table: array<UInt16>)
      modifies table
      ensures table[..] == SlidAll(old(table[..]), w_size)
    {
      var n := table.Length;
      while n > 0
        invariant 0 <= n <= table.Length
        invariant forall k :: n <= k < table.Length ==> table[k] == Slid(old(table[k]), w_size)
        invariant forall k :: 0 <= k < n ==> table[k] == old(table[k])
      {
        n := n - 1;
        var m := table[n];
        table[n] := if m >= w_size then m - w_size else 0;
      }
    }

    method MoveDown()
      requires window.Length == 2 * w_size
      modifies window
      ensures forall i :: 0 <= i < w_size ==> window[i] == old(window[..])[i + w_size]
    {
      for i := 0 to w_size
        invariant forall k :: 0 <= k < i ==> window[k] == old(window[..])[k + w_size]
        invariant forall k :: w_size <= k < 2 * w_size ==> window[k] == old(window[..])[k]
      {
        window[i] := window[i + w_size];
      }
    }

    /** Moves the upper half of the window to the lower half, and all positions with it. */
    method SlideWindow()
      requires Windowed() && Chained() && Rolling() && strstart >= w_size + MaxDist()
      modifies window, prev, head, `match_start, `strstart, `block_start, `base, `ins
      ensures Windowed() && Chained() && Rolling()
      ensures strstart == old(strstart) - w_size && base == old(base) + w_size
      ensures block_start == old(block_start) - w_size
      ensures match_start == Sub32(old(match_start), w_size)
    {
      hide *;
      WindowedIs();
      ShapeFacts();
      ChainedIs();
      RollingIs();
      ghost var w, hd, pv, top := window[..], head[..], prev[..], strstart - insert;
      InWindowSize(w, text, base, strstart + lookahead);
      MoveDown();
      InWindowSlide(w, window[..], text, base, strstart + lookahead, w_size);
      if insert == 0 {
        RollingSame(sizes, w, window[..], strstart, strstart - w_size, lookahead, ins_h);
      }
      match_start := Sub32(match_start, w_size);
      SlideTable(head);
      SlideTable(prev);
      ChainsSlide(sizes, w, window[..], hd, pv, top, strstart + lookahead, ins);
      strstart := strstart - w_size;
      block_start := block_start - w_size;
      base := base + w_size;
      ins := SlidSet(ins, w_size);
      WindowedIs();
      ChainedIs();
      RollingIs();
    }

    /* ---- inserting strings ---- */

    /** Inserts the string at str, and returns the head of its chain. */
    method InsertString(str: nat, ghost top: nat, ghost limit: nat) returns (hash_head: UInt16)
      requires Shape() && top <= str && str + 2 < limit <= window.Length
      requires Chains(sizes, window[..], head[..], prev[..], top, limit, ins)
      requires RollingAt(sizes, window[..], str, limit - str, ins_h)
      modifies prev, head, `ins_h, `ins
      ensures Chains(sizes, window[..], head[..], prev[..], str + 1, limit, ins)
      ensures RollingAt(sizes, window[..], str + 1, limit - str - 1, ins_h)
      ensures hash_head != 0 ==>
        hash_head in ins && hash_head < str && HashAt(sizes, window[..], hash_head) == HashAt(sizes, window[..], str)
      ensures str != 0 ==> str in ins
    {
      hide *;
      ShapeFacts();
      ghost var w, hd: seq<nat>, pv: seq<nat> := window[..], head[..], prev[..];
      RollingNext(sizes, w, str, limit - str, ins_h);
      ChainsInsert(sizes, w, hd, pv, top, limit, ins, str);
      ins_h := UpdateHash(sizes, ins_h, window[str + 2]);
      hash_head := head[ins_h];
      if hash_head != 0 { ChainHead(sizes, w, hd, pv, top, limit, ins, ins_h); }
      prev[str % w_size] := hash_head;
      head[ins_h] := str;
      WithPositionHas(ins, str);
      ins := WithPosition(ins, str);
      assert head[..] == hd[ins_h := str] && prev[..] == pv[str % w_size := hd[ins_h]];
    }

    lemma WithPositionHas(s: set<nat>, str: nat)
      ensures str != 0 ==> str in WithPosition(s, str)
      ensures s <= WithPosition(s, str)
    {
    }

    /** Inserts the positions that have waited for bytes, and makes the hash ready again. */
    method InsertWaiting()
      requires Windowed() && Chained() && lookahead + insert >= 3
      modifies prev, head, `ins_h, `ins, `insert
      ensures Windowed() && Chained() && Rolling() && Caught() && insert <= old(insert)
    {
      hide *;
      WindowedIs();
      ShapeFacts();
      ChainedIs();
      InWindowSize(window[..], text, base, strstart + lookahead);
      Lookahead();
      ghost var w, limit := window[..], strstart + lookahead;
      var str: nat := strstart - insert;
      ins_h := window[str];
      RollingStart(sizes, w, str, limit - str);
      ins_h := UpdateHash(sizes, ins_h, window[str + 1]);
      while insert > 0
        invariant 0 <= insert <= old(insert) && str == strstart - insert && (insert > 0 ==> limit - str >= 3)
        invariant window[..] == w && Shape() && limit == strstart + lookahead
        invariant Chains(sizes, w, head[..], prev[..], str, limit, ins) && RollingAt(sizes, w, str, limit - str, ins_h)
        decreases insert
      {
        var hash_head := InsertString(str, str, limit);
        str := str + 1;
        insert := insert - 1;
        if lookahead + insert < MIN_MATCH { break; }
      }
      Lookahead();
      ChainedIs();
      RollingIs();
      CaughtIs();
    }

    /** Zeroes bytes behind the text, so that reading past its end meets bytes that were written. */
    method ZeroTail()
      requires Windowed() && Chained() && Rolling()
      modifies window, `high_water
      ensures Windowed() && Chained() && Rolling()
    {
      hide *;
      WindowedIs();
      ShapeFacts();
      ChainedIs();
      RollingIs();
      Lookahead();
      ghost var w, limit := window[..], strstart + lookahead;
      InWindowSize(w, text, base, limit);
      var window_size := 2 * w_size;
      if high_water < window_size {
        var curr := strstart + lookahead;
        if high_water < curr {
          var init := window_size - curr;
          if init > MAX_MATCH { init := MAX_MATCH; }
          Zero(curr, init, limit);
          high_water := curr + init;
        } else if high_water < curr + MAX_MATCH {
          var init := curr + MAX_MATCH - high_water;
          if init > window_size - high_water { init := window_size - high_water; }
          Zero(high_water, init, limit);
          high_water := high_water + init;
        }
      }
      InWindowTail(w, window[..], text, base, limit);
      ChainsFill(sizes, w, window[..], head[..], prev[..], strstart - insert, limit, limit, ins);
      if insert == 0 { RollingSame(sizes, w, window[..], strstart, strstart, lookahead, ins_h); }
      WindowedIs();
      ChainedIs();
      RollingIs();
    }

    method Zero(start: nat, count: nat, ghost limit: nat)
      requires limit <= start && start + count <= window.Length
      modifies window
      ensures forall i :: 0 <= i < limit ==> window[i] == old(window[i])
    {
      for i := 0 to count
        invariant forall k :: 0 <= k < limit ==> window[k] == old(window[k])
      {
        window[start + i] := 0;
      }
    }

    /** The text has grown by what has left the input; the position in it is the same. */
    twostate predicate Advanced()
      reads this
    {
      && old(text) <= text && text + next_in == old(text) + old(next_in)
      && base + strstart == old(base) + old(strstart) && base + block_start == old(base) + old(block_start)
      && Sub32(strstart - 1, match_start) == Sub32(old(strstart) - 1, old(match_start))
      && (old(strstart) > 0 ==> strstart > 0)
    }

    lemma InputMoves(t: seq<Byte>, s: seq<Byte>, n: nat)
      requires n <= |s|
      ensures t + s == (t + s[..n]) + s[n..] && t <= t + s[..n]
    {
    }

    /** Takes input behind the text in the window. */
    method TakeInput(more: nat)
      requires Windowed() && Chained() && Rolling() && strstart + lookahead + more <= 2 * w_size && more > 0
      requires next_in != []
      modifies `next_in, window, `lookahead, `text
      ensures Windowed() && Chained() && (lookahead + insert < 3 ==> Rolling())
      ensures old(text) <= text && text + next_in == old(text) + old(next_in)
      ensures lookahead > old(lookahead) && |next_in| < |old(next_in)|
      ensures lookahead + |next_in| == old(lookahead) + |old(next_in)|
    {
      hide *;
      WindowedIs();
      ShapeFacts();
      ChainedIs();
      ghost var w, limit, input := window[..], strstart + lookahead, next_in;
      InWindowSize(w, text, base, limit);
      var n := ReadBuf(strstart + lookahead, more);
      InWindowFill(w, window[..], text, base, limit, input[..n]);
      FilledInParts(w, window[..], limit, input[..n]);
      ChainsFill(sizes, w, window[..], head[..], prev[..], strstart - insert, limit, limit + n, ins);
      InputMoves(text, input, n);
      text := text + input[..n];
      lookahead := lookahead + n;
      if lookahead + insert < 3 { RollingFew(sizes, window[..], strstart, lookahead, ins_h); }
      WindowedIs();
      ChainedIs();
      RollingIs();
    }

    /** One round of filling: slides the window if it is nearly full, and reads if there is input. */
    method FillRound() returns (more: bool)
      requires Windowed() && Chained() && Rolling() && Caught() && lookahead < MIN_LOOKAHEAD
      modifies `next_in, window, prev, head, `ins_h, `ins, `insert, `match_start, `strstart, `block_start, `base
      modifies `lookahead, `text
      ensures Windowed() && Chained() && Rolling() && Caught() && Advanced()
      ensures more ==> |next_in| < |old(next_in)| && lookahead < MIN_LOOKAHEAD
      ensures !more ==> lookahead >= MIN_LOOKAHEAD || next_in == []
      ensures strstart < w_size + MaxDist()
      ensures lookahead + |next_in| == old(lookahead + |next_in|) && lookahead >= old(lookahead)
    {
      hide *;
      WindowedIs();
      ShapeFacts();
      Lookahead();
      InWindowSize(window[..], text, base, strstart + lookahead);
      ghost var text0, input0 := text, next_in;
      var room: int := 2 * w_size - lookahead - strstart;
      if strstart >= w_size + MaxDist() {
        Sub32Moves(strstart - 1, match_start, w_size);
        SlideWindow();
        room := room + w_size;
      }
      AdvancedIs();
      if next_in == [] { return false; }
      assert room >= 2;
      TakeInput(room);
      if lookahead + insert >= MIN_MATCH { InsertWaiting(); } else { CaughtIs(); }
      AdvancedIs();
      more := lookahead < MIN_LOOKAHEAD && next_in != [];
    }

    /** Reads until there is enough lookahead or no more input, sliding the window when it is nearly full. */
    method FillWindow()
      requires Windowed() && Chained() && Rolling() && Caught() && lookahead < MIN_LOOKAHEAD
      modifies `next_in, window, prev, head, `ins_h, `ins, `insert, `match_start, `strstart, `block_start, `base
      modifies `lookahead, `text, `high_water
      ensures Windowed() && Chained() && Rolling() && Caught() && Advanced()
      ensures lookahead < MIN_LOOKAHEAD ==> next_in == []
      ensures strstart + MIN_LOOKAHEAD <= 2 * w_size
      ensures lookahead + |next_in| == old(lookahead + |next_in|) && lookahead >= old(lookahead)
    {
      hide *;
      WindowedIs();
      ShapeFacts();
      var more := FillRound();
      label First:
      while more
        invariant Windowed() && Chained() && Rolling() && Caught() && strstart < w_size + MaxDist()
        invariant more ==> lookahead < MIN_LOOKAHEAD
        invariant !more ==> lookahead >= MIN_LOOKAHEAD || next_in == []
        invariant Advanced() && lookahead + |next_in| == old(lookahead + |next_in|) && lookahead >= old(lookahead)
        decreases more, |next_in|
      {
        label Round:
        AdvancedParts();
        more := FillRound();
        AdvancedParts@Round();
        AdvancedIs();
      }
      AdvancedParts();
      ZeroTail();
      AdvancedIs();
    }

    twostate lemma AdvancedIs()
      requires old(text) <= text && text + next_in == old(text) + old(next_in)
      requires base + strstart == old(base) + old(strstart) && base + block_start == old(base) + old(block_start)
      requires Sub32(strstart - 1, match_start) == Sub32(old(strstart) - 1, old(match_start))
      requires old(strstart) > 0 ==> strstart > 0
      ensures Advanced()
    {
    }

    twostate lemma AdvancedParts()
      requires Advanced()
      ensures old(text) <= text && text + next_in == old(text) + old(next_in)
      ensures base + strstart == old(base) + old(strstart) && base + block_start == old(base) + old(block_start)
      ensures Sub32(strstart - 1, match_start) == Sub32(old(strstart) - 1, old(match_start))
      ensures old(strstart) > 0 ==> strstart > 0
    {
    }

    /* ---- searching ---- */

    /** How many bytes from scan on repeat those from match' on, given that three do: eight comparisons a round. */
    method MatchLength(scan: nat, match': nat) returns (len: nat)
      requires scan + MAX_MATCH < window.Length && SameBytes(window[..], scan, match', 3)
      ensures 3 <= len <= MAX_MATCH && SameBytes(window[..], scan, match', len)
      ensures len < MAX_MATCH ==> !SameBytes(window[..], scan, match', len + 1)
    {
      hide *;
      Lookahead();
      ghost var w := window[..];
      SameAt(w, scan, match', 3, 0);
      len := 2;
      while true
        invariant 2 <= len <= 250 && len % 8 == 2 && SameBytes(w, scan, match', len + 1)
        decreases MAX_MATCH - len
      {
        ghost var from := len;
        for step := 0 to 8
          invariant len == from + step && SameBytes(w, scan, match', len + 1)
        {
          len := len + 1;
          SameMore(w, scan, match', len);
          if window[scan + len] != window[match' + len] { return; }
        }
        if len >= MAX_MATCH { break; }
      }
      SameLess(w, scan, match', len + 1, len);
    }

    /** Position p is a place where the string at strstart may have occurred before. */
    ghost predicate Candidate(p: nat)
      reads window, `strstart, `ins
    {
      p in ins && p < strstart && HashAt(sizes, window[..], p) == HashAt(sizes, window[..], strstart)
    }

    /** No position seen so far matches more than best bytes. */
    ghost predicate NoneLonger(seen: seq<nat>, best: nat)
      reads window, `strstart
    {
      forall p :: p in seen ==> !SameBytes(window[..], strstart, p, best + 1)
    }

    lemma CandidateIs(p: nat)
      ensures Candidate(p) <==>
        p in ins && p < strstart && HashAt(sizes, window[..], p) == HashAt(sizes, window[..], strstart)
    {
    }

    /** A candidate that agrees in the first two bytes agrees in three. */
    lemma CandidateThree(p: nat)
      requires Shape() && Candidate(p) && strstart + 2 < window.Length
      requires window[p] == window[strstart] && window[p + 1] == window[strstart + 1]
      ensures SameBytes(window[..], strstart, p, 3)
    {
      ThirdByteEqual(sizes, window[p], window[p + 1], window[p + 2], window[strstart + 2]);
      SameThree(window[..], strstart, p);
    }

    lemma NoneLongerMore(seen: seq<nat>, best: nat, p: nat, best': nat)
      requires NoneLonger(seen, best) && best <= best' && !SameBytes(window[..], strstart, p, best' + 1)
      ensures NoneLonger(seen + [p], best')
    {
      forall x | x in seen + [p] ensures !SameBytes(window[..], strstart, x, best' + 1) {
        if SameBytes(window[..], strstart, x, best' + 1) { SameLess(window[..], strstart, x, best' + 1, best + 1); }
      }
    }

    lemma NotThisLong(p: nat, best: nat, k: nat)
      requires k <= best && strstart + k < window.Length && p < strstart && window[p + k] != window[strstart + k]
      ensures !SameBytes(window[..], strstart, p, best + 1)
    {
      if SameBytes(window[..], strstart, p, best + 1) { SameAt(window[..], strstart, p, best + 1, k); }
    }

    /** The best match found so far, if it beats the previous one. */
    ghost predicate Found(best: nat)
      reads window, `strstart, `match_start, `prev_length
    {
      best > prev_length ==>
        match_start < strstart && strstart - match_start <= MaxDist() && SameBytes(window[..], strstart, match_start,
              best)
    }

    /** Tries candidate p. */
    method TryCandidate(p: nat, best: nat, ghost seen: seq<nat>) returns (best': nat)
      requires Shape() && Candidate(p) && strstart + MIN_LOOKAHEAD <= window.Length && strstart - p <= MaxDist()
      requires p < 0x1_0000_0000
      requires 2 <= best <= MAX_MATCH && prev_length <= best && Found(best)
      requires (best < MAX_MATCH ==> NoneLonger(seen, best))
      modifies `match_start
      ensures best <= best' <= MAX_MATCH && Found(best') && (best' < MAX_MATCH ==> NoneLonger(seen + [p], best'))
      ensures best' > best ==> match_start == p
    {
      hide *;
      Lookahead();
      CandidateIs(p);
      best' := best;
      if window[p + best] != window[strstart + best] {
        if best < MAX_MATCH { NotThisLong(p, best, best); NoneLongerMore(seen, best, p, best); }
      } else if window[p + best - 1] != window[strstart + best - 1] {
        if best < MAX_MATCH { NotThisLong(p, best, best - 1); NoneLongerMore(seen, best, p, best); }
      } else if window[p] != window[strstart] {
        if best < MAX_MATCH { NotThisLong(p, best, 0); NoneLongerMore(seen, best, p, best); }
      } else if window[p + 1] != window[strstart + 1] {
        if best < MAX_MATCH { NotThisLong(p, best, 1); NoneLongerMore(seen, best, p, best); }
      } else {
        CandidateThree(p);
        var len := MatchLength(strstart, p);
        if len > best {
          match_start := p;
          best' := len;
          FoundIs(len);
        } else if best < MAX_MATCH {
          ShorterStill(p, len, best);
        }
        if best' < MAX_MATCH { NoneLongerMore(seen, best, p, best'); }
      }
    }

    lemma ShorterStill(p: nat, len: nat, best: nat)
      requires len <= best && !SameBytes(window[..], strstart, p, len + 1)
      ensures !SameBytes(window[..], strstart, p, best + 1)
    {
      if SameBytes(window[..], strstart, p, best + 1) { SameLess(window[..], strstart, p, best + 1, len + 1); }
    }

    lemma FoundIs(best: nat)
      ensures Found(best) <==> (best > prev_length ==>
        match_start < strstart && strstart - match_start <= MaxDist() && SameBytes(window[..], strstart, match_start,
              best))
    {
    }

    lemma NoneSeen(best: nat)
      ensures NoneLonger([], best)
    {
    }

    /** The chain continues, within reach, at another candidate. */
    lemma NextCandidate(p: nat, limit: nat)
      requires Shape() && Candidate(p) && strstart - p <= MaxDist()
      requires Chains(sizes, window[..], head[..], prev[..], strstart + 1, limit, ins)
      ensures p % w_size < prev.Length
      ensures prev[p % w_size] != 0 ==> Candidate(prev[p % w_size])
    {
      ChainNext(sizes, window[..], head[..], prev[..], strstart + 1, limit, ins, p);
    }

    /** How many candidates are tried at most: fewer if the previous match is good, and 2^32 if the count is 0. */
    function Tries(): (r: nat)
      reads `prev_length
    {
      var n := if prev_length >= config.goodLength then config.maxChain / 4 else config.maxChain;
      if n == 0 then 0x1_0000_0000 else n
    }

    /** The length of match that ends the search: one better than the previous one, and nice or all there is. */
    function Worth(): (r: nat)
      reads `prev_length, `lookahead
    {
      var nice := if config.niceLength > lookahead then lookahead else config.niceLength;
      if nice > prev_length then nice else prev_length + 1
    }

    /** No position up to here is within reach. */
    function Limit(): (r: nat)
      reads `strstart
    {
      if strstart > MaxDist() then strstart - MaxDist() else 0
    }

    /** The hash chain from first on, as far as it is within reach. */
    ghost predicate Walk(tried: seq<nat>, first: nat)
      reads prev, `strstart
    {
      && tried != [] && tried[0] == first && 0 < w_size == prev.Length
      && forall k :: 0 < k < |tried| ==> tried[k] == prev[tried[k - 1] % w_size] && tried[k] > Limit()
    }

    /** There is a reason to stop behind the last candidate tried, and was none before. */
    ghost predicate Stops(tried: seq<nat>)
      reads window, prev, `strstart, `prev_length, `lookahead
      requires tried != [] && 0 < w_size == prev.Length
    {
      var last, worth := tried[|tried| - 1], Worth();
      && (|tried| == Tries() || prev[last % w_size] <= Limit()
          || (worth <= MAX_MATCH && SameBytes(window[..], strstart, last, worth)))
      && |tried| <= Tries() && (worth <= MAX_MATCH ==> NoneLonger(tried[..|tried| - 1], worth - 1))
    }

    lemma WalkStart(first: nat)
      requires Shape()
      ensures Walk([first], first)
    {
    }

    lemma WalkNext(tried: seq<nat>, first: nat, p: nat)
      requires Walk(tried, first) && p == prev[tried[|tried| - 1] % w_size] && p > Limit()
      ensures Walk(tried + [p], first)
    {
    }

    lemma NoneWorth(tried: seq<nat>, best: nat)
      requires best < MAX_MATCH ==> NoneLonger(tried, best)
      requires best == prev_length || best < Worth()
      ensures Worth() <= MAX_MATCH ==> NoneLonger(tried, Worth() - 1)
    {
      if Worth() <= MAX_MATCH {
        forall p | p in tried ensures !SameBytes(window[..], strstart, p, Worth()) {
          ShorterStill(p, best, Worth() - 1);
        }
      }
    }

    /** A match worth stopping for. */
    lemma StopsWorth(tried: seq<nat>, p: nat, best: nat)
      requires Shape() && Found(best) && match_start == p && Worth() <= best <= MAX_MATCH && |tried| < Tries()
      requires Worth() <= MAX_MATCH ==> NoneLonger(tried, Worth() - 1)
      ensures Stops(tried + [p])
    {
      SameLess(window[..], strstart, p, best, Worth());
      assert (tried + [p])[..|tried + [p]| - 1] == tried;
    }

    lemma StopsElse(tried: seq<nat>, p: nat)
      requires Shape() && |tried| < Tries() && (|tried| + 1 == Tries() || prev[p % w_size] <= Limit())
      requires Worth() <= MAX_MATCH ==> NoneLonger(tried, Worth() - 1)
      ensures Stops(tried + [p])
    {
      assert (tried + [p])[..|tried + [p]| - 1] == tried;
    }

    /** Follows the hash chain from cur_match and returns the length of the longest match, or at least prev_length. */
    method LongestMatch(cur_match: nat, ghost limit0: nat) returns (len: nat, ghost tried: seq<nat>)
      requires Shape() && strstart + MIN_LOOKAHEAD <= window.Length && 2 <= prev_length <= MAX_MATCH
      requires Chains(sizes, window[..], head[..], prev[..], strstart + 1, limit0, ins)
      requires Candidate(cur_match) && strstart - cur_match <= MaxDist()
      modifies `match_start
      ensures Walk(tried, cur_match) && Stops(tried)
      ensures len <= lookahead && len <= MAX_MATCH && Found(len)
      ensures len >= prev_length || len == lookahead
      ensures len < lookahead && len < MAX_MATCH ==> NoneLonger(tried, len)
    {
      hide *;
      ShapeFacts();
      Lookahead();
      WalkParts();
      var chain_length := config.maxChain;
      var best_len := prev_length;
      var nice_match := config.niceLength;
      var limit := if strstart > MaxDist() then strstart - MaxDist() else 0;
      if prev_length >= config.goodLength { chain_length := chain_length / 4; }
      if nice_match > lookahead { nice_match := lookahead; }
      var cur: nat := cur_match;
      CandidateIs(cur);
      FoundIs(best_len);
      tried := [];
      NoneSeen(best_len);
      WalkStart(cur);
      assert tried + [cur] == [cur];
      while true
        invariant Candidate(cur) && cur < strstart && strstart - cur <= MaxDist()
        invariant Walk(tried + [cur], cur_match)
        invariant |tried| + (if chain_length == 0 then 0x1_0000_0000 else chain_length) == Tries()
        invariant 2 <= prev_length <= best_len <= MAX_MATCH && Found(best_len)
        invariant best_len < MAX_MATCH ==> NoneLonger(tried, best_len)
        invariant best_len == prev_length || best_len < Worth()
        decreases if chain_length == 0 then 0x1_0000_0000 else chain_length
      {
        ghost var before := tried;
        NoneWorth(before, best_len);
        var best := TryCandidate(cur, best_len, before);
        tried := before + [cur];
        CandidateIs(cur);
        if best > best_len {
          best_len := best;
          if best >= nice_match {
            StopsWorth(before, cur, best);
            break;
          }
        }
        NextCandidate(cur, limit0);
        ghost var p := cur;
        cur := prev[cur % w_size];
        if cur <= limit {
          StopsElse(before, p);
          break;
        }
        CandidateIs(cur);
        WalkNext(tried, cur_match, cur);
        chain_length := if chain_length == 0 then 0xFFFF_FFFF else chain_length - 1;
        if chain_length == 0 {
          StopsElse(before, p);
          break;
        }
      }
      len := if best_len <= lookahead then best_len else lookahead;
      FoundLess(best_len, len);
    }

    lemma WalkParts()
      ensures Tries() == (
        var n := if prev_length >= config.goodLength then config.maxChain / 4 else config.maxChain;
        if n == 0 then 0x1_0000_0000 else n)
      ensures Worth() == (
        var nice := if config.niceLength > lookahead then lookahead else config.niceLength;
        if nice > prev_length then nice else prev_length + 1)
      ensures Limit() == if strstart > MaxDist() then strstart - MaxDist() else 0
    {
    }

    lemma FoundLess(best: nat, len: nat)
      requires Found(best) && len <= best
      ensures Found(len)
    {
      if len > prev_length { SameLess(window[..], strstart, match_start, best, len); }
    }

    /* ---- one position ---- */

    /** Everything a step of the matching needs and keeps. */
    ghost predicate Ready()
      reads window, prev, head, `text, `base, `cut, `strstart, `lookahead, `insert, `ins, `ins_h
    {
      Windowed() && Chained() && Rolling() && Caught()
    }

    /** The string at strstart has been inserted if it is complete. */
    ghost predicate Visited()
      reads window, prev, head, `text, `base, `cut, `strstart, `lookahead, `insert, `ins, `ins_h
    {
      && Windowed() && Caught() && lookahead > 0 && insert <= strstart && insert <= 2
      && ChainedTo(strstart + 1 - insert, strstart + lookahead)
      && (insert == 0 ==> RollingAt(sizes, window[..], strstart + 1, lookahead - 1, ins_h))
    }

    lemma ReadyIs()
      ensures Ready() <==> Windowed() && Chained() && Rolling() && Caught()
    {
    }

    lemma VisitedIs()
      ensures Visited() <==>
        && Windowed() && Caught() && lookahead > 0 && insert <= strstart && insert <= 2
        && ChainedTo(strstart + 1 - insert, strstart + lookahead)
        && (insert == 0 ==> RollingAt(sizes, window[..], strstart + 1, lookahead - 1, ins_h))
    {
    }

    /** Inserts the string at strstart, if it is complete, and returns the earlier head of its chain. */
    method InsertHere() returns (hash_head: nat)
      requires Ready() && lookahead > 0
      modifies prev, head, `ins_h, `ins
      ensures Visited()
      ensures hash_head != 0 ==> lookahead >= 3 && insert == 0 && Candidate(hash_head) && hash_head < strstart
    {
      hide *;
      ReadyIs();
      WindowedIs();
      ChainedIs();
      RollingIs();
      CaughtIs();
      Lookahead();
      InWindowSize(window[..], text, base, strstart + lookahead);
      ghost var limit := strstart + lookahead;
      hash_head := 0;
      if lookahead >= MIN_MATCH {
        hash_head := InsertString(strstart, strstart, limit);
        CandidateIs(hash_head);
      } else {
        ChainsSkip(sizes, window[..], head[..], prev[..], strstart - insert, limit, ins, strstart + 1 - insert);
        RollingFew(sizes, window[..], strstart + 1, lookahead - 1, ins_h);
      }
      ChainedToIs(strstart + 1 - insert, limit);
      WindowedIs();
      CaughtIs();
      VisitedIs();
    }

    /** Goes on to the next position. */
    method StepOver()
      requires Visited()
      modifies `strstart, `lookahead
      ensures Ready() && strstart == old(strstart) + 1 && lookahead == old(lookahead) - 1
    {
      hide *;
      VisitedIs();
      WindowedIs();
      CaughtIs();
      ChainedToIs(strstart + 1 - insert, strstart + lookahead);
      strstart := strstart + 1;
      lookahead := lookahead - 1;
      WindowedIs();
      ChainedIs();
      RollingIs();
      CaughtIs();
      ReadyIs();
    }

    /* ---- the tally ---- */

    lemma BlockIs()
      requires Shape() && last_lit <= lit_bufsize
      ensures sender.pending_buf.Length == 4 * lit_bufsize
      ensures Block() == TokensIn(sender.pending_buf[..], lit_bufsize, last_lit)
    {
    }

    /** Enters a token behind those tallied; nothing is pending in the buffer. */
    method Tally(dist: UInt16, lc: Byte) returns (bflush: bool)
      requires Shape() && last_lit < lit_bufsize - 1 && sender.Valid() && sender.pending == 0
      modifies sender.pending_buf, `last_lit
      ensures sender.Valid() && last_lit == old(last_lit) + 1 && Block() == old(Block()) + [TokenOf(dist, lc)]
      ensures bflush <==> last_lit == lit_bufsize - 1
    {
      hide *;
      ShapeFacts();
      BlockIs();
      sender.ValidIs();
      sender.BytesAre();
      var n := lit_bufsize;
      ghost var mem: seq<Byte> := sender.pending_buf[..];
      TokensInAre(mem, n, last_lit);
      TokensPush(DistsIn(mem, n), LengthsIn(mem, n), last_lit, dist, lc);
      EntryWritten(mem, n, last_lit, dist, lc);
      var low: Byte, high: Byte := dist % 0x100, dist / 0x100;
      sender.pending_buf[n + 2 * last_lit] := low;
      sender.pending_buf[n + 2 * last_lit + 1] := high;
      sender.pending_buf[3 * n + last_lit] := lc;
      ghost var now := sender.pending_buf[..];
      assert now == mem[n + 2 * last_lit := low][n + 2 * last_lit + 1 := high][3 * n + last_lit := lc];
      last_lit := last_lit + 1;
      TokensInAre(now, n, last_lit);
      BlockIs();
      sender.BytesAre();
      sender.ValidIs();
      bflush := last_lit == lit_bufsize - 1;
    }

    /** Tallies the literal at window position i. */
    method TallyLit(i: nat) returns (bflush: bool)
      requires Windowed() && i < strstart + lookahead && Tallied(base + i) && last_lit < lit_bufsize - 1
      requires sender.pending == 0
      modifies sender.pending_buf, `last_lit
      ensures Windowed() && Tallied(base + i + 1) && (bflush <==> last_lit == lit_bufsize - 1)
      ensures last_lit == old(last_lit) + 1
    {
      hide *;
      WindowedIs();
      ShapeFacts();
      TalliedIs(base + i);
      InWindowByte(window[..], text, base, strstart + lookahead, i);
      TallyLiteral(flushed, Block(), cut, text, base + block_start, base + i, MaxDist());
      TokenLiteral(window[i]);
      WrittenIs(text, base + block_start);
      bflush := Tally(0, window[i]);
      WrittenIs(text, base + block_start);
      WindowedIs();
      TalliedIs(base + i + 1);
    }

    lemma TokenLiteral(c: Byte)
      ensures TokenOf(0, c) == Literal(c)
    {
    }

    lemma TokenMatch(d: UInt16, l: Byte)
      requires d != 0
      ensures TokenOf(d, l) == Match(d, l + 3)
    {
    }

    /** Tallies a match of length bytes from text position pos on. */
    method TallyDist(distance: nat, length: nat, ghost pos: nat) returns (bflush: bool)
      requires Shape() && Tallied(pos) && last_lit < lit_bufsize - 1
      requires 1 <= distance <= MaxDist() && MIN_MATCH <= length <= MAX_MATCH && Repeats(text, pos, distance, length)
      requires cut.bytes + distance <= pos && sender.pending == 0
      modifies sender.pending_buf, `last_lit
      ensures Tallied(pos + length) && (bflush <==> last_lit == lit_bufsize - 1)
    {
      hide *;
      ShapeFacts();
      Lookahead();
      TalliedIs(pos);
      TallyMatch(flushed, Block(), cut, text, base + block_start, pos, MaxDist(), distance, length);
      TokenMatch(distance, length - MIN_MATCH);
      WrittenIs(text, base + block_start);
      bflush := Tally(distance, length - MIN_MATCH);
      WrittenIs(text, base + block_start);
      TalliedIs(pos + length);
    }

    /** The tokens of the current block stand exactly for the stretch of window from block_start to strstart. */
    lemma BlockStands()
      requires Windowed() && Tallied(base + strstart)
      ensures Shape() && last_lit <= lit_bufsize - 1 && 0 <= base + block_start <= base + strstart <= |text|
      ensures Expand(text[..base + block_start], Block()) == text[..base + strstart]
      ensures Reaching(text[..base + block_start], Block()) && AllSound(Block(), MaxDist())
      ensures TalliedUpTo(flushed + Block(), [], cut, text, base + strstart, base + strstart, MaxDist())
      ensures block_start >= 0 ==>
        && block_start <= strstart <= window.Length
        && window[block_start..strstart] == text[base + block_start..base + strstart]
    {
      hide *;
      WindowedIs();
      ShapeFacts();
      TalliedIs(base + strstart);
      InWindowSize(window[..], text, base, strstart + lookahead);
      TallyFlush(flushed, Block(), cut, text, base + block_start, base + strstart, MaxDist());
      ExpandGrows(text[..base + block_start], Block());
      if block_start >= 0 { WindowPart(window[..], text, base, strstart + lookahead, block_start, strstart); }
    }

    /** A block whose tokens are not all read in time has distances above 256 and fills more than half the buffer. */
    lemma LateBlock(used: nat, tokens: seq<Token>, before: seq<Byte>, after: seq<Byte>)
      requires Shape() && AllSound(tokens, MaxDist()) && |tokens| < lit_bufsize && used <= 10
      requires Expand(before, tokens) == after && Reaching(before, tokens) && !InTimeAll(lit_bufsize, used, tokens)
      ensures MaxDist() > 256 && 2 * |after| > lit_bufsize
    {
      hide *;
      ShapeFacts();
      ExpandLonger(before, tokens, MaxDist());
      if MaxDist() <= 256 { NearInTime(lit_bufsize, used, tokens, MaxDist()); }
      if 2 * |tokens| <= lit_bufsize { FewInTime(lit_bufsize, used, tokens, MaxDist()); }
    }

    /** Sends the current block with the fixed codes, or stored. */
    method SendFixed(last: bool, haveBuf: bool, buf: seq<Byte>, opt_lenb: nat) returns (ghost b: InflateStream.Block)
      requires Shape() && Tallied(base + strstart) && !finished && fixedOnly && !lost && sender.pending == 0
      requires 0 <= base + block_start <= base + strstart <= |text|
      requires Expand(text[..base + block_start], Block()) == text[..base + strstart]
      requires Reaching(text[..base + block_start], Block()) && AllSound(Block(), MaxDist())
      requires haveBuf ==>
        |buf| == strstart - block_start <= 0xffff && text[..base + block_start] + buf == text[..base + strstart]
      modifies `blocks, `lost, `coded, sender, sender.pending_buf
      ensures sender.Valid() && (lost ==> MaxDist() > 256 && 2 * |text| > lit_bufsize)
      ensures (lost <==> !AllInTime(lit_bufsize, coded)) && Fitting(lit_bufsize, MaxDist(), coded)
      ensures !lost ==>
        Sent(sender.sent, blocks, text[..base + strstart], last, w_size) && (last ==> sender.bi_valid == 0)
      ensures blocks == if lost then old(blocks) else old(blocks) + [b]
      ensures if b.Stored? then !lost && coded == old(coded)
              else coded == old(coded) + [CodedBlock(3 + old(sender.bi_valid), old(Block()))]
    {
      hide *;
      ShapeFacts();
      TalliedIs(base + strstart);
      WrittenIs(text, base + block_start);
      BlockIs();
      ghost var start, tokens := text[..base + block_start], Block();
      SentIs(sender.sent, blocks, start, false, w_size);
      sender.ValidIs();
      sender.OpenIs();
      sender.NowIs();
      var trees := new Trees();
      DeflateTrees.AwayIs(trees.tables, sender.pending_buf);
      var ok;
      ok, b := FlushBlock(sender, trees, lit_bufsize, last_lit, buf, haveBuf, strstart - block_start, last,
                          true, opt_lenb, 0, 0, 0, NoHead(), blocks, start, MaxDist(), w_size);
      sender.OpenIs();
      ghost var c := CodedBlock(3 + old(sender.bi_valid), tokens);
      CodedPush(lit_bufsize, MaxDist(), coded, c);
      if !b.Stored? { coded := coded + [c]; }
      if ok {
        blocks := blocks + [b];
      } else {
        LateBlock(3 + old(sender.bi_valid), tokens, start, text[..base + strstart]);
        lost := true;
      }
    }

    /** Sends the current block, if only the fixed codes may be used; tree building is not part of this model. Nothing
        more is sent after a block whose tokens were not all read in time. */
    method SendBlock(last: bool)
      requires Windowed() && Tallied(base + strstart) && !finished && strstart <= 0xffff && sender.pending == 0
      modifies `estimates, `blocks, `finished, `lost, `coded, sender, sender.pending_buf
      ensures finished == last && WrittenAs(text, base + strstart) && old(blocks) <= blocks
      ensures fixedOnly && !old(lost) ==>
        || (!lost && |blocks| == |old(blocks)| + 1 && blocks[|blocks| - 1].Stored? && coded == old(coded))
        || coded == old(coded) + [CodedBlock(3 + old(sender.bi_valid), old(Block()))]
      ensures fixedOnly && !lost ==> |blocks| == |old(blocks)| + 1
      ensures !fixedOnly || old(lost) ==> coded == old(coded)
    {
      hide *;
      BlockStands();
      TalliedIs(base + strstart);
      WrittenIs(text, base + block_start);
      if fixedOnly && !lost {
        var haveBuf, buf := block_start >= 0, [];
        if haveBuf { buf := window[block_start..strstart]; }
        var opt_lenb := 0;
        if estimates != [] {
          opt_lenb := estimates[0];
          estimates := estimates[1..];
        }
        assert haveBuf ==> text[..base + block_start] + buf == text[..base + strstart];
        ghost var b := SendFixed(last, haveBuf, buf, opt_lenb);
      }
      finished := last;
      WrittenIs(text, base + strstart);
    }

    /** Hands on the current block: its tokens stand exactly for the stretch of window from block_start to strstart. As
        much of the output as there is room for is handed over. */
    method FlushBlockOnly(last: bool) returns (ghost handed: seq<Token>)
      requires Windowed() && Tallied(base + strstart) && !finished && strstart <= 0xffff && sender.pending == 0
      modifies `flushed, `last_lit, `block_start, `avail_out, `estimates, `blocks, `finished, `lost, `coded
      modifies sender, sender.pending_buf
      ensures Tallied(base + strstart) && last_lit == 0 && block_start == strstart && finished == last
      ensures avail_out > 0 ==> sender.pending == 0
      ensures handed == old(Block()) && flushed == old(flushed) + handed
      ensures 0 <= old(base + block_start) <= base + strstart <= |text|
      ensures Expand(text[..old(base + block_start)], handed) == text[..base + strstart]
      ensures Reaching(text[..old(base + block_start)], handed)
      ensures old(block_start) >= 0 ==>
        && old(block_start) <= strstart <= window.Length
        && window[old(block_start)..strstart] == text[old(base + block_start)..base + strstart]
    {
      hide *;
      BlockStands();
      ShapeFacts();
      handed := Block();
      SendBlock(last);
      flushed := flushed + handed;
      last_lit := 0;
      block_start := strstart;
      WrittenIs(text, base + strstart);
      avail_out := sender.FlushPending(avail_out);
      WrittenIs(text, base + strstart);
      NoneTallied();
      TalliedIs(base + strstart);
    }

    lemma NoneTallied()
      requires Shape() && last_lit == 0
      ensures Block() == []
    {
      BlockIs();
      TokensInAre(sender.pending_buf[..], lit_bufsize, 0);
      TokensNone(DistsIn(sender.pending_buf[..], lit_bufsize), LengthsIn(sender.pending_buf[..], lit_bufsize));
    }

    /** Nothing tallied is lost when text is added or the window slides. */
    lemma TallyKept(block: seq<Token>, text0: seq<Byte>, start: int, pos: int)
      requires Shape() && last_lit <= lit_bufsize - 1 && TalliedUpTo(flushed, block, cut, text0, start, pos, MaxDist())
      requires text0 <= text && block == Block() && start == base + block_start && WrittenAs(text0, start)
      requires sender.bi_valid < 8
      ensures Tallied(pos)
    {
      hide *;
      ShapeFacts();
      WrittenIs(text0, start);
      WrittenIs(text, start);
      if 0 <= start <= |text0| { assert text[..start] == text0[..start]; }
      TallyMore(flushed, block, cut, text0, text[|text0|..], start, pos, MaxDist());
      assert text0 + text[|text0|..] == text;
      TalliedIs(pos);
    }

    /* ---- greedy matching ---- */

    /** Between calls of deflate_fast. */
    ghost predicate FastValid()
      reads this, window, prev, head, sender, sender.pending_buf
    {
      && Ready() && Tallied(base + strstart) && last_lit < lit_bufsize - 1
      && match_length < MIN_MATCH && prev_length == MIN_MATCH - 1 && !match_available
    }

    lemma FastValidIs()
      ensures FastValid() <==>
        && Ready() && Tallied(base + strstart) && last_lit < lit_bufsize - 1
        && match_length < MIN_MATCH && prev_length == MIN_MATCH - 1 && !match_available
    {
    }

    /** Goes past a match, inserting its strings. */
    method InsertMatch()
      requires Visited() && insert == 0 && 3 <= match_length <= lookahead - 3
      modifies prev, head, `ins_h, `ins, `strstart, `lookahead, `match_length
      ensures Ready() && strstart == old(strstart + match_length) && lookahead == old(lookahead - match_length)
      ensures match_length == 0
    {
      hide *;
      VisitedIs();
      WindowedIs();
      ghost var limit, end, w := strstart + lookahead, strstart + match_length, window[..];
      InWindowSize(w, text, base, limit);
      ChainedToIs(strstart + 1, limit);
      lookahead := lookahead - match_length;
      match_length := match_length - 1;
      while true
        invariant match_length >= 1 && strstart + match_length + 1 == end && end + lookahead == limit && lookahead >= 3
        invariant Shape() && window[..] == w && insert == 0
        invariant Chains(sizes, w, head[..], prev[..], strstart + 1, limit, ins)
        invariant RollingAt(sizes, w, strstart + 1, limit - strstart - 1, ins_h)
        decreases match_length
      {
        strstart := strstart + 1;
        var hash_head := InsertString(strstart, strstart, limit);
        match_length := match_length - 1;
        if match_length == 0 { break; }
      }
      strstart := strstart + 1;
      WindowedIs();
      ChainedIs();
      RollingIs();
      CaughtIs();
      ReadyIs();
    }

    /** Goes past a match without inserting its strings. */
    method JumpMatch()
      requires Visited() && insert == 0 && 3 <= match_length <= lookahead && strstart + match_length + 1 < window.Length
      modifies `ins_h, `strstart, `lookahead, `match_length
      ensures Ready() && strstart == old(strstart + match_length) && lookahead == old(lookahead - match_length)
      ensures match_length == 0
    {
      hide *;
      VisitedIs();
      WindowedIs();
      ShapeFacts();
      ghost var limit := strstart + lookahead;
      ChainedToIs(strstart + 1, limit);
      lookahead := lookahead - match_length;
      strstart := strstart + match_length;
      match_length := 0;
      ChainsSkip(sizes, window[..], head[..], prev[..], old(strstart) + 1, limit, ins, strstart);
      ins_h := window[strstart];
      RollingStart(sizes, window[..], strstart, lookahead);
      ins_h := UpdateHash(sizes, ins_h, window[strstart + 1]);
      WindowedIs();
      ChainedIs();
      RollingIs();
      CaughtIs();
      ReadyIs();
    }

    /** Goes past a match, inserting its strings unless it is long. */
    method SkipMatch()
      requires Visited() && insert == 0 && 3 <= match_length <= lookahead && strstart + match_length + 1 < window.Length
      modifies prev, head, `ins_h, `ins, `strstart, `lookahead, `match_length
      ensures Ready() && strstart == old(strstart + match_length) && lookahead == old(lookahead - match_length)
      ensures match_length == 0
    {
      hide *;
      Lookahead();
      if match_length <= config.maxLazy && lookahead - match_length >= MIN_MATCH {
        InsertMatch();
      } else {
        JumpMatch();
      }
    }

    /** A match that was found repeats the text. */
    lemma FoundRepeats(len: nat)
      requires Windowed() && Found(len) && len > prev_length && len <= lookahead
      ensures match_start < strstart && 1 <= strstart - match_start <= MaxDist()
      ensures Repeats(text, base + strstart, strstart - match_start, len)
      ensures cut.bytes + (strstart - match_start) <= base + strstart
      ensures Sub32(strstart, match_start) == strstart - match_start && strstart + len <= window.Length
    {
      SameIsRepeat(window[..], text, base, strstart + lookahead, strstart, match_start, len);
    }

    lemma VisitedFacts()
      requires Visited() && lookahead >= 3
      ensures insert == 0 && Windowed() && Shape()
      ensures Chains(sizes, window[..], head[..], prev[..], strstart + 1, strstart + lookahead, ins)
    {
    }

    /** The match at strstart, if any, repeats the text. */
    ghost predicate MatchHere()
      reads `match_length, `match_start, `strstart, `lookahead, `insert, `text, `base, `cut
    {
      match_length >= MIN_MATCH ==>
        && insert == 0 && match_length <= MAX_MATCH && match_length <= lookahead
        && 1 <= Sub32(strstart, match_start) <= MaxDist()
        && Repeats(text, base + strstart, Sub32(strstart, match_start), match_length)
        && cut.bytes + Sub32(strstart, match_start) <= base + strstart
    }

    lemma MatchHereIs()
      ensures MatchHere() <==> (match_length >= MIN_MATCH ==>
        && insert == 0 && match_length <= MAX_MATCH && match_length <= lookahead
        && 1 <= Sub32(strstart, match_start) <= MaxDist()
        && Repeats(text, base + strstart, Sub32(strstart, match_start), match_length)
        && cut.bytes + Sub32(strstart, match_start) <= base + strstart)
    {
    }

    /** Searches the chain for a match longer than the previous one. */
    method Search(hash_head: nat)
      requires Visited() && lookahead >= 3 && strstart + MIN_LOOKAHEAD <= window.Length
      requires MIN_MATCH - 1 <= prev_length <= MAX_MATCH
      requires Candidate(hash_head) && strstart - hash_head <= MaxDist()
      modifies `match_length, `match_start
      ensures MIN_MATCH - 1 <= match_length <= MAX_MATCH && (match_length > prev_length ==> MatchHere())
    {
      hide *;
      VisitedFacts();
      Lookahead();
      ghost var tried;
      match_length, tried := LongestMatch(hash_head, strstart + lookahead);
      if match_length > prev_length { FoundRepeats(match_length); }
      MatchHereIs();
    }

    method FindFast()
      requires Ready() && lookahead > 0 && strstart + MIN_LOOKAHEAD <= window.Length
      requires match_length < MIN_MATCH && prev_length == MIN_MATCH - 1
      modifies prev, head, `ins_h, `ins, `match_length, `match_start
      ensures Visited() && MatchHere()
    {
      hide *;
      ReadyIs();
      WindowedIs();
      ShapeFacts();
      Lookahead();
      MatchHereIs();
      var hash_head := InsertHere();
      if hash_head != 0 && strstart - hash_head <= MaxDist() { Search(hash_head); }
      MatchHereIs();
    }

    /** Fills the window; what has been tallied stays so. */
    method Refill(ghost held: nat)
      requires Ready() && Tallied(base + strstart - held) && lookahead < MIN_LOOKAHEAD
      modifies `next_in, window, prev, head, `ins_h, `ins, `insert, `match_start, `strstart, `block_start, `base
      modifies `lookahead, `text, `high_water
      ensures Ready() && Tallied(base + strstart - held) && Advanced()
      ensures lookahead < MIN_LOOKAHEAD ==> next_in == []
      ensures strstart + MIN_LOOKAHEAD <= window.Length
      ensures lookahead + |next_in| == old(lookahead + |next_in|) && lookahead >= old(lookahead)
    {
      hide *;
      ReadyIs();
      TalliedIs(base + strstart - held);
      ShapeFacts();
      ghost var block, text0, start, pos := Block(), text, base + block_start, base + strstart - held;
      FillWindow();
      AdvancedParts();
      assert Block() == block;
      TallyKept(block, text0, start, pos);
      ReadyIs();
    }

    lemma LeftIs()
      ensures Left() == lookahead + |next_in|
    {
    }

    lemma WindowSmall()
      requires Ready()
      ensures window.Length <= 0x10000 && MIN_LOOKAHEAD == 262
    {
    }

    lemma EnoughRoom()
      requires Ready() && lookahead >= MIN_LOOKAHEAD
      ensures Shape() && strstart + MIN_LOOKAHEAD <= window.Length
    {
    }

    /** With nothing waiting in the block, everything tallied has been handed on. */
    lemma NothingWaits(pos: int)
      requires Tallied(pos) && last_lit == 0
      ensures StandsFor(flushed, text, pos) && base + block_start == pos
    {
      NoneTallied();
      assert flushed + [] == flushed;
      assert |text[..pos]| == |text[..base + block_start]|;
    }

    /** The text read so far, and what of it has been handed on. */
    ghost predicate HandedOn()
      reads this
    {
      lookahead == 0 && last_lit == 0 && next_in == [] && StandsFor(flushed, text, |text|)
    }

    /** The last positions wait for bytes to come. */
    method LeaveWaiting()
      requires Ready() && lookahead == 0
      modifies `insert
      ensures Ready()
    {
      hide *;
      ReadyIs();
      WindowedIs();
      ShapeFacts();
      ChainedIs();
      Lookahead();
      InWindowSize(window[..], text, base, strstart + lookahead);
      insert := if strstart < MIN_MATCH - 1 then strstart else MIN_MATCH - 1;
      ChainsLower(sizes, window[..], head[..], prev[..], strstart - old(insert), strstart, ins, strstart - insert);
      ChainedIs();
      CaughtIs();
      RollingIs();
      RollingFew(sizes, window[..], strstart, lookahead, ins_h);
      ReadyIs();
    }

    /** What is common to the ends of all matchers: the rest of the last block. */
    method FinishBlock(flush: nat) returns (state: BlockState)
      requires Ready() && Tallied(base + strstart) && lookahead == 0 && next_in == []
      requires flush != Z_NO_FLUSH && !finished && strstart <= 0xffff && sender.pending == 0
      modifies `insert, `flushed, `last_lit, `block_start, `avail_out, `estimates, `blocks, `finished, `lost, `coded
      modifies sender, sender.pending_buf
      ensures Ready() && Tallied(base + strstart) && last_lit < lit_bufsize - 1
      ensures (state == FinishStarted || state == FinishDone) <==> flush == Z_FINISH
      ensures HandedOn() && old(flushed) <= flushed && (finished <==> flush == Z_FINISH)
      ensures state == FinishDone || state == BlockDone ==> sender.pending == 0
    {
      hide *;
      LeaveWaiting();
      ReadyIs();
      WindowedIs();
      InWindowSize(window[..], text, base, strstart + lookahead);
      ShapeFacts();
      TalliedIs(base + strstart);
      state := BlockDone;
      if flush == Z_FINISH {
        ghost var handed := FlushBlockOnly(true);
        state := if avail_out == 0 then FinishStarted else FinishDone;
      } else if last_lit != 0 {
        ghost var handed := FlushBlockOnly(false);
        if avail_out == 0 { state := NeedMore; }
      }
      NothingWaits(base + strstart);
      HandedOnIs();
      ReadyIs();
    }

    lemma HandedOnIs()
      ensures HandedOn() <==> lookahead == 0 && last_lit == 0 && next_in == [] && StandsFor(flushed, text, |text|)
    {
    }

    /** Hands on a full block. */
    method FlushFull(bflush: bool)
      requires Ready() && Tallied(base + strstart) && (bflush <==> last_lit == lit_bufsize - 1)
      requires !finished && strstart <= 0xffff && sender.pending == 0
      modifies `flushed, `last_lit, `block_start, `avail_out, `estimates, `blocks, `finished, `lost, `coded
      modifies sender, sender.pending_buf
      ensures Ready() && Tallied(base + strstart) && last_lit < lit_bufsize - 1 && old(flushed) <= flushed
      ensures !finished && (!bflush || avail_out > 0 ==> sender.pending == 0)
    {
      hide *;
      ReadyIs();
      TalliedIs(base + strstart);
      ShapeFacts();
      if bflush {
        ghost var handed := FlushBlockOnly(false);
        ReadyIs();
      }
    }

    /** A match if there is one, else a literal. */
    method FastToken() returns (bflush: bool)
      requires FastValid() && lookahead > 0 && strstart + MIN_LOOKAHEAD <= window.Length && sender.pending == 0
      modifies prev, head, sender.pending_buf, `ins_h, `ins, `strstart, `lookahead, `match_length, `match_start
      modifies `last_lit
      ensures Ready() && Tallied(base + strstart) && match_length < MIN_MATCH && lookahead < old(lookahead)
      ensures (bflush <==> last_lit == lit_bufsize - 1) && strstart <= old(strstart) + MAX_MATCH
    {
      hide *;
      FastValidIs();
      Lookahead();
      TalliedIs(base + strstart);
      ShapeFacts();
      FindFast();
      MatchHereIs();
      VisitedIs();
      TalliedIs(base + strstart);
      if match_length >= MIN_MATCH {
        bflush := TallyDist(Sub32(strstart, match_start), match_length, base + strstart);
        VisitedIs();
        SkipMatch();
      } else {
        bflush := TallyLit(strstart);
        VisitedIs();
        StepOver();
      }
      TalliedIs(base + strstart);
    }

    /** One step; a full block is handed on. */
    method FastStep() returns (bflush: bool)
      requires FastValid() && lookahead > 0 && strstart + MIN_LOOKAHEAD <= window.Length && !finished
      requires sender.pending == 0
      modifies prev, head, sender.pending_buf, `ins_h, `ins, `strstart, `lookahead, `match_length, `match_start
      modifies `last_lit
      modifies `flushed, `block_start, `avail_out, `estimates, `blocks, `finished, `lost, `coded
      modifies sender, sender.pending_buf
      ensures FastValid() && lookahead < old(lookahead) && old(flushed) <= flushed && !finished
      ensures !bflush || avail_out > 0 ==> sender.pending == 0
    {
      hide *;
      FastValidIs();
      ReadyShape();
      ShapeFacts();
      Lookahead();
      bflush := FastToken();
      FlushFull(bflush);
      FastValidIs();
    }

    lemma ReadyShape()
      requires Ready()
      ensures Shape()
    {
    }

    /** Fills the window if little is left to look at. */
    method LookFast()
      requires FastValid()
      modifies `next_in, window, prev, head, `ins_h, `ins, `insert, `match_start, `strstart, `block_start, `base
      modifies `lookahead, `text, `high_water
      ensures FastValid() && old(text) <= text && text + next_in == old(text) + old(next_in)
      ensures (lookahead < MIN_LOOKAHEAD ==> next_in == []) && strstart + MIN_LOOKAHEAD <= window.Length
      ensures lookahead + |next_in| == old(lookahead + |next_in|)
    {
      hide *;
      FastValidIs();
      if lookahead < MIN_LOOKAHEAD {
        Refill(0);
        AdvancedParts();
        FastValidIs();
      } else {
        EnoughRoom();
      }
    }

    /** Matches greedily until the input runs short or the output is full. */
    method DeflateFast(flush: nat) returns (state: BlockState)
      requires FastValid() && !finished && sender.pending == 0
      modifies this, window, prev, head, sender, sender.pending_buf
      ensures FastValid() && old(text) <= text && text + next_in == old(text) + old(next_in)
      ensures state == FinishDone || state == BlockDone ==> sender.pending == 0
      ensures cut == old(cut) && old(flushed) <= flushed
      ensures flush == Z_NO_FLUSH ==> state == NeedMore
      ensures (state == FinishStarted || state == FinishDone) ==> flush == Z_FINISH
      ensures finished <==> state == FinishStarted || state == FinishDone
      ensures flush == Z_FINISH ==> state != BlockDone && (state == NeedMore ==> Left() < old(Left()))
      ensures state != NeedMore ==> HandedOn()
    {
      hide *;
      Lookahead();
      FlushModes();
      ConsumedIs(text, next_in, text, next_in);
      while true
        invariant !finished && Left() <= old(Left()) && FastValid() && Consumed(old(text), old(next_in), text, next_in)
        invariant cut == old(cut) && old(flushed) <= flushed && sender.pending == 0
        decreases Left()
      {
        LeftIs();
        ghost var text0, input := text, next_in;
        LookFast();
        LeftIs();
        ConsumedAgain(old(text), old(next_in), text0, input, text, next_in);
        ConsumedIs(old(text), old(next_in), text, next_in);
        if lookahead < MIN_LOOKAHEAD && flush == Z_NO_FLUSH { return NeedMore; }
        if lookahead == 0 { break; }
        var bflush := FastStep();
        LeftIs();
        if bflush && avail_out == 0 { return NeedMore; }
      }
      FastValidIs();
      WindowSmall();
      state := FinishBlock(flush);
      FastValidIs();
    }

    /* ---- lazy matching ---- */

    /** How many literals are held back. */
    ghost function Held(): nat
      reads `match_available
    {
      if match_available then 1 else 0
    }

    /** The text at the position before strstart repeats length bytes from start. */
    ghost predicate MatchBefore(length: nat, start: UInt32)
      reads `strstart, `text, `base, `cut
    {
      && strstart > 0 && 1 <= Sub32(strstart - 1, start) <= MaxDist()
      && Repeats(text, base + strstart - 1, Sub32(strstart - 1, start), length)
      && cut.bytes + Sub32(strstart - 1, start) <= base + strstart - 1
    }

    /** The match found one position back, if there is one, still waits to be bettered; so does its first byte. */
    ghost predicate Pending()
      reads `match_length, `match_start, `match_available, `strstart, `text, `base, `cut
    {
      && MIN_MATCH - 1 <= match_length <= MAX_MATCH && (match_available ==> strstart > 0)
      && (match_length >= MIN_MATCH ==> match_available && MatchBefore(match_length, match_start))
    }

    /** Between calls of deflate_slow: all text up to strstart has been tallied, less the literal held back. */
    ghost predicate SlowValid()
      reads this, window, prev, head, sender, sender.pending_buf
    {
      Ready() && Tallied(base + strstart - Held()) && last_lit < lit_bufsize - 1 && Pending()
    }

    lemma SlowValidIs()
      ensures SlowValid() <==> Ready() && Tallied(base + strstart - Held()) && last_lit < lit_bufsize - 1 && Pending()
    {
    }

    lemma HeldIs()
      ensures Held() == if match_available then 1 else 0
    {
    }

    lemma MatchBeforeIs(length: nat, start: UInt32)
      ensures MatchBefore(length, start) <==>
        && strstart > 0 && 1 <= Sub32(strstart - 1, start) <= MaxDist()
        && Repeats(text, base + strstart - 1, Sub32(strstart - 1, start), length)
        && cut.bytes + Sub32(strstart - 1, start) <= base + strstart - 1
    {
    }

    lemma PendingIs()
      ensures Pending() <==>
        && MIN_MATCH - 1 <= match_length <= MAX_MATCH && (match_available ==> strstart > 0)
        && (match_length >= MIN_MATCH ==> match_available && MatchBefore(match_length, match_start))
    {
    }

    /** Reading more text, and sliding the window, keeps the waiting match. */
    twostate lemma PendingKept()
      requires old(Pending()) && Advanced() && match_length == old(match_length)
      requires match_available == old(match_available) && cut == old(cut)
      ensures Pending()
    {
      if match_length >= MIN_MATCH {
        var text0 := old(text);
        RepeatsMore(text0, text[|text0|..], old(base + strstart) - 1, Sub32(strstart - 1, match_start), match_length);
        assert text0 + text[|text0|..] == text;
      }
    }

    /** Inserts the string at strstart and searches for a match longer than the waiting one. */
    method FindSlow()
      requires Ready() && lookahead > 0 && strstart + MIN_LOOKAHEAD <= window.Length
      requires MIN_MATCH - 1 <= match_length <= MAX_MATCH
      modifies prev, head, `ins_h, `ins, `match_length, `match_start, `prev_length, `prev_match
      ensures Visited() && prev_length == old(match_length) && prev_match == old(match_start)
      ensures MIN_MATCH - 1 <= match_length <= MAX_MATCH && (match_length > prev_length ==> MatchHere())
    {
      hide *;
      ReadyIs();
      WindowedIs();
      ShapeFacts();
      Lookahead();
      FlushModes();
      var hash_head := InsertHere();
      prev_length, prev_match := match_length, match_start;
      match_length := MIN_MATCH - 1;
      MatchHereIs();
      if hash_head != 0 && prev_length < config.maxLazy && strstart - hash_head <= MaxDist() {
        Search(hash_head);
        if match_length <= 5 &&
           (filtered || (match_length == MIN_MATCH && Sub32(strstart, match_start) > TOO_FAR))
        {
          match_length := MIN_MATCH - 1;
        }
      }
      MatchHereIs();
    }

    /** Goes past the match found one position back, inserting the strings that are complete. */
    method SkipPrevious()
      requires Visited() && 3 <= prev_length <= lookahead + 1
      modifies prev, head, `ins_h, `ins, `strstart, `lookahead, `prev_length
      ensures Ready() && strstart == old(strstart + prev_length) - 1 && lookahead == old(lookahead + 1 - prev_length)
    {
      hide *;
      VisitedIs();
      WindowedIs();
      CaughtIs();
      Lookahead();
      ghost var limit, end, w := strstart + lookahead, strstart + prev_length - 1, window[..];
      InWindowSize(w, text, base, limit);
      ChainedToIs(strstart + 1 - insert, limit);
      var max_insert: int := strstart + lookahead - MIN_MATCH;
      lookahead := lookahead - (prev_length - 1);
      prev_length := prev_length - 2;
      while true
        invariant prev_length >= 1 && strstart + prev_length + 1 == end && end + lookahead == limit
        invariant Shape() && window[..] == w && strstart >= old(strstart) && insert <= strstart
        invariant Chains(sizes, w, head[..], prev[..], strstart + 1 - insert, limit, ins)
        invariant insert == 0 ==> RollingAt(sizes, w, strstart + 1, limit - strstart - 1, ins_h)
        decreases prev_length
      {
        strstart := strstart + 1;
        if strstart <= max_insert {
          var hash_head := InsertString(strstart, strstart, limit);
        } else {
          ChainsSkip(sizes, w, head[..], prev[..], strstart - insert, limit, ins, strstart + 1 - insert);
          RollingFew(sizes, w, strstart + 1, limit - strstart - 1, ins_h);
        }
        prev_length := prev_length - 1;
        if prev_length == 0 { break; }
      }
      strstart := strstart + 1;
      WindowedIs();
      ChainedIs();
      RollingIs();
      CaughtIs();
      ReadyIs();
    }

    /** Tallies the match found one position back, which nothing has bettered. */
    method EmitPrevious() returns (bflush: bool)
      requires Visited() && Tallied(base + strstart - 1) && last_lit < lit_bufsize - 1 && sender.pending == 0
      requires MIN_MATCH <= prev_length <= MAX_MATCH && MatchBefore(prev_length, prev_match)
      modifies prev, head, sender.pending_buf, `ins_h, `ins, `strstart, `lookahead, `prev_length, `match_available
      modifies `match_length, `last_lit
      ensures Ready() && Tallied(base + strstart) && lookahead < old(lookahead) && !match_available
      ensures match_length == MIN_MATCH - 1 && (bflush <==> last_lit == lit_bufsize - 1)
      ensures strstart <= old(strstart) + MAX_MATCH
    {
      hide *;
      MatchBeforeIs(prev_length, prev_match);
      VisitedIs();
      WindowedIs();
      ShapeFacts();
      Lookahead();
      InWindowSize(window[..], text, base, strstart + lookahead);
      RepeatsEnd(text, base + strstart - 1, Sub32(strstart - 1, prev_match), prev_length);
      bflush := TallyDist(Sub32(strstart - 1, prev_match), prev_length, base + strstart - 1);
      TalliedIs(base + strstart - 1 + prev_length);
      VisitedIs();
      SkipPrevious();
      match_available := false;
      match_length := MIN_MATCH - 1;
      TalliedIs(base + strstart);
    }

    /** Holds back the byte at strstart, and the match that begins there, for the next position to decide. */
    method HoldBack()
      requires Visited() && MIN_MATCH - 1 <= match_length <= MAX_MATCH && MatchHere()
      modifies `strstart, `lookahead, `match_available
      ensures Ready() && Pending() && match_available && strstart == old(strstart) + 1
      ensures lookahead == old(lookahead) - 1
    {
      hide *;
      MatchHereIs();
      Lookahead();
      StepOver();
      match_available := true;
      MatchBeforeIs(match_length, match_start);
      PendingIs();
    }

    /** One step of the lazy matcher: the waiting match, the byte held back, or neither. */
    method SlowStep() returns (stop: bool)
      requires SlowValid() && lookahead > 0 && strstart + MIN_LOOKAHEAD <= window.Length && !finished
      requires sender.pending == 0
      modifies prev, head, sender.pending_buf, `ins_h, `ins, `strstart, `lookahead, `match_length, `match_start
      modifies `prev_length, `prev_match
      modifies `match_available, `last_lit, `flushed, `block_start, `avail_out
      modifies `estimates, `blocks, `finished, `lost, `coded, sender, sender.pending_buf
      ensures SlowValid() && lookahead < old(lookahead) && old(flushed) <= flushed && !finished
      ensures !stop ==> sender.pending == 0
    {
      hide *;
      SlowValidIs();
      PendingIs();
      Lookahead();
      HeldIs();
      ShapeOf();
      ShapeFacts();
      FindSlow();
      MatchHereIs();
      TalliedIs(base + strstart - Held());
      if prev_length >= MIN_MATCH && match_length <= prev_length {
        TalliedIs(base + strstart - 1);
        var bflush := EmitPrevious();
        FlushFull(bflush);
        HeldIs();
        TalliedIs(base + strstart - Held());
        PendingIs();
        stop := bflush && avail_out == 0;
      } else if match_available {
        SlowLiteral();
        stop := avail_out == 0;
      } else {
        HoldBack();
        HeldIs();
        stop := false;
        TalliedIs(base + strstart - Held());
      }
      SlowValidIs();
    }

    lemma ShapeOf()
      requires Ready()
      ensures Shape() && window != sender.pending_buf && prev != head
    {
    }

    /** Tallies the byte held back, and holds back the next one. */
    method SlowLiteral()
      requires Visited() && Tallied(base + strstart - 1) && last_lit < lit_bufsize - 1 && 0 < strstart <= 0xffff
      requires !finished && sender.pending == 0
      requires MIN_MATCH - 1 <= match_length <= MAX_MATCH && MatchHere()
      modifies `strstart, `lookahead, `match_available, `last_lit, `flushed, `block_start, `avail_out
      modifies `estimates, `blocks, `finished, `lost, `coded, sender, sender.pending_buf
      ensures Ready() && Pending() && match_available && Tallied(base + strstart - 1) && last_lit < lit_bufsize - 1
      ensures lookahead == old(lookahead) - 1 && old(flushed) <= flushed && !finished
      ensures avail_out > 0 ==> sender.pending == 0
    {
      hide *;
      VisitedIs();
      WindowedIs();
      ShapeFacts();
      var bflush := TallyLit(strstart - 1);
      if bflush {
        ghost var handed := FlushBlockOnly(false);
        TalliedIs(base + strstart);
      }
      VisitedIs();
      TalliedIs(base + strstart);
      HoldBack();
      TalliedIs(base + strstart - 1);
    }

    /** Fills the window if little is left to look at. */
    method LookSlow()
      requires SlowValid()
      modifies `next_in, window, prev, head, `ins_h, `ins, `insert, `match_start, `strstart, `block_start, `base
      modifies `lookahead, `text, `high_water
      ensures SlowValid() && old(text) <= text && text + next_in == old(text) + old(next_in)
      ensures (lookahead < MIN_LOOKAHEAD ==> next_in == []) && strstart + MIN_LOOKAHEAD <= window.Length
      ensures lookahead + |next_in| == old(lookahead + |next_in|)
    {
      hide *;
      SlowValidIs();
      if lookahead < MIN_LOOKAHEAD {
        HeldIs();
        Refill(Held());
        AdvancedParts();
        PendingKept();
        SlowValidIs();
      } else {
        EnoughRoom();
      }
    }

    /** Defers each match until the next position has been tried, until the input runs short or the output is full. */
    method DeflateSlow(flush: nat) returns (state: BlockState)
      requires SlowValid() && !finished && sender.pending == 0
      modifies this, window, prev, head, sender, sender.pending_buf
      ensures SlowValid() && old(text) <= text && text + next_in == old(text) + old(next_in)
      ensures state == FinishDone || state == BlockDone ==> sender.pending == 0
      ensures cut == old(cut) && old(flushed) <= flushed
      ensures flush == Z_NO_FLUSH ==> state == NeedMore
      ensures (state == FinishStarted || state == FinishDone) ==> flush == Z_FINISH
      ensures finished <==> state == FinishStarted || state == FinishDone
      ensures flush == Z_FINISH ==> state != BlockDone && (state == NeedMore ==> Left() < old(Left()))
      ensures state != NeedMore ==> HandedOn() && !match_available
    {
      hide *;
      Lookahead();
      FlushModes();
      ConsumedIs(text, next_in, text, next_in);
      while true
        invariant !finished && Left() <= old(Left()) && SlowValid() && Consumed(old(text), old(next_in), text, next_in)
        invariant cut == old(cut) && old(flushed) <= flushed && sender.pending == 0
        decreases Left()
      {
        LeftIs();
        ghost var text0, input := text, next_in;
        LookSlow();
        LeftIs();
        ConsumedAgain(old(text), old(next_in), text0, input, text, next_in);
        ConsumedIs(old(text), old(next_in), text, next_in);
        if lookahead < MIN_LOOKAHEAD && flush == Z_NO_FLUSH { return NeedMore; }
        if lookahead == 0 { break; }
        var stop := SlowStep();
        LeftIs();
        if stop { return NeedMore; }
      }
      SlowValidIs();
      WindowSmall();
      LastLiteral();
      state := FinishBlock(flush);
      PendingIs();
      TalliedIs(base + strstart - Held());
      HeldIs();
      SlowValidIs();
    }

    /** No match waits when no text is left. */
    lemma NoMatchLeft()
      requires Windowed() && Pending() && lookahead == 0
      ensures match_length < MIN_MATCH
    {
    }

    /** At the end of the input the byte held back is a literal after all. */
    method LastLiteral()
      requires SlowValid() && lookahead == 0 && sender.pending == 0
      modifies sender.pending_buf, `last_lit, `match_available
      ensures Ready() && Tallied(base + strstart) && !match_available && Pending()
    {
      hide *;
      SlowValidIs();
      HeldIs();
      PendingIs();
      ReadyIs();
      ShapeOf();
      NoMatchLeft();
      TalliedIs(base + strstart - Held());
      if match_available {
        var bflush := TallyLit(strstart - 1);
        match_available := false;
      }
      ReadyIs();
      PendingIs();
    }

    /* ---- a stream ---- */

    /** Between calls, at any level. */
    ghost predicate Valid()
      reads this, window, prev, head, sender, sender.pending_buf
    {
      if level <= 3 then FastValid() else SlowValid()
    }

    lemma ValidIs()
      ensures Valid() <==> (if level <= 3 then FastValid() else SlowValid())
    {
    }

    /** All fields as at the start of a stream make a valid state. */
    lemma Begins()
      requires SizesOk(sizes) && w_size == sizes.wsize
      requires window.Length == 2 * w_size && prev.Length == w_size && head.Length == Pow2(sizes.hashBits)
      requires sender.pending_buf.Length == 4 * lit_bufsize && lit_bufsize >= 64
      requires window != sender.pending_buf && prev != head
      requires forall h :: 0 <= h < head.Length ==> head[h] == 0
      requires strstart == block_start == lookahead == insert == last_lit == base == 0
      requires match_length == prev_length == MIN_MATCH - 1 && !match_available && text == [] && ins == {}
      requires flushed == [] && cut == Cut(0, 0) && blocks == [] && !finished && !lost && coded == []
      requires sender.Valid() && sender.sent == [] && sender.bi_valid == 0
      ensures Valid() && Held() == 0
    {
      hide *;
      Lookahead();
      ShapeMade();
      ShapeFacts();
      ChainsStart(sizes, window[..], head[..], prev[..]);
      NothingInWindow(window[..], text);
      WindowedIs();
      ChainedIs();
      RollingIs();
      RollingFew(sizes, window[..], strstart, lookahead, ins_h);
      CaughtIs();
      ReadyIs();
      HeldIs();
      PendingIs();
      TallyStart(MaxDist());
      NoneTallied();
      WritesNothing(w_size);
      NoneCoded(lit_bufsize, MaxDist());
      SentIs(sender.sent, blocks, [], false, w_size);
      assert text[..0] == [];
      WrittenIs(text, 0);
      TalliedIs(0);
      FastValidIs();
      SlowValidIs();
      ValidIs();
    }

    lemma ShapeMade()
      requires SizesOk(sizes) && w_size == sizes.wsize
      requires window.Length == 2 * w_size && prev.Length == w_size && head.Length == Pow2(sizes.hashBits)
      requires sender.pending_buf.Length == 4 * lit_bufsize && lit_bufsize >= 64
      requires window != sender.pending_buf && prev != head
      ensures Shape()
    {
    }

    /** The tokens tallied so far, in all blocks, stand for exactly the bytes consumed, less a literal held back. */
    lemma Lossless()
      requires Valid()
      ensures Shape() && base + strstart + lookahead == |text| && Held() <= base + strstart
      ensures Expand([], flushed + Block()) == text[..base + strstart - Held()]
      ensures AllSound(flushed + Block(), MaxDist()) && Reaching([], flushed + Block())
    {
    }

    /** The tokens since the history was last forgotten stand for the bytes since then, without those before. */
    lemma NoneAcross()
      requires Valid()
      ensures cut.tokens <= |flushed + Block()| && cut.bytes <= base + strstart - Held() <= |text|
      ensures Expand([], (flushed + Block())[cut.tokens..]) == text[cut.bytes..base + strstart - Held()]
      ensures Reaching([], (flushed + Block())[cut.tokens..])
    {
    }

    /** Matches what input there is, in the manner of the level. */
    method Deflate(flush: nat) returns (state: BlockState)
      requires Valid() && !finished && sender.pending == 0
      modifies this, window, prev, head, sender, sender.pending_buf
      ensures Valid() && old(text) <= text && text + next_in == old(text) + old(next_in)
      ensures state == FinishDone || state == BlockDone ==> sender.pending == 0
      ensures cut == old(cut) && old(flushed) <= flushed
      ensures flush == Z_NO_FLUSH ==> state == NeedMore
      ensures (state == FinishStarted || state == FinishDone) ==> flush == Z_FINISH
      ensures finished <==> state == FinishStarted || state == FinishDone
      ensures flush == Z_FINISH ==> state != BlockDone && (state == NeedMore ==> Left() < old(Left()))
      ensures state != NeedMore ==> HandedOn() && !match_available
    {
      hide *;
      ValidIs();
      if level <= 3 {
        state := DeflateFast(flush);
        FastValidIs();
      } else {
        state := DeflateSlow(flush);
      }
      ValidIs();
    }

    /** More input, and room for output. */
    method Supply(more: seq<Byte>, avail_out: nat, estimates: seq<nat>)
      requires Valid()
      modifies `next_in, `avail_out, `estimates
      ensures Valid() && next_in == old(next_in) + more && Left() == old(Left()) + |more|
      ensures this.avail_out == avail_out
    {
      hide *;
      ValidIs();
      LeftIs();
      if level <= 3 { FastValidIs(); } else { SlowValidIs(); }
      next_in := next_in + more;
      this.avail_out, this.estimates := avail_out, estimates;
      LeftIs();
      ValidIs();
      if level <= 3 { FastValidIs(); } else { SlowValidIs(); }
    }

    /** A token was lost exactly if some block sent with the fixed codes was not read in time. That takes distances
        above 256, and more than half a buffer of text. */
    lemma LostOnly()
      requires Valid()
      ensures lost ==> w_size > 518 && 2 * |text| > lit_bufsize
      ensures (lost <==> !AllInTime(lit_bufsize, coded)) && Fitting(lit_bufsize, w_size - 262, coded)
    {
      hide *;
      ValidIs();
      if level <= 3 { FastValidIs(); } else { SlowValidIs(); }
      ShapeOfValid();
      ShapeFacts();
      TalliedIs(base + strstart - if level <= 3 then 0 else Held());
      WrittenIs(text, base + block_start);
    }

    /** Once the last block has been sent and all of it handed over, the bytes are a stream for the text. */
    lemma StreamSent()
      requires Valid() && HandedOn() && !match_available && finished && fixedOnly && !lost && sender.pending == 0
      ensures StreamOf(sender.out, blocks, text, w_size) && w_size > 0
    {
      hide *;
      AllHandedOn();
      ShapeFacts();
      TalliedIs(|text|);
      WrittenIs(text, base + block_start);
      assert text[..|text|] == text;
      SentIs(sender.sent, blocks, text, true, w_size);
      BytesOut(sender, blocks, text, w_size);
    }

    /** When all text has been handed on, the current block begins where the text ends. */
    lemma AllHandedOn()
      requires Valid() && HandedOn() && !match_available
      ensures Shape() && lookahead == 0 && base + strstart == base + block_start == |text| && last_lit < lit_bufsize - 1
      ensures Tallied(|text|) && match_length < MIN_MATCH && Block() == []
      ensures level <= 3 ==> prev_length == MIN_MATCH - 1
      ensures level > 3 ==> match_length == MIN_MATCH - 1
      ensures window != sender.pending_buf && prev != head && head.Length == Pow2(sizes.hashBits)
    {
      assert |text[..base + block_start]| == |text[..|text|]|;
      NoneTallied();
      if level > 3 { NoMatchLeft(); }
    }

    lemma StartsAfresh()
      requires Shape() && lookahead == insert == strstart == block_start == 0 && base == |text| && ins == {}
      requires cut.bytes <= base
      requires Tallied(base) && last_lit < lit_bufsize - 1 && !match_available && match_length < MIN_MATCH
      requires level <= 3 ==> prev_length == MIN_MATCH - 1
      requires level > 3 ==> match_length == MIN_MATCH - 1
      requires forall h :: 0 <= h < head.Length ==> head[h] == 0
      ensures Valid()
    {
      hide *;
      ShapeFacts();
      ChainsStart(sizes, window[..], head[..], prev[..]);
      NothingInWindow(window[..], text);
      WindowedIs();
      ChainedIs();
      RollingIs();
      RollingFew(sizes, window[..], strstart, lookahead, ins_h);
      CaughtIs();
      ReadyIs();
      HeldIs();
      PendingIs();
      Lookahead();
      FastValidIs();
      SlowValidIs();
      ValidIs();
    }

    lemma NothingInWindow(w: seq<Byte>, text: seq<Byte>)
      ensures InWindow(w, text, |text|, 0)
    {
    }

    method ClearHash()
      modifies head
      ensures forall h :: 0 <= h < head.Length ==> head[h] == 0
    {
      for i := 0 to head.Length
        invariant forall h :: 0 <= h < i ==> head[h] == 0
      {
        head[i] := 0;
      }
    }

    /** Sends an empty stored block. */
    method SendMarker()
      requires WrittenAs(text, |text|) && !finished && sender.pending == 0 && sender.bi_valid < 8 && Shape()
      modifies `blocks, sender, sender.pending_buf
      ensures WrittenAs(text, |text|) && sender.bi_valid < 8
    {
      hide *;
      ShapeFacts();
      WrittenIs(text, |text|);
      assert text[..|text|] == text && text + [] == text;
      if fixedOnly && !lost {
        SentIs(sender.sent, blocks, text, false, w_size);
        sender.ValidIs();
        sender.OpenIs();
        sender.NowIs();
        sender.RoomIs(49);
        StoredBlock(sender, [], false, blocks, text, w_size);
        sender.OpenIs();
        blocks := blocks + [InflateStream.Stored([])];
      }
      WrittenIs(text, |text|);
    }

    /** Sends an empty block with the fixed codes. */
    method Align()
      requires WrittenAs(text, |text|) && !finished && sender.pending == 0 && sender.bi_valid < 8 && Shape()
      modifies `blocks, sender, sender.pending_buf
      ensures WrittenAs(text, |text|) && sender.bi_valid < 8
    {
      hide *;
      ShapeFacts();
      WrittenIs(text, |text|);
      assert text[..|text|] == text;
      if fixedOnly && !lost {
        SentIs(sender.sent, blocks, text, false, w_size);
        sender.ValidIs();
        sender.OpenIs();
        sender.NowIs();
        NoTokens(sender.pending_buf[..], lit_bufsize, 3 + sender.bi_valid, text);
        sender.RoomIs(17);
        StartsInPairs(sender.Now());
        var trees := new Trees();
        DeflateTrees.AwayIs(trees.tables, sender.pending_buf);
        var ok;
        ghost var b;
        ok, b := FixedBlock(sender, trees.tables, trees.static_l, trees.static_d, lit_bufsize, 0, false, blocks, text,
                            0, w_size);
        sender.OpenIs();
        blocks := blocks + [b];
        SentIs(sender.sent, blocks, text, false, w_size);
        sender.Flush();
      }
      WrittenIs(text, |text|);
    }

    lemma NoTokens(mem: seq<Byte>, n: nat, used: nat, text: seq<Byte>)
      requires |mem| == 4 * n && used <= 10
      ensures TokensIn(mem, n, 0) == [] && AllSound([], 0) && Reaching(text, []) && Expand(text, []) == text
      ensures FixedBits([]) == 0 && InTimeAll(n, used, [])
    {
      hide *;
      TokensInAre(mem, n, 0);
      TokensNone(DistsIn(mem, n), LengthsIn(mem, n));
      NoneSound(text);
      NoFixedBits();
      FewInTime(n, used, [], 0);
    }

    lemma NoneSound(text: seq<Byte>)
      ensures AllSound([], 0) && Reaching(text, []) && Expand(text, []) == text
    {
    }

    /** Marks the place of a flush, behind all the text: with an empty stored block, or a fixed one for a partial flush,
        or not at all. */
    method MarkFlush(flush: nat)
      requires Valid() && HandedOn() && !match_available && !finished && sender.pending == 0
      modifies `blocks, sender, sender.pending_buf
      ensures Valid() && HandedOn()
    {
      hide *;
      ValidIs();
      if level <= 3 { FastValidIs(); } else { SlowValidIs(); }
      AllHandedOn();
      HandedOnIs();
      ShapeFacts();
      TalliedIs(|text|);
      WrittenIs(text, base + block_start);
      WrittenIs(text, |text|);
      if flush == Z_PARTIAL_FLUSH {
        Align();
      } else if flush != Z_BLOCK {
        SendMarker();
      }
      WrittenIs(text, |text|);
      NoneTallied();
      TalliedIs(|text|);
      HandedOnIs();
      HeldIs();
      if level <= 3 { FastValidIs(); } else { SlowValidIs(); }
      ValidIs();
    }

    /** After a full flush the matching starts afresh: the history is cut at the end of the text read so far. */
    method ForgetHistory()
      requires Valid() && HandedOn() && !match_available && !finished
      modifies head, `strstart, `block_start, `insert, `base, `ins, `cut
      ensures Valid() && base + strstart == |text| && strstart == 0 && ins == {}
      ensures cut == Cut(|flushed|, |text|) && Block() == [] && HandedOn()
    {
      hide *;
      AllHandedOn();
      HandedOnIs();
      ShapeFacts();
      TalliedIs(|text|);
      ClearHash();
      TallyCut(flushed, cut, text, MaxDist());
      base := base + strstart;
      strstart := 0;
      block_start := 0;
      insert := 0;
      ins := {};
      cut := Cut(|flushed|, |text|);
      NoneTallied();
      TalliedIs(base);
      StartsAfresh();
      HandedOnIs();
    }

    /** Once the last block has been sent, nothing is left to be sent. */
    ghost predicate Settled()
      reads `finished, `lookahead, `last_lit, `match_available, `flushed, `text
    {
      finished ==> lookahead == 0 && last_lit == 0 && !match_available && StandsFor(flushed, text, |text|)
    }

    lemma SettledIs()
      ensures Settled() <==>
        (finished ==> lookahead == 0 && last_lit == 0 && !match_available && StandsFor(flushed, text, |text|))
    {
    }

    /** Hands over what has been sent, as far as there is room. */
    method FlushPending()
      requires Valid()
      modifies `avail_out, sender, sender.pending_buf
      ensures Valid() && (avail_out > 0 ==> sender.pending == 0)
      ensures old(sender.pending) > 0 && old(avail_out) > 0 ==> sender.pending < old(sender.pending)
    {
      hide *;
      ValidIs();
      if level <= 3 { FastValidIs(); } else { SlowValidIs(); }
      ghost var pos := base + strstart - if level <= 3 then 0 else Held();
      ShapeOfValid();
      ShapeFacts();
      TalliedIs(pos);
      WrittenIs(text, base + block_start);
      BlockIs();
      ghost var block := Block();
      avail_out := sender.FlushPending(avail_out);
      WrittenIs(text, base + block_start);
      BlockIs();
      TalliedIs(pos);
      if level <= 3 { FastValidIs(); } else { SlowValidIs(); }
      ValidIs();
    }

    lemma ShapeOfValid()
      requires Valid()
      ensures Shape()
    {
    }

    /** What is still to be done after a call that found nothing wrong: less than before it. */
    twostate predicate Nearer()
      reads this, sender
    {
      || (finished && !old(finished))
      || (finished == old(finished) && Left() < old(Left()))
      || (finished == old(finished) && Left() == old(Left()) && sender.pending < old(sender.pending))
    }

    twostate lemma NearerIs()
      ensures Nearer() <==>
        || (finished && !old(finished))
        || (finished == old(finished) && Left() < old(Left()))
        || (finished == old(finished) && Left() == old(Left()) && sender.pending < old(sender.pending))
    {
    }

    /** Notes the kind of the last flush. */
    method Note(flush: int)
      requires Valid()
      modifies `last_flush
      ensures Valid()
    {
      hide *;
      ValidIs();
      if level <= 3 { FastValidIs(); } else { SlowValidIs(); }
      last_flush := flush;
      if level <= 3 { FastValidIs(); } else { SlowValidIs(); }
      ValidIs();
    }

    /** Takes in what there is and sends what is done, nothing being pending; a flush is marked when all is sent. */
    method Work(flush: nat) returns (status: Status)
      requires Valid() && Settled() && sender.pending == 0 && (finished ==> next_in == [] && flush == Z_FINISH)
      modifies this, window, prev, head, sender, sender.pending_buf
      ensures Valid() && Settled() && old(text) <= text && text + next_in == old(text) + old(next_in)
      ensures old(finished) ==> finished
      ensures finished ==> flush == Z_FINISH && next_in == []
      ensures status == Z_OK || (status == Z_STREAM_END && finished && sender.pending == 0)
      ensures flush == Z_FINISH && status == Z_OK ==> Nearer()
    {
      hide *;
      FlushModes();
      SettledIs();
      LeftIs();
      if next_in != [] || lookahead != 0 || (flush != Z_NO_FLUSH && !finished) {
        var state := Deflate(flush);
        LeftIs();
        SettledIs();
        if state != NeedMore { HandedOnIs(); }
        if state == NeedMore || state == FinishStarted {
          if avail_out == 0 { Note(-1); }
          SettledIs();
          NearerIs();
          return Z_OK;
        }
        if state == BlockDone {
          MarkFlush(flush);
          if flush == Z_FULL_FLUSH { ForgetHistory(); }
          FlushPending();
          SettledIs();
          if avail_out == 0 {
            Note(-1);
            SettledIs();
            return Z_OK;
          }
        }
      }
      status := if flush != Z_FINISH then Z_OK else Z_STREAM_END;
    }

    /** A call of deflate for raw data: hands over what is pending, then goes on with the input. */
    method Call(flush: nat) returns (status: Status)
      requires Valid() && Settled() && flush <= 5
      modifies this, window, prev, head, sender, sender.pending_buf
      ensures Valid() && Settled() && old(text) <= text && text + next_in == old(text) + old(next_in)
      ensures old(finished) ==> finished
      ensures finished && !old(finished) ==> flush == Z_FINISH && next_in == []
      ensures status == Z_STREAM_END ==> finished && sender.pending == 0
      ensures status == Z_STREAM_ERROR <==> old(finished) && flush != Z_FINISH
      ensures flush == Z_FINISH && old(avail_out) > 0 && (old(finished) ==> old(next_in) == []) ==>
        status == Z_STREAM_END || (status == Z_OK && Nearer())
    {
      hide *;
      FlushModes();
      SettledIs();
      LeftIs();
      status := Z_OK;
      if finished && flush != Z_FINISH { return Z_STREAM_ERROR; }
      if avail_out == 0 { return Z_BUF_ERROR; }
      var old_flush := last_flush;
      Note(flush);
      SettledIs();
      if sender.pending != 0 {
        FlushPending();
        SettledIs();
        LeftIs();
        NearerIs();
        if avail_out == 0 {
          Note(-1);
          SettledIs();
          LeftIs();
          NearerIs();
          return;
        }
      } else if next_in == [] && Rank(flush) <= Rank(old_flush) && flush != Z_FINISH {
        return Z_BUF_ERROR;
      }
      if finished && next_in != [] { return Z_BUF_ERROR; }
      label before:
      status := Work(flush);
      NearerIs@before();
      LeftIs();
      NearerIs();
    }
  }
}
