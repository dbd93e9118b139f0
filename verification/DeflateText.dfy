/** What the window of deflate holds of the text, and what has been tallied for it. */
module DeflateText {
  import opened MachineInts
  import opened Lz77

  /** Subtraction of 32-bit unsigned integers. */
  function Sub32(a: int, b: int): (r: UInt32) {
    (a - b) % 0x1_0000_0000
  }

  /** A distance does not change when both ends move. */
  lemma Sub32Moves(a: int, b: UInt32, m: int)
    ensures Sub32(a - m, Sub32(b, m)) == Sub32(a, b)
  {
    var k := 0x1_0000_0000;
    var c := Sub32(b, m);
    assert c == (b - m) - k * ((b - m) / k);
    ModShift(a - b, (b - m) / k);
  }

  lemma ModShift(x: int, q: int)
    ensures (x + 0x1_0000_0000 * q) % 0x1_0000_0000 == x % 0x1_0000_0000
  {
  }

  /** Some of the input has been added to the text. */
  ghost predicate Consumed(text: seq<Byte>, input: seq<Byte>, text': seq<Byte>, input': seq<Byte>) {
    text <= text' && text' + input' == text + input
  }

  lemma ConsumedIs(text: seq<Byte>, input: seq<Byte>, text': seq<Byte>, input': seq<Byte>)
    ensures Consumed(text, input, text', input') <==> text <= text' && text' + input' == text + input
  {
  }

  lemma ConsumedAgain(t0: seq<Byte>, n0: seq<Byte>, t1: seq<Byte>, n1: seq<Byte>, t2: seq<Byte>, n2: seq<Byte>)
    requires Consumed(t0, n0, t1, n1) && t1 <= t2 && t2 + n2 == t1 + n1
    ensures Consumed(t0, n0, t2, n2)
  {
  }

  /** Below limit, window position i holds byte base + i of the text, which ends there. */
  ghost predicate InWindow(w: seq<Byte>, text: seq<Byte>, base: nat, limit: nat) {
    && limit <= |w| && |text| == base + limit
    && forall i :: 0 <= i < limit ==> w[i] == text[base + i]
  }

  lemma InWindowSize(w: seq<Byte>, text: seq<Byte>, base: nat, limit: nat)
    requires InWindow(w, text, base, limit)
    ensures limit <= |w| && |text| == base + limit
  {
  }

  lemma InWindowByte(w: seq<Byte>, text: seq<Byte>, base: nat, limit: nat, i: nat)
    requires InWindow(w, text, base, limit) && i < limit
    ensures i < |w| && base + i < |text| && w[i] == text[base + i]
  {
  }

  /** More text has been read behind the limit. */
  lemma InWindowFill(w: seq<Byte>, w': seq<Byte>, text: seq<Byte>, base: nat, limit: nat, more: seq<Byte>)
    requires InWindow(w, text, base, limit) && FilledIn(w, w', limit, more)
    ensures InWindow(w', text + more, base, limit + |more|)
  {
  }

  /** Position by position, the window keeps its first part, and more follows. */
  ghost predicate FilledIn(w: seq<Byte>, w': seq<Byte>, limit: nat, more: seq<Byte>) {
    && |w'| == |w| && limit + |more| <= |w|
    && (forall i :: 0 <= i < limit ==> w'[i] == w[i])
    && (forall i :: 0 <= i < |more| ==> w'[limit + i] == more[i])
  }

  lemma FilledInIs(w: seq<Byte>, w': seq<Byte>, limit: nat, more: seq<Byte>)
    requires |w'| == |w| && limit + |more| <= |w|
    requires forall i :: 0 <= i < limit ==> w'[i] == w[i]
    requires forall i :: 0 <= i < |more| ==> w'[limit + i] == more[i]
    ensures FilledIn(w, w', limit, more)
  {
  }

  lemma FilledInParts(w: seq<Byte>, w': seq<Byte>, limit: nat, more: seq<Byte>)
    requires FilledIn(w, w', limit, more)
    ensures |w'| == |w| && forall i :: 0 <= i < limit ==> w'[i] == w[i]
  {
  }

  lemma InWindowSlide(w: seq<Byte>, w': seq<Byte>, text: seq<Byte>, base: nat, limit: nat, wsize: nat)
    requires InWindow(w, text, base, limit) && |w'| == |w| == 2 * wsize && wsize <= limit
    requires forall i :: 0 <= i < wsize ==> w'[i] == w[i + wsize]
    ensures InWindow(w', text, base + wsize, limit - wsize)
  {
  }

  lemma InWindowTail(w: seq<Byte>, w': seq<Byte>, text: seq<Byte>, base: nat, limit: nat)
    requires InWindow(w, text, base, limit) && |w'| == |w|
    requires forall i :: 0 <= i < limit ==> w'[i] == w[i]
    ensures InWindow(w', text, base, limit)
  {
  }

  /** length bytes of the window from str on equal those from m on. */
  ghost predicate SameBytes(w: seq<Byte>, str: nat, m: nat, length: nat) {
    && str + length <= |w| && m < str
    && forall k :: str <= k < str + length ==> w[k] == w[k - str + m]
  }

  lemma SameMore(w: seq<Byte>, str: nat, m: nat, length: nat)
    requires SameBytes(w, str, m, length) && str + length < |w|
    ensures SameBytes(w, str, m, length + 1) <==> w[str + length] == w[m + length]
  {
    assert w[str + length - str + m] == w[m + length];
  }

  lemma SameLess(w: seq<Byte>, str: nat, m: nat, length: nat, length': nat)
    requires SameBytes(w, str, m, length) && length' <= length
    ensures SameBytes(w, str, m, length')
  {
  }

  lemma SameAt(w: seq<Byte>, str: nat, m: nat, length: nat, k: nat)
    requires SameBytes(w, str, m, length) && k < length
    ensures m < str && str + length <= |w| && m + k < |w| && w[str + k] == w[m + k]
  {
  }

  lemma SameThree(w: seq<Byte>, str: nat, m: nat)
    requires str + 2 < |w| && m < str && w[m] == w[str] && w[m + 1] == w[str + 1] && w[m + 2] == w[str + 2]
    ensures SameBytes(w, str, m, 3)
  {
  }

  /** A match in the window is a repetition in the text. */
  lemma SameIsRepeat(w: seq<Byte>, text: seq<Byte>, base: nat, limit: nat, str: nat, m: nat, length: nat)
    requires InWindow(w, text, base, limit) && SameBytes(w, str, m, length) && str + length <= limit
    ensures Repeats(text, base + str, str - m, length)
  {
    forall k | base + str <= k < base + str + length ensures text[k] == text[k - (str - m)] {
      var i := k - base - str;
      assert w[str + i] == w[m + i];
      assert text[base + (m + i)] == w[m + i] && text[base + (str + i)] == w[str + i];
    }
  }

  /* ---- the tally ---- */

  function TokenOf(d: UInt16, l: Byte): Token {
    if d == 0 then Literal(l) else Match(d, l + MIN_MATCH)
  }

  /** The first n entries of the two tally buffers. */
  function Tokens(d: seq<UInt16>, l: seq<Byte>, n: nat): (r: seq<Token>)
    requires n <= |d| && n <= |l|
    ensures |r| == n
  {
    seq(n, k requires 0 <= k < n => TokenOf(d[k], l[k]))
  }

  lemma TokensPush(d: seq<UInt16>, l: seq<Byte>, n: nat, dist: UInt16, lc: Byte)
    requires n < |d| && n < |l|
    ensures Tokens(d[n := dist], l[n := lc], n + 1) == Tokens(d, l, n) + [TokenOf(dist, lc)]
  {
    var a, b := Tokens(d[n := dist], l[n := lc], n + 1), Tokens(d, l, n) + [TokenOf(dist, lc)];
    forall k | 0 <= k < n + 1 ensures a[k] == b[k] {}
  }

  lemma TokensNone(d: seq<UInt16>, l: seq<Byte>)
    ensures Tokens(d, l, 0) == []
  {
  }

  /** Where the history was last forgotten: after so many tokens and so many bytes of text. */
  datatype Cut = Cut(tokens: nat, bytes: nat)

  /** The tokens behind the cut stand by themselves for the text behind it: no match reaches back across it. */
  ghost predicate Apart(tokens: seq<Token>, cut: Cut, text: seq<Byte>, pos: int) {
    && cut.tokens <= |tokens| && cut.bytes <= pos <= |text|
    && Reaching([], tokens[cut.tokens..]) && Expand([], tokens[cut.tokens..]) == text[cut.bytes..pos]
  }

  lemma ApartMore(tokens: seq<Token>, cut: Cut, text: seq<Byte>, more: seq<Byte>, pos: int)
    requires Apart(tokens, cut, text, pos)
    ensures Apart(tokens, cut, text + more, pos)
  {
    assert (text + more)[cut.bytes..pos] == text[cut.bytes..pos];
  }

  lemma ApartLiteral(tokens: seq<Token>, cut: Cut, text: seq<Byte>, pos: nat)
    requires Apart(tokens, cut, text, pos) && pos < |text|
    ensures Apart(tokens + [Literal(text[pos])], cut, text, pos + 1)
  {
    hide *;
    ApartIs(tokens, cut, text, pos);
    var behind, t := tokens[cut.tokens..], Literal(text[pos]);
    ExpandPush([], behind, t);
    AppendLiteral(Expand([], behind), text[pos]);
    ReachingPush([], behind, t);
    assert (tokens + [t])[cut.tokens..] == behind + [t];
    assert text[cut.bytes..pos] + [text[pos]] == text[cut.bytes..pos + 1];
    ApartIs(tokens + [t], cut, text, pos + 1);
  }

  lemma ApartMatch(tokens: seq<Token>, cut: Cut, text: seq<Byte>, pos: nat, distance: nat, length: nat)
    requires Apart(tokens, cut, text, pos) && Repeats(text, pos, distance, length) && cut.bytes + distance <= pos
    ensures Apart(tokens + [Match(distance, length)], cut, text, pos + length)
  {
    hide *;
    ApartIs(tokens, cut, text, pos);
    RepeatsEnd(text, pos, distance, length);
    var behind, t, part, p := tokens[cut.tokens..], Match(distance, length), text[cut.bytes..], pos - cut.bytes;
    ExpandPush([], behind, t);
    AppendMatch(Expand([], behind), distance, length);
    ReachingPush([], behind, t);
    RepeatsPart(text, cut.bytes, pos, distance, length);
    CopyIsRepeat(part, p, distance, length);
    assert (tokens + [t])[cut.tokens..] == behind + [t];
    assert part[..p] == text[cut.bytes..pos] && part[..p + length] == text[cut.bytes..pos + length];
    ApartIs(tokens + [t], cut, text, pos + length);
  }

  lemma ApartIs(tokens: seq<Token>, cut: Cut, text: seq<Byte>, pos: int)
    ensures Apart(tokens, cut, text, pos) <==>
      && cut.tokens <= |tokens| && cut.bytes <= pos <= |text|
      && Reaching([], tokens[cut.tokens..]) && Expand([], tokens[cut.tokens..]) == text[cut.bytes..pos]
  {
  }

  lemma RepeatsPart(text: seq<Byte>, from: nat, pos: nat, distance: nat, length: nat)
    requires Repeats(text, pos, distance, length) && from + distance <= pos
    ensures Repeats(text[from..], pos - from, distance, length)
  {
    var part := text[from..];
    forall k | pos - from <= k < pos - from + length ensures part[k] == part[k - distance] {
      assert text[from + k] == text[from + k - distance];
    }
  }

  /** The flushed tokens stand for the text up to the start of the current block, and with the block up to pos. */
  ghost predicate TalliedUpTo(flushed: seq<Token>, block: seq<Token>, cut: Cut, text: seq<Byte>, start: int, pos: int,
                              maxDist: nat)
  {
    && AllSound(flushed + block, maxDist) && Reaching([], flushed + block) && Apart(flushed + block, cut, text, pos)
    && StandsFor(flushed, text, start) && StandsFor(flushed + block, text, pos)
  }

  lemma TallyMore(flushed: seq<Token>, block: seq<Token>, cut: Cut, text: seq<Byte>, more: seq<Byte>, start: int,
                  pos: int, maxDist: nat)
    requires TalliedUpTo(flushed, block, cut, text, start, pos, maxDist)
    ensures TalliedUpTo(flushed, block, cut, text + more, start, pos, maxDist)
  {
    ApartMore(flushed + block, cut, text, more, pos);
    StandsForMore(flushed, text, more, start);
    StandsForMore(flushed + block, text, more, pos);
  }

  lemma TallyLiteral(flushed: seq<Token>, block: seq<Token>, cut: Cut, text: seq<Byte>, start: int, pos: nat,
                     maxDist: nat)
    requires TalliedUpTo(flushed, block, cut, text, start, pos, maxDist) && pos < |text|
    ensures TalliedUpTo(flushed, block + [Literal(text[pos])], cut, text, start, pos + 1, maxDist)
  {
    var t := Literal(text[pos]);
    StandsForLiteral(flushed + block, text, pos);
    SoundPush(flushed + block, t, maxDist);
    ReachingPush([], flushed + block, t);
    ApartLiteral(flushed + block, cut, text, pos);
    assert flushed + block + [t] == flushed + (block + [t]);
  }

  lemma TallyMatch(flushed: seq<Token>, block: seq<Token>, cut: Cut, text: seq<Byte>, start: int, pos: nat,
                   maxDist: nat, distance: nat, length: nat)
    requires TalliedUpTo(flushed, block, cut, text, start, pos, maxDist) && Repeats(text, pos, distance, length)
    requires distance <= maxDist && MIN_MATCH <= length <= MAX_MATCH && cut.bytes + distance <= pos
    ensures TalliedUpTo(flushed, block + [Match(distance, length)], cut, text, start, pos + length, maxDist)
  {
    var t := Match(distance, length);
    StandsForMatch(flushed + block, text, pos, distance, length);
    SoundPush(flushed + block, t, maxDist);
    ReachingPush([], flushed + block, t);
    ApartMatch(flushed + block, cut, text, pos, distance, length);
    assert flushed + block + [t] == flushed + (block + [t]);
  }

  /** A flushed block stands exactly for the stretch of text handed on with it. */
  lemma TallyFlush(flushed: seq<Token>, block: seq<Token>, cut: Cut, text: seq<Byte>, start: int, pos: int,
                   maxDist: nat)
    requires TalliedUpTo(flushed, block, cut, text, start, pos, maxDist)
    ensures TalliedUpTo(flushed + block, [], cut, text, pos, pos, maxDist)
    ensures 0 <= start <= |text| && 0 <= pos <= |text| && Expand(text[..start], block) == text[..pos]
    ensures Reaching(text[..start], block) && AllSound(block, maxDist)
  {
    forall k | 0 <= k < |block|
      ensures Sound(block[k], maxDist)
    {
      assert (flushed + block)[|flushed| + k] == block[k];
    }
    BlockStandsFor(flushed, block, text, start, pos);
    ReachingPart([], flushed, block);
    assert flushed + block + [] == flushed + block;
  }

  lemma TallyStart(maxDist: nat)
    ensures TalliedUpTo([], [], Cut(0, 0), [], 0, 0, maxDist)
  {
    var none: seq<Token> := [];
    assert none + none == none;
  }

  /** A cut where everything has been flushed. */
  lemma TallyCut(flushed: seq<Token>, cut: Cut, text: seq<Byte>, maxDist: nat)
    requires TalliedUpTo(flushed, [], cut, text, |text|, |text|, maxDist)
    ensures TalliedUpTo(flushed, [], Cut(|flushed|, |text|), text, |text|, |text|, maxDist)
  {
    assert flushed + [] == flushed;
    assert flushed[|flushed|..] == [] && text[|text|..|text|] == [];
  }

  lemma WindowPart(w: seq<Byte>, text: seq<Byte>, base: nat, limit: nat, lo: nat, hi: nat)
    requires InWindow(w, text, base, limit) && lo <= hi <= limit
    ensures hi <= |w| && base + hi <= |text| && w[lo..hi] == text[base + lo..base + hi]
  {
  }
}
