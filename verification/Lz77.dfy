/** Literals and (distance, length) pairs, and the text they stand for (section 4 of RFC 1951). */
module Lz77 {
  import opened MachineInts

  datatype Token = Literal(c: Byte) | Match(distance: nat, length: nat)

  /** Appends length bytes, each a copy of the one distance places back; the copy may overlap what it produces. */
  ghost function CopyBack(out: seq<Byte>, distance: nat, length: nat): (r: seq<Byte>)
    decreases length
  {
    if length == 0 || !(1 <= distance <= |out|) then out
    else CopyBack(out + [out[|out| - distance]], distance, length - 1)
  }

  ghost function Append(out: seq<Byte>, t: Token): seq<Byte> {
    match t
    case Literal(c) => out + [c]
    case Match(distance, length) => CopyBack(out, distance, length)
  }

  lemma AppendLiteral(out: seq<Byte>, c: Byte)
    ensures Append(out, Literal(c)) == out + [c]
  {
  }

  lemma AppendMatch(out: seq<Byte>, distance: nat, length: nat)
    ensures Append(out, Match(distance, length)) == CopyBack(out, distance, length)
  {
  }

  /** The text after out that the tokens stand for. */
  ghost function Expand(out: seq<Byte>, tokens: seq<Token>): seq<Byte> {
    if tokens == [] then out else Append(Expand(out, tokens[..|tokens| - 1]), tokens[|tokens| - 1])
  }

  lemma ExpandPush(out: seq<Byte>, tokens: seq<Token>, t: Token)
    ensures Expand(out, tokens + [t]) == Append(Expand(out, tokens), t)
  {
    assert (tokens + [t])[..|tokens|] == tokens;
  }

  lemma {:induction false} ExpandAdd(out: seq<Byte>, v: seq<Token>, w: seq<Token>)
    ensures Expand(out, v + w) == Expand(Expand(out, v), w)
  {
    if w == [] {
      assert v + w == v;
    } else {
      var k := |w| - 1;
      ExpandAdd(out, v, w[..k]);
      assert v + w == v + w[..k] + [w[k]];
      ExpandPush(out, v + w[..k], w[k]);
    }
  }

  const MIN_MATCH := 3
  const MAX_MATCH := 258

  /** A token the format can carry, reaching back at most maxDist. */
  ghost predicate Sound(t: Token, maxDist: nat) {
    t.Match? ==> 1 <= t.distance <= maxDist && MIN_MATCH <= t.length <= MAX_MATCH
  }

  ghost predicate AllSound(tokens: seq<Token>, maxDist: nat) {
    forall k :: 0 <= k < |tokens| ==> Sound(tokens[k], maxDist)
  }

  /** From position p on, length bytes of text repeat those distance places back. */
  ghost predicate Repeats(text: seq<Byte>, p: nat, distance: nat, length: nat) {
    && 1 <= distance <= p && p + length <= |text|
    && forall k :: p <= k < p + length ==> text[k] == text[k - distance]
  }

  /** Copying back reproduces a repetition. */
  lemma {:induction false} CopyIsRepeat(text: seq<Byte>, p: nat, distance: nat, length: nat)
    requires Repeats(text, p, distance, length)
    ensures CopyBack(text[..p], distance, length) == text[..p + length]
    decreases length
  {
    if length > 0 {
      assert text[p - distance] == text[p];
      assert text[..p] + [text[p]] == text[..p + 1];
      CopyIsRepeat(text, p + 1, distance, length - 1);
    }
  }

  /** The tokens so far stand for the first p bytes of text. */
  ghost predicate StandsFor(tokens: seq<Token>, text: seq<Byte>, p: int) {
    0 <= p <= |text| && Expand([], tokens) == text[..p]
  }

  lemma StandsForLiteral(tokens: seq<Token>, text: seq<Byte>, p: nat)
    requires StandsFor(tokens, text, p) && p < |text|
    ensures StandsFor(tokens + [Literal(text[p])], text, p + 1)
  {
    ExpandPush([], tokens, Literal(text[p]));
  }

  lemma StandsForMatch(tokens: seq<Token>, text: seq<Byte>, p: nat, distance: nat, length: nat)
    requires StandsFor(tokens, text, p) && Repeats(text, p, distance, length)
    ensures StandsFor(tokens + [Match(distance, length)], text, p + length)
  {
    ExpandPush([], tokens, Match(distance, length));
    CopyIsRepeat(text, p, distance, length);
  }

  lemma StandsForMore(tokens: seq<Token>, text: seq<Byte>, more: seq<Byte>, p: int)
    requires StandsFor(tokens, text, p)
    ensures StandsFor(tokens, text + more, p)
  {
    assert (text + more)[..p] == text[..p];
  }

  lemma RepeatsMore(text: seq<Byte>, more: seq<Byte>, p: nat, distance: nat, length: nat)
    requires Repeats(text, p, distance, length)
    ensures Repeats(text + more, p, distance, length)
  {
  }

  /** A block of tokens stands for the bytes between what came before it and what it reaches. */
  lemma BlockStandsFor(before: seq<Token>, block: seq<Token>, text: seq<Byte>, p: int, e: int)
    requires StandsFor(before, text, p) && StandsFor(before + block, text, e)
    ensures Expand(text[..p], block) == text[..e]
  {
    ExpandAdd([], before, block);
  }

  /** No match reaches back further than out and what the tokens before it stand for. */
  ghost predicate Reaching(out: seq<Byte>, tokens: seq<Token>) {
    forall k :: 0 <= k < |tokens| && tokens[k].Match? ==> tokens[k].distance <= |Expand(out, tokens[..k])|
  }

  lemma ReachingPush(out: seq<Byte>, tokens: seq<Token>, t: Token)
    requires Reaching(out, tokens) && (t.Match? ==> t.distance <= |Expand(out, tokens)|)
    ensures Reaching(out, tokens + [t])
  {
    var w := tokens + [t];
    forall k | 0 <= k < |w| && w[k].Match? ensures w[k].distance <= |Expand(out, w[..k])| {
      assert w[..k] == tokens[..k];
      if k == |tokens| { assert tokens[..k] == tokens; }
    }
  }

  /** Tokens that come later reach into what the earlier ones stand for. */
  lemma ReachingPart(out: seq<Byte>, v: seq<Token>, w: seq<Token>)
    requires Reaching(out, v + w)
    ensures Reaching(Expand(out, v), w)
  {
    forall k | 0 <= k < |w| && w[k].Match? ensures w[k].distance <= |Expand(Expand(out, v), w[..k])| {
      ExpandAdd(out, v, w[..k]);
      assert (v + w)[|v| + k] == w[k] && (v + w)[..|v| + k] == v + w[..k];
    }
  }

  lemma SoundPush(tokens: seq<Token>, t: Token, maxDist: nat)
    requires AllSound(tokens, maxDist) && Sound(t, maxDist)
    ensures AllSound(tokens + [t], maxDist)
  {
  }

  lemma {:induction false} CopyGrows(out: seq<Byte>, distance: nat, length: nat)
    ensures |out| <= |CopyBack(out, distance, length)|
    decreases length
  {
    if length > 0 && 1 <= distance <= |out| { CopyGrows(out + [out[|out| - distance]], distance, length - 1); }
  }

  lemma {:induction false} ExpandGrows(out: seq<Byte>, tokens: seq<Token>)
    ensures |out| <= |Expand(out, tokens)|
  {
    if tokens != [] {
      ExpandGrows(out, tokens[..|tokens| - 1]);
      var t := tokens[|tokens| - 1];
      if t.Match? { CopyGrows(Expand(out, tokens[..|tokens| - 1]), t.distance, t.length); }
    }
  }

  /** Every token adds at least a byte. */
  lemma {:induction false} ExpandLonger(out: seq<Byte>, tokens: seq<Token>, maxDist: nat)
    requires AllSound(tokens, maxDist) && Reaching(out, tokens)
    ensures |Expand(out, tokens)| >= |out| + |tokens|
    decreases |tokens|
  {
    if tokens != [] {
      var n := |tokens| - 1;
      var before, t := tokens[..n], tokens[n];
      assert before + [t] == tokens;
      ReachingFirst(out, before, [t]);
      assert Sound(t, maxDist);
      ExpandLonger(out, before, maxDist);
      AppendLonger(Expand(out, before), t, maxDist);
    }
  }

  lemma ReachingFirst(out: seq<Byte>, v: seq<Token>, w: seq<Token>)
    requires Reaching(out, v + w)
    ensures Reaching(out, v)
  {
    forall k | 0 <= k < |v| && v[k].Match? ensures v[k].distance <= |Expand(out, v[..k])| {
      assert (v + w)[..k] == v[..k] && (v + w)[k] == v[k];
    }
  }

  lemma AppendLonger(out: seq<Byte>, t: Token, maxDist: nat)
    requires Sound(t, maxDist) && (t.Match? ==> t.distance <= |out|)
    ensures |Append(out, t)| >= |out| + 1
  {
    if t.Match? { CopyGrows(out + [out[|out| - t.distance]], t.distance, t.length - 1); }
  }

  lemma RepeatsEnd(text: seq<Byte>, p: nat, distance: nat, length: nat)
    requires Repeats(text, p, distance, length)
    ensures p + length <= |text|
  {
  }
}
