/** The head of a dynamic block: the lengths of the block's two codes, themselves coded (section 3.2.7 of RFC 1951). */
module InflateHeader {
  import opened MachineInts
  import opened SetSums
  import opened DeflateCodes
  import opened TableLayout
  import opened InflateTable
  import opened InflateBits
  import opened InflateSource
  import opened DeflateTokens
  import opened DeflateBlocks

  /** The bits to come, and how many they are. */
  datatype Bits = Bits(h: nat, avail: nat)

  /** What follows n bits. */
  ghost function Skip(p: Bits, n: nat): Bits
    requires n <= p.avail
  {
    Bits(After(p.h, n), p.avail - n)
  }

  lemma SkipIs(p: Bits, n: nat)
    requires n <= p.avail
    ensures Pow2(n) > 0 && 0 <= p.h / Pow2(n) == After(p.h, n) && Skip(p, n) == Bits(After(p.h, n), p.avail - n)
  {
    hide Pow2, After;
    AfterIs(p.h, n);
  }

  lemma SkipSkip(p: Bits, a: nat, b: nat)
    requires a + b <= p.avail
    ensures Skip(p, a).avail == p.avail - a && Skip(Skip(p, a), b) == Skip(p, a + b)
  {
    hide *;
    SkipIs(p, a);
    SkipIs(p, a + b);
    SkipIs(Skip(p, a), b);
    TwoDrops(p.h, a, b);
  }

  lemma SkipNone(p: Bits)
    ensures Skip(p, 0) == p
  {
    ExtraValue(p.h, 0);
  }

  ghost function BitsOf(src: BitSource): Bits
    requires src.Valid()
    reads src
  {
    Bits(src.Ahead(), src.Avail())
  }

  lemma BitsOfIs(src: BitSource)
    requires src.Valid()
    ensures BitsOf(src) == Bits(src.Ahead(), src.Avail()) && src.bits <= src.Avail()
  {
    src.Parts();
  }

  /** Uses up n of the bits held. */
  method UseUp(src: BitSource, n: nat)
    requires src.Valid() && n <= src.bits
    modifies src
    ensures src.Valid() && n <= old(BitsOf(src)).avail && BitsOf(src) == Skip(old(BitsOf(src)), n)
    ensures src.bits == old(src.bits) - n
  {
    hide *;
    ghost var p := BitsOf(src);
    BitsOfIs(src);
    SkipIs(p, n);
    src.DropBits(n);
    BitsOfIs(src);
  }

  /** Makes n bits present. */
  method Need(src: BitSource, n: nat) returns (ok: bool)
    requires src.Valid()
    modifies src
    ensures src.Valid() && BitsOf(src) == old(BitsOf(src)) && (ok <==> n <= BitsOf(src).avail)
    ensures ok ==> n <= src.bits
    ensures src.bits == old(src.bits) || src.bits < n + 8
  {
    hide *;
    BitsOfIs(src);
    ok := src.NeedBits(n);
    BitsOfIs(src);
  }

  /** The next n of the bits held as a number, used up. */
  method Take(src: BitSource, n: nat) returns (v: nat)
    requires src.Valid() && n <= src.bits
    modifies src
    ensures src.Valid() && n <= old(BitsOf(src)).avail && BitsOf(src) == Skip(old(BitsOf(src)), n)
    ensures ExtraIs(old(BitsOf(src)).h, n, v) && src.bits == old(src.bits) - n
  {
    hide *;
    BitsOfIs(src);
    ExtraValue(src.Ahead(), n);
    v := src.Low(n);
    UseUp(src, n);
  }

  /* ---- one length, or a run of them ---- */

  /** What the codes for code lengths say: a length; 3 to 6 times the last one; 3 to 10, or 11 to 138, zeros. */
  datatype Item = Given(n: nat) | Repeat(extra: nat) | Few(extra: nat) | Many(extra: nat)

  function Symbol(x: Item): nat {
    match x
    case Given(n) => n
    case Repeat(_) => 16
    case Few(_) => 17
    case Many(_) => 18
  }

  function ExtraSize(x: Item): nat {
    match x
    case Given(_) => 0
    case Repeat(_) => 2
    case Few(_) => 3
    case Many(_) => 7
  }

  function ExtraOf(x: Item): nat {
    if x.Given? then 0 else x.extra
  }

  /** The bits begin with the code of x and its extra bits, all of them there. */
  ghost predicate ItemHere(cl: seq<nat>, x: Item, p: Bits) {
    && (x.Given? ==> x.n < 16) && Symbol(x) < |cl| && Leads(cl, Symbol(x), p.h)
    && cl[Symbol(x)] + ExtraSize(x) <= p.avail
    && ExtraIs(After(p.h, cl[Symbol(x)]), ExtraSize(x), ExtraOf(x))
  }

  ghost function ItemSize(cl: seq<nat>, x: Item): nat
    requires Symbol(x) < |cl|
  {
    cl[Symbol(x)] + ExtraSize(x)
  }

  /** The lengths that x adds to those so far. */
  ghost function Adds(x: Item, sofar: seq<nat>): seq<nat> {
    match x
    case Given(n) => [n]
    case Repeat(extra) => seq(3 + extra, _ => if sofar == [] then 0 else sofar[|sofar| - 1])
    case Few(extra) => seq(3 + extra, _ => 0)
    case Many(extra) => seq(11 + extra, _ => 0)
  }

  ghost predicate CanAdd(x: Item, sofar: seq<nat>, total: nat) {
    (x.Repeat? ==> sofar != []) && |sofar| + |Adds(x, sofar)| <= total
  }

  lemma ItemIs(cl: seq<nat>, x: Item, p: Bits)
    ensures ItemHere(cl, x, p) <==>
              && (x.Given? ==> x.n < 16) && Symbol(x) < |cl| && Leads(cl, Symbol(x), p.h)
              && cl[Symbol(x)] + ExtraSize(x) <= p.avail
              && ExtraIs(After(p.h, cl[Symbol(x)]), ExtraSize(x), ExtraOf(x))
    ensures ItemHere(cl, x, p) ==> ItemSize(cl, x) == cl[Symbol(x)] + ExtraSize(x) <= p.avail
  {
  }

  lemma ItemKinds(x: Item)
    ensures x.Given? ==> Symbol(x) == x.n && ExtraSize(x) == 0 && ExtraOf(x) == 0
    ensures !x.Given? ==> ExtraOf(x) == x.extra
    ensures x.Repeat? ==> Symbol(x) == 16 && ExtraSize(x) == 2
    ensures x.Few? ==> Symbol(x) == 17 && ExtraSize(x) == 3
    ensures x.Many? ==> Symbol(x) == 18 && ExtraSize(x) == 7
  {
  }

  /** The entry found for a code length tells its symbol. */
  lemma SymbolFound(t: seq<Code>, root: nat, cl: seq<nat>, h: nat, e: Code, n: nat)
    requires TablesFor(t, root, cl, CODES) && Finds(t, root, h, e, n) && |cl| == 19
    ensures e.val < 19 && (forall s: nat :: Leads(cl, s, h) ==> s < 19 && e.val == s && n == cl[s])
    ensures Complete(cl) ==> Leads(cl, e.val, h) && n == cl[e.val]
    ensures !SomeCode(cl) ==> e.val == 0
  {
    forall s: nat | Leads(cl, s, h)
      ensures s < 19 && e.val == s && n == cl[s]
    {
      EntryIs(t, root, cl, CODES, s, h, e, n);
      CodesEntry(s, e.bits);
    }
    if NoneLeads(cl, h) {
      NoneSame(t, root, cl, CODES, h, h);
      FindsOnce(t, root, h, e, n, InvalidEntry(), 1);
    } else {
      var s: nat :| Leads(cl, s, h);
      LeadsSymbol(cl, s, h);
    }
  }

  lemma CodesEntry(s: nat, b: Byte)
    requires s < 19
    ensures Alphabet(CODES) == 19 && SymbolEntry(CODES, s, b).val == s
  {
  }

  lemma AddsIs(x: Item, sofar: seq<nat>)
    ensures |Adds(x, sofar)| >= 1 && (x.Given? ==> Adds(x, sofar) == [x.n])
    ensures x.Repeat? && sofar != [] ==> Adds(x, sofar) == seq(3 + x.extra, _ => sofar[|sofar| - 1])
    ensures x.Few? ==> Adds(x, sofar) == seq(3 + x.extra, _ => 0)
    ensures x.Many? ==> Adds(x, sofar) == seq(11 + x.extra, _ => 0)
  {
  }

  lemma CanAddIs(x: Item, sofar: seq<nat>, total: nat)
    ensures CanAdd(x, sofar, total) <==> (x.Repeat? ==> sofar != []) && |sofar| + |Adds(x, sofar)| <= total
  {
  }

  /** Stores length len copy times. */
  method StoreRun(lens: array<nat>, have: nat, copy: nat, len: nat)
    requires have + copy <= lens.Length
    modifies lens
    ensures lens[..have + copy] == old(lens[..have]) + seq(copy, _ => len)
  {
    for i := 0 to copy
      invariant lens[..have + i] == old(lens[..have]) + seq(i, _ => len)
    {
      lens[have + i] := len;
      assert lens[..have + i + 1] == lens[..have + i] + [len];
      assert seq(i + 1, _ => len) == seq(i, _ => len) + [len];
    }
  }

  /** What the item read is known to be. */
  ghost predicate ItemRead(cl: seq<nat>, got: Item, p: Bits, q: Bits) {
    && (Complete(cl) ==> ItemHere(cl, got, p) && Symbol(got) < |cl| && ItemSize(cl, got) <= p.avail
                         && q == Skip(p, ItemSize(cl, got)))
    && (!SomeCode(cl) ==> got == Given(0))
  }

  lemma ItemReadMade(cl: seq<nat>, got: Item, p: Bits, n: nat, q: Bits)
    requires |cl| == 19 && Symbol(got) < 19 && (got.Given? ==> got.n < 16)
    requires Complete(cl) ==> Leads(cl, Symbol(got), p.h) && n == cl[Symbol(got)]
    requires n + ExtraSize(got) <= p.avail && ExtraIs(After(p.h, n), ExtraSize(got), ExtraOf(got))
    requires q == Skip(p, n + ExtraSize(got)) && (!SomeCode(cl) ==> got == Given(0))
    ensures ItemRead(cl, got, p, q)
  {
  }

  lemma ItemReadParts(cl: seq<nat>, got: Item, p: Bits, q: Bits)
    requires ItemRead(cl, got, p, q)
    ensures Complete(cl) ==> ItemHere(cl, got, p) && Symbol(got) < |cl| && ItemSize(cl, got) <= p.avail
                             && q == Skip(p, ItemSize(cl, got))
    ensures !SomeCode(cl) ==> got == Given(0)
  {
  }

  /** Behind the code of a repeat: its extra bits as a number. */
  method ExtraBehind(src: BitSource, n: nat, k: nat) returns (ok: bool)
    requires src.Valid()
    modifies src
    ensures src.Valid() && (ok <==> n + k <= old(BitsOf(src)).avail)
    ensures ok ==> BitsOf(src) == Skip(old(BitsOf(src)), n) && k <= src.bits
    ensures ok && old(src.bits) < n + 8 ==> src.bits < k + 8
  {
    hide *;
    ok := Need(src, n + k);
    if ok { UseUp(src, n); }
  }

  /** Reads the code of a repeat and its extra bits; 16 repeats the last length, 17 and 18 are runs of zeros. */
  method ReadRepeat(src: BitSource, lens: array<nat>, have: nat, val: nat, n: nat)
    returns (mode: Mode, len: nat, copy: nat, ghost got: Item)
    requires src.Valid() && have <= lens.Length && 16 <= val <= 18
    modifies src
    ensures src.Valid() && (mode == LEN || mode == BAD || mode == BufError)
    ensures !got.Given? && Symbol(got) == val
    ensures mode == BufError <==> n + ExtraSize(got) > old(BitsOf(src)).avail
    ensures mode == BAD ==> have == 0 && got.Repeat?
    ensures mode == LEN ==>
              && (got.Repeat? ==> have > 0) && Adds(got, lens[..have]) == seq(copy, _ => len)
              && ExtraIs(After(old(BitsOf(src)).h, n), ExtraSize(got), ExtraOf(got))
              && BitsOf(src) == Skip(old(BitsOf(src)), n + ExtraSize(got))
    ensures mode == LEN && old(src.bits) < n + 8 ==> src.bits < 8
  {
    hide *;
    ghost var p := BitsOf(src);
    ghost var sofar: seq<nat> := lens[..have];
    var ok;
    len, copy := 0, 0;
    if val == 16 {
      got := Repeat(0);
      ItemKinds(got);
      ok := ExtraBehind(src, n, 2);
      if !ok {
        return BufError, len, copy, got;
      }
      if have == 0 {
        return BAD, len, copy, got;
      }
      len := lens[have - 1];
      SkipSkip(p, n, 2);
      SkipIs(p, n);
      copy := Take(src, 2);
      got := Repeat(copy);
      copy := 3 + copy;
    } else if val == 17 {
      got := Few(0);
      ItemKinds(got);
      ok := ExtraBehind(src, n, 3);
      if !ok {
        return BufError, len, copy, got;
      }
      SkipSkip(p, n, 3);
      SkipIs(p, n);
      copy := Take(src, 3);
      got := Few(copy);
      copy := 3 + copy;
    } else {
      got := Many(0);
      ItemKinds(got);
      ok := ExtraBehind(src, n, 7);
      if !ok {
        return BufError, len, copy, got;
      }
      SkipSkip(p, n, 7);
      SkipIs(p, n);
      copy := Take(src, 7);
      got := Many(copy);
      copy := 11 + copy;
    }
    mode := LEN;
    ItemKinds(got);
    AddsIs(got, sofar);
    if val == 16 { assert sofar[have - 1] == len; }
  }

  /** Reads one item, and stores the lengths it adds. */
  method ReadItem(src: BitSource, lens: array<nat>, have: nat, total: nat, codes: array<Code>, root: nat,
                  ghost cl: seq<nat>, ghost x: Item)
    returns (mode: Mode, have': nat, ghost got: Item)
    requires src.Valid() && have < total <= lens.Length && |cl| == 19
    requires TablesFor(codes[..], root, cl, CODES) && AllWithin(cl, root)
    modifies src, lens
    ensures src.Valid() && (mode == LEN || mode == BAD || mode == BufError)
    ensures mode == LEN ==>
              && CanAdd(got, old(lens[..have]), total) && have' == have + |Adds(got, old(lens[..have]))| <= total
              && lens[..have'] == old(lens[..have]) + Adds(got, old(lens[..have]))
              && ItemRead(cl, got, old(BitsOf(src)), BitsOf(src)) && (got.Given? ==> got.n < 16)
    ensures mode == LEN && old(src.bits) < 8 ==> src.bits < 8
    ensures ItemHere(cl, x, old(BitsOf(src))) && CanAdd(x, old(lens[..have]), total) ==>
              && mode == LEN && got == x && Symbol(x) < |cl| && ItemSize(cl, x) <= old(BitsOf(src)).avail
              && BitsOf(src) == Skip(old(BitsOf(src)), ItemSize(cl, x))
  {
    hide *;
    ghost var p := BitsOf(src);
    ghost var sofar: seq<nat> := lens[..have];
    BitsOfIs(src);
    assert codes[0..] == codes[..];
    var ok, here;
    ghost var e, n;
    ok, here, e, n := src.Peek(codes, 0, root, cl, CODES);
    BitsOfIs(src);
    SymbolFound(codes[..], root, cl, p.h, e, n);
    ItemIs(cl, x, p);
    ItemKinds(x);
    CanAddIs(x, sofar, total);
    have' := have;
    got := Given(0);
    if !ok {
      return BufError, have', got;
    }
    if here.val < 16 {
      UseUp(src, here.bits);
      lens[have] := here.val;
      got := Given(here.val);
      have' := have + 1;
      ItemKinds(got);
      AddsIs(got, sofar);
      CanAddIs(got, sofar, total);
      SkipIs(p, n);
      ExtraValue(After(p.h, n), 0);
      ItemReadMade(cl, got, p, n, BitsOf(src));
      assert lens[..have'] == sofar + [here.val];
      return LEN, have', got;
    }
    var len, copy;
    mode, len, copy, got := ReadRepeat(src, lens, have, here.val, here.bits);
    ItemKinds(got);
    if mode != LEN {
      return;
    }
    CanAddIs(got, sofar, total);
    SameItem(got, x, After(p.h, n));
    if have + copy > total {
      return BAD, have', got;
    }
    ItemReadMade(cl, got, p, n, BitsOf(src));
    StoreRun(lens, have, copy, len);
    have' := have + copy;
  }

  lemma SameItem(got: Item, x: Item, h: nat)
    requires ExtraIs(h, ExtraSize(got), ExtraOf(got)) && !got.Given?
    ensures Symbol(x) == Symbol(got) && (x.Given? ==> x.n < 16) && ExtraIs(h, ExtraSize(x), ExtraOf(x)) ==> x == got
  {
  }

  /* ---- all lengths ---- */

  /** From the lengths so far, the items xs lead from the bits at p to the lengths there are at q. */
  ghost predicate Unrolls(cl: seq<nat>, xs: seq<Item>, total: nat, sofar: seq<nat>, p: Bits, lens: seq<nat>, q: Bits)
    decreases |xs|
  {
    if xs == [] then lens == sofar && q == p
    else
      && ItemHere(cl, xs[0], p) && CanAdd(xs[0], sofar, total)
      && ItemSize(cl, xs[0]) <= p.avail
      && Unrolls(cl, xs[1..], total, sofar + Adds(xs[0], sofar), Skip(p, ItemSize(cl, xs[0])), lens, q)
  }

  lemma UnrollsIs(cl: seq<nat>, xs: seq<Item>, total: nat, sofar: seq<nat>, p: Bits, lens: seq<nat>, q: Bits)
    ensures xs == [] ==> (Unrolls(cl, xs, total, sofar, p, lens, q) <==> lens == sofar && q == p)
    ensures xs != [] && Unrolls(cl, xs, total, sofar, p, lens, q) ==>
              && ItemHere(cl, xs[0], p) && CanAdd(xs[0], sofar, total)
              && Symbol(xs[0]) < |cl| && ItemSize(cl, xs[0]) <= p.avail
              && Unrolls(cl, xs[1..], total, sofar + Adds(xs[0], sofar), Skip(p, ItemSize(cl, xs[0])), lens, q)
  {
  }

  lemma {:induction false} UnrollsPush(cl: seq<nat>, xs: seq<Item>, total: nat, sofar: seq<nat>, p: Bits,
                                       lens: seq<nat>, q: Bits, x: Item)
    requires Unrolls(cl, xs, total, sofar, p, lens, q) && ItemHere(cl, x, q) && CanAdd(x, lens, total)
    ensures Symbol(x) < |cl| && ItemSize(cl, x) <= q.avail
    ensures Unrolls(cl, xs + [x], total, sofar, p, lens + Adds(x, lens), Skip(q, ItemSize(cl, x)))
    decreases |xs|
  {
    ItemIs(cl, x, q);
    hide ItemHere, CanAdd, Adds, Skip, ItemSize;
    UnrollsIs(cl, xs, total, sofar, p, lens, q);
    if xs == [] {
      assert xs + [x] == [x];
      assert [x][1..] == [];
    } else {
      UnrollsPush(cl, xs[1..], total, sofar + Adds(xs[0], sofar), Skip(p, ItemSize(cl, xs[0])), lens, q, x);
      assert (xs + [x])[1..] == xs[1..] + [x];
    }
  }

  lemma {:induction false} UnrollsGrows(cl: seq<nat>, xs: seq<Item>, total: nat, sofar: seq<nat>, p: Bits,
                                        lens: seq<nat>, q: Bits)
    requires Unrolls(cl, xs, total, sofar, p, lens, q)
    ensures |sofar| <= |lens| && (xs != [] ==> |sofar| < |lens|)
    decreases |xs|
  {
    if xs != [] {
      AddsIs(xs[0], sofar);
      UnrollsGrows(cl, xs[1..], total, sofar + Adds(xs[0], sofar), Skip(p, ItemSize(cl, xs[0])), lens, q);
    }
  }

  /** What follows the next item, if there is one. */
  lemma UnrollsNext(cl: seq<nat>, xs: seq<Item>, total: nat, sofar: seq<nat>, p: Bits, lens: seq<nat>, q: Bits)
    requires Unrolls(cl, xs, total, sofar, p, lens, q) && |lens| == total
    ensures |sofar| <= total
    ensures |sofar| < total ==>
              && xs != [] && ItemHere(cl, xs[0], p) && CanAdd(xs[0], sofar, total)
              && Symbol(xs[0]) < |cl| && ItemSize(cl, xs[0]) <= p.avail
              && Unrolls(cl, xs[1..], total, sofar + Adds(xs[0], sofar), Skip(p, ItemSize(cl, xs[0])), lens, q)
    ensures |sofar| == total ==> lens == sofar && q == p
  {
    hide *;
    UnrollsGrows(cl, xs, total, sofar, p, lens, q);
    UnrollsIs(cl, xs, total, sofar, p, lens, q);
  }

  ghost predicate AllZero(lens: seq<nat>) {
    forall s :: 0 <= s < |lens| ==> lens[s] == 0
  }

  lemma AddsOk(x: Item, sofar: seq<nat>)
    requires LengthsOk(sofar) && (x.Given? ==> x.n < 16)
    ensures LengthsOk(sofar + Adds(x, sofar))
    ensures AllZero(sofar) && x == Given(0) ==> AllZero(sofar + Adds(x, sofar))
  {
  }

  lemma NoLengths()
    ensures LengthsOk([]) && AllZero([])
  {
  }

  /** What is known of the lengths read so far. */
  ghost predicate LengthsRead(cl: seq<nat>, got: seq<Item>, total: nat, p: Bits, lens: seq<nat>, q: Bits) {
    && LengthsOk(lens) && (Complete(cl) ==> Unrolls(cl, got, total, [], p, lens, q))
    && (!SomeCode(cl) ==> AllZero(lens))
  }

  lemma LengthsReadNone(cl: seq<nat>, total: nat, p: Bits)
    ensures LengthsRead(cl, [], total, p, [], p)
  {
  }

  lemma LengthsReadMore(cl: seq<nat>, got: seq<Item>, total: nat, p: Bits, lens: seq<nat>, q: Bits, x: Item, q': Bits)
    requires LengthsRead(cl, got, total, p, lens, q) && ItemRead(cl, x, q, q') && CanAdd(x, lens, total)
    requires x.Given? ==> x.n < 16
    ensures LengthsRead(cl, got + [x], total, p, lens + Adds(x, lens), q')
  {
    hide Unrolls, Complete, SomeCode, ItemHere, CanAdd, Adds, Skip, ItemSize, LengthsOk, AllZero;
    ItemReadParts(cl, x, q, q');
    AddsOk(x, lens);
    if Complete(cl) { UnrollsPush(cl, got, total, [], p, lens, q, x); }
  }

  /** Reads total lengths. */
  method ReadLengths(src: BitSource, lens: array<nat>, total: nat, codes: array<Code>, root: nat,
                     ghost cl: seq<nat>, ghost xs: seq<Item>, ghost z: seq<nat>, ghost q: Bits)
    returns (mode: Mode, ghost got: seq<Item>)
    requires src.Valid() && total <= lens.Length && |cl| == 19 && src.bits < 8 && |z| == total
    requires TablesFor(codes[..], root, cl, CODES) && AllWithin(cl, root)
    modifies src, lens
    ensures src.Valid() && (mode == LEN || mode == BAD || mode == BufError)
    ensures mode == LEN ==> src.bits < 8 && LengthsRead(cl, got, total, old(BitsOf(src)), lens[..total], BitsOf(src))
    ensures Unrolls(cl, xs, total, [], old(BitsOf(src)), z, q) ==> mode == LEN && lens[..total] == z && BitsOf(src) == q
  {
    hide *;
    ghost var p := BitsOf(src);
    ghost var on := Unrolls(cl, xs, total, [], p, z, q);
    ghost var rem, sofar: seq<nat> := xs, [];
    got := [];
    LengthsReadNone(cl, total, p);
    var have: nat := 0;
    assert lens[..0] == [];
    mode := LEN;
    while have < total
      invariant src.Valid() && have <= total && src.bits < 8 && mode == LEN && sofar == lens[..have]
      invariant TablesFor(codes[..], root, cl, CODES) && AllWithin(cl, root)
      invariant LengthsRead(cl, got, total, p, sofar, BitsOf(src))
      invariant on ==> Unrolls(cl, rem, total, sofar, BitsOf(src), z, q)
    {
      ghost var here := BitsOf(src);
      if on { UnrollsNext(cl, rem, total, sofar, here, z, q); }
      ghost var x := if on then rem[0] else Given(0);
      ghost var y;
      var have';
      AddsLengthen();
      mode, have', y := ReadItem(src, lens, have, total, codes, root, cl, x);
      if mode != LEN {
        return;
      }
      LengthsReadMore(cl, got, total, p, sofar, here, y, BitsOf(src));
      if on { rem := rem[1..]; }
      got := got + [y];
      sofar := sofar + Adds(y, sofar);
      have := have';
    }
    if on { UnrollsNext(cl, rem, total, sofar, BitsOf(src), z, q); }
  }

  lemma AddsLengthen()
    ensures forall x: Item, sofar: seq<nat> :: |Adds(x, sofar)| >= 1
  {
  }

  /* ---- the code for the lengths ---- */

  /** The order in which the lengths of the code for lengths are sent. */
  const ORDER: seq<nat> := [16, 17, 18, 0, 8, 7, 9, 6, 10, 5, 11, 4, 12, 3, 13, 2, 14, 1, 15]

  /** Where in that order a symbol stands. */
  const RANK: seq<nat> := [3, 17, 15, 13, 11, 9, 7, 5, 4, 6, 8, 10, 12, 14, 16, 18, 0, 1, 2]

  lemma OrderFacts()
    ensures |ORDER| == |RANK| == 19
    ensures forall k: nat :: k < 19 ==> ORDER[k] < 19 && RANK[k] < 19 && RANK[ORDER[k]] == k && ORDER[RANK[k]] == k
  {
  }

  /** The k-th of three-bit numbers. */
  ghost function Three(h: nat, k: nat): (r: nat) {
    After(h, 3 * k) % Pow2(3)
  }

  /** cl holds the first n of the lengths sent at h, and 0 for the others. */
  ghost predicate ShortLengths(h: nat, n: nat, cl: seq<nat>) {
    |cl| == 19 && forall s: nat :: s < 19 ==> cl[s] == if RANK[s] < n then Three(h, RANK[s]) else 0
  }

  lemma ShortMade(h: nat, n: nat, cl: seq<nat>)
    requires |cl| == 19 && |ORDER| == 19
    requires forall k: nat :: k < 19 ==> ORDER[k] < 19 && cl[ORDER[k]] == if k < n then Three(h, k) else 0
    ensures ShortLengths(h, n, cl)
  {
    OrderFacts();
    forall s: nat | s < 19
      ensures cl[s] == if RANK[s] < n then Three(h, RANK[s]) else 0
    {
      assert cl[ORDER[RANK[s]]] == if RANK[s] < n then Three(h, RANK[s]) else 0;
    }
  }

  lemma ShortSmall(h: nat, n: nat, cl: seq<nat>)
    requires ShortLengths(h, n, cl)
    ensures AllWithin(cl, 7) && LengthsOk(cl)
  {
    OrderFacts();
    forall s: nat | s < 19
      ensures cl[s] <= 7
    {
      ThreeSmall(h, RANK[s]);
    }
  }

  lemma ThreeSmall(h: nat, k: nat)
    ensures Three(h, k) <= 7
  {
    assert Pow2(3) == 8;
    hide After;
  }

  /** The lengths are the only ones that the bits give. */
  lemma ShortUnique(h: nat, n: nat, cl: seq<nat>, dl: seq<nat>)
    requires ShortLengths(h, n, cl) && ShortLengths(h, n, dl)
    ensures cl == dl
  {
  }

  lemma ThreeIs(h: nat, k: nat, v: nat)
    requires ExtraIs(After(h, 3 * k), 3, v)
    ensures v == Three(h, k)
  {
  }

  /** Reads the lengths of the code for lengths. */
  method ReadShort(src: BitSource, lens: array<nat>, ncode: nat) returns (ok: bool)
    requires src.Valid() && 19 <= lens.Length && ncode <= 19 && src.bits < 8
    modifies src, lens
    ensures src.Valid() && (ok <==> 3 * ncode <= old(BitsOf(src)).avail)
    ensures ok ==> ShortLengths(old(BitsOf(src)).h, ncode, lens[..19])
    ensures ok ==> BitsOf(src) == Skip(old(BitsOf(src)), 3 * ncode) && src.bits < 8
  {
    hide *;
    OrderFacts();
    ghost var p := BitsOf(src);
    SkipNone(p);
    ok := true;
    var have: nat := 0;
    while have < ncode
      invariant src.Valid() && have <= ncode && 3 * have <= p.avail && BitsOf(src) == Skip(p, 3 * have) && src.bits < 8
      invariant forall k: nat :: k < have ==> lens[ORDER[k]] == Three(p.h, k)
      invariant ok
    {
      SkipIs(p, 3 * have);
      ok := Need(src, 3);
      if !ok {
        return;
      }
      SkipSkip(p, 3 * have, 3);
      var v := Take(src, 3);
      ThreeIs(p.h, have, v);
      lens[ORDER[have]] := v;
      assert forall k: nat :: k < have ==> RANK[ORDER[k]] != RANK[ORDER[have]];
      have := have + 1;
    }
    while have < 19
      invariant ncode <= have <= 19
      invariant src.Valid() && ok && 3 * ncode <= p.avail && BitsOf(src) == Skip(p, 3 * ncode) && src.bits < 8
      invariant forall k: nat :: k < have ==> lens[ORDER[k]] == if k < ncode then Three(p.h, k) else 0
    {
      lens[ORDER[have]] := 0;
      assert forall k: nat :: k < have ==> RANK[ORDER[k]] != RANK[ORDER[have]];
      have := have + 1;
    }
    ShortMade(p.h, ncode, lens[..19]);
  }

  /* ---- the whole head ---- */

  /** The codes may be used: the block can end, and neither code is refused nor its tables too large. */
  ghost predicate Usable(z: Codes) {
    && 256 < |z.lens| && z.lens[256] != 0
    && !Refused(LENS, z.lens) && !Overflows(LENS, 9, z.lens)
    && !Refused(DISTS, z.dists) && !Overflows(DISTS, 6, z.dists)
  }

  /** How many lengths there are, those of the code for lengths, the items that give all others, and what they give. */
  datatype Head = Head(nlen: nat, ndist: nat, ncode: nat, cl: seq<nat>, items: seq<Item>, z: Codes)

  /** The numbers of lengths, as sent. */
  ghost predicate CountsHere(hd: Head, p: Bits) {
    && 14 <= p.avail && hd.nlen <= 286 && hd.ndist <= 30
    && hd.nlen == p.h % Pow2(5) + 257 && hd.ndist == After(p.h, 5) % Pow2(5) + 1
    && hd.ncode == After(p.h, 10) % Pow2(4) + 4
  }

  /** The bits at p are those of hd, and end at q. */
  ghost predicate HeadHere(hd: Head, p: Bits, q: Bits) {
    && CountsHere(hd, p) && hd.ncode <= 19 && 14 + 3 * hd.ncode <= p.avail
    && ShortLengths(After(p.h, 14), hd.ncode, hd.cl) && !Refused(CODES, hd.cl)
    && |hd.z.lens| == hd.nlen && |hd.z.dists| == hd.ndist && Usable(hd.z)
    && Unrolls(hd.cl, hd.items, hd.nlen + hd.ndist, [], Skip(p, 14 + 3 * hd.ncode), hd.z.lens + hd.z.dists, q)
  }

  lemma UsableIs(z: Codes)
    ensures Usable(z) <==>
              && 256 < |z.lens| && z.lens[256] != 0
              && !Refused(LENS, z.lens) && !Overflows(LENS, 9, z.lens)
              && !Refused(DISTS, z.dists) && !Overflows(DISTS, 6, z.dists)
  {
  }

  lemma CountsIs(hd: Head, p: Bits)
    ensures CountsHere(hd, p) <==>
              && 14 <= p.avail && hd.nlen <= 286 && hd.ndist <= 30
              && hd.nlen == p.h % Pow2(5) + 257 && hd.ndist == After(p.h, 5) % Pow2(5) + 1
              && hd.ncode == After(p.h, 10) % Pow2(4) + 4
    ensures Pow2(5) == 32 && Pow2(4) == 16
  {
  }

  lemma HeadIs(hd: Head, p: Bits, q: Bits)
    ensures HeadHere(hd, p, q) <==>
              && CountsHere(hd, p) && hd.ncode <= 19 && 14 + 3 * hd.ncode <= p.avail
              && ShortLengths(After(p.h, 14), hd.ncode, hd.cl) && !Refused(CODES, hd.cl)
              && |hd.z.lens| == hd.nlen && |hd.z.dists| == hd.ndist && Usable(hd.z)
              && Unrolls(hd.cl, hd.items, hd.nlen + hd.ndist, [], Skip(p, 14 + 3 * hd.ncode),
                         hd.z.lens + hd.z.dists, q)
  {
    hide CountsHere, ShortLengths, Refused, Usable, Unrolls, Skip, After, Pow2;
  }

  /** The three counts at the start of the head. */
  method ReadCounts(src: BitSource, ghost hd: Head) returns (mode: Mode, nlen: nat, ndist: nat, ncode: nat)
    requires src.Valid() && src.bits < 8
    modifies src
    ensures src.Valid() && (mode == LEN || mode == BAD || mode == BufError)
    ensures mode == LEN ==>
              && 14 <= old(BitsOf(src)).avail && BitsOf(src) == Skip(old(BitsOf(src)), 14) && src.bits < 8
              && CountsHere(hd.(nlen := nlen, ndist := ndist, ncode := ncode), old(BitsOf(src)))
    ensures mode == LEN ==> 257 <= nlen && 1 <= ndist && ncode <= 19
    ensures CountsHere(hd, old(BitsOf(src))) ==>
              mode == LEN && nlen == hd.nlen && ndist == hd.ndist && ncode == hd.ncode
  {
    hide *;
    ghost var p := BitsOf(src);
    CountsIs(hd, p);
    nlen, ndist, ncode := 0, 0, 0;
    var ok := Need(src, 14);
    if !ok {
      return BufError, nlen, ndist, ncode;
    }
    SkipIs(p, 5);
    SkipIs(p, 10);
    SkipSkip(p, 5, 5);
    SkipSkip(p, 10, 4);
    nlen := Take(src, 5);
    ndist := Take(src, 5);
    ncode := Take(src, 4);
    ExtrasAre(p.h, After(p.h, 5), After(p.h, 10), nlen, ndist, ncode);
    nlen, ndist, ncode := nlen + 257, ndist + 1, ncode + 4;
    CountsIs(hd.(nlen := nlen, ndist := ndist, ncode := ncode), p);
    mode := if nlen > 286 || ndist > 30 then BAD else LEN;
  }

  lemma ExtrasAre(a: nat, b: nat, c: nat, u: nat, v: nat, w: nat)
    requires ExtraIs(a, 5, u) && ExtraIs(b, 5, v) && ExtraIs(c, 4, w)
    ensures u == a % Pow2(5) && v == b % Pow2(5) && w == c % Pow2(4) && w <= 15
  {
    assert Pow2(4) == 16;
  }

  lemma CodesMade(cl: seq<nat>)
    requires |cl| == 19
    ensures Alphabet(CODES) == 19 && Room(CODES, 7) == 128 && !Overflows(CODES, 7, cl)
  {
    assert Pow2(7) == 128;
  }

  lemma AllWithinPart(lens: seq<nat>, most: nat)
    ensures AllWithin(lens, most) <==> forall s :: 0 <= s < |lens| ==> lens[s] <= most
  {
  }

  /** Builds the table for the code for lengths. */
  method MakeShortTable(lens: array<nat>, codes: array<Code>, work: array<nat>)
    returns (ok: bool, root: nat)
    requires 19 <= lens.Length && codes.Length >= 852 && work.Length >= 19 && work != lens
    requires AllWithin(lens[..19], 7) && LengthsOk(lens[..19])
    modifies codes, work
    ensures ok <==> !Refused(CODES, lens[..19])
    ensures ok ==> TablesFor(codes[..], root, lens[..19], CODES) && AllWithin(lens[..19], root)
    ensures ok ==> SomeCode(lens[..19]) ==> Complete(lens[..19])
  {
    hide *;
    ghost var cl: seq<nat> := lens[..19];
    CodesMade(cl);
    assert lens[0..0 + 19] == cl;
    AllWithinPart(cl, 7);
    assert forall s :: 0 <= s < 19 ==> lens[s] == cl[s];
    var ret, next;
    ret, next, root := InflateTable.InflateTable(CODES, lens, 0, 19, codes, 0, 7, work);
    ok := ret == 0;
    assert lens[0..0 + 19] == cl;
    if ok {
      TablesMore(codes[0..next], codes[next..], root, cl, CODES);
      assert codes[0..next] + codes[next..] == codes[..];
    }
  }

  lemma TableMade(t: Table, lens: seq<nat>, ct: CodeType, end: nat)
    requires t.at <= end <= t.code.Length && TablesFor(t.code[t.at..end], t.bits, lens, ct)
    ensures TableOk(t, lens, ct)
  {
    hide TablesFor;
    TablesMore(t.code[t.at..end], t.code[end..], t.bits, lens, ct);
    assert t.code[t.at..end] + t.code[end..] == t.code[t.at..];
  }

  lemma SpaceForBoth()
    ensures Alphabet(LENS) == 288 && Alphabet(DISTS) == 32
    ensures forall b :: Room(LENS, b) == 852
    ensures forall b :: Room(DISTS, b) == 592
  {
  }

  /** Builds the tables of both codes, the second behind the first. */
  method MakeTables(lens: array<nat>, nlen: nat, ndist: nat, codes: array<Code>, work: array<nat>)
    returns (mode: Mode, len: Table, dist: Table)
    requires 257 <= nlen <= 286 && ndist <= 30 && nlen + ndist <= lens.Length && LengthsOk(lens[..nlen + ndist])
    requires codes.Length == 852 + 592 && work.Length >= 288 && work != lens
    modifies codes, work
    ensures mode == LEN || mode == BAD
    ensures mode == LEN <==> Usable(Codes(lens[..nlen], lens[nlen..nlen + ndist]))
    ensures len.code == dist.code == codes
    ensures mode == LEN ==> TableOk(len, lens[..nlen], LENS) && TableOk(dist, lens[nlen..nlen + ndist], DISTS)
  {
    hide *;
    ghost var z := Codes(lens[..nlen], lens[nlen..nlen + ndist]);
    UsableIs(z);
    SpaceForBoth();
    SplitLengths(lens[..nlen + ndist], nlen);
    assert lens[..nlen + ndist][..nlen] == z.lens && lens[..nlen + ndist][nlen..] == z.dists;
    len, dist := Table(codes, 0, 0), Table(codes, 0, 0);
    assert z.lens[256] == lens[256];
    if lens[256] == 0 {
      return BAD, len, dist;
    }
    assert lens[0..0 + nlen] == z.lens;
    var ret, next, bits := InflateTable.InflateTable(LENS, lens, 0, nlen, codes, 0, 9, work);
    len := Table(codes, 0, bits);
    assert lens[0..0 + nlen] == z.lens && lens[nlen..nlen + ndist] == z.dists;
    if ret != 0 {
      return BAD, len, dist;
    }
    ghost var first := codes[0..next];
    var end: nat;
    ret, end, bits := InflateTable.InflateTable(DISTS, lens, nlen, ndist, codes, next, 6, work);
    dist := Table(codes, next, bits);
    assert lens[..nlen] == z.lens && lens[nlen..nlen + ndist] == z.dists;
    if ret != 0 {
      return BAD, len, dist;
    }
    assert codes[0..next] == first;
    TableMade(len, z.lens, LENS, next);
    TableMade(dist, z.dists, DISTS, end);
    mode := LEN;
  }

  lemma SplitLengths(lens: seq<nat>, n: nat)
    requires LengthsOk(lens) && n <= |lens|
    ensures LengthsOk(lens[..n]) && LengthsOk(lens[n..])
  {
  }

  /** Reads the head of a dynamic block, and builds the tables for the rest of it. */
  method ReadHead(src: BitSource, lens: array<nat>, codes: array<Code>, work: array<nat>, ghost hd: Head, ghost q: Bits)
    returns (mode: Mode, len: Table, dist: Table, ghost got: Head)
    requires src.Valid() && src.bits < 8 && lens.Length >= 320 && work != lens
    requires codes.Length == 852 + 592 && work.Length >= 288
    modifies src, lens, codes, work
    ensures src.Valid() && (mode == LEN || mode == BAD || mode == BufError) && len.code == dist.code == codes
    ensures mode == LEN ==>
              && HeadHere(got, old(BitsOf(src)), BitsOf(src)) && src.bits < 8
              && TableOk(len, got.z.lens, LENS) && TableOk(dist, got.z.dists, DISTS)
    ensures HeadHere(hd, old(BitsOf(src)), q) ==> mode == LEN && BitsOf(src) == q && got.z == hd.z
  {
    hide *;
    ghost var p := BitsOf(src);
    HeadIs(hd, p, q);
    len, dist := Table(codes, 0, 0), Table(codes, 0, 0);
    got := hd;
    var nlen, ndist, ncode;
    mode, nlen, ndist, ncode := ReadCounts(src, hd);
    if mode != LEN {
      return;
    }
    got := hd.(nlen := nlen, ndist := ndist, ncode := ncode);
    CountsIs(got, p);
    SkipIs(p, 14);
    var ok := ReadShort(src, lens, ncode);
    if !ok {
      return BufError, len, dist, got;
    }
    SkipSkip(p, 14, 3 * ncode);
    ghost var cl: seq<nat> := lens[..19];
    ShortSmall(After(p.h, 14), ncode, cl);
    if HeadHere(hd, p, q) { ShortUnique(After(p.h, 14), ncode, cl, hd.cl); }
    var root;
    ok, root := MakeShortTable(lens, codes, work);
    assert lens[..19] == cl;
    if !ok {
      return BAD, len, dist, got;
    }
    ghost var p1, z := BitsOf(src), hd.z;
    if !HeadHere(hd, p, q) { z := Codes(seq(nlen, _ => 0), seq(ndist, _ => 0)); }
    ghost var items;
    mode, items := ReadLengths(src, lens, nlen + ndist, codes, root, cl, hd.items, z.lens + z.dists, q);
    if mode != LEN {
      return;
    }
    ghost var all: seq<nat> := lens[..nlen + ndist];
    LengthsReadParts(cl, items, nlen + ndist, p1, all, BitsOf(src));
    mode, len, dist := MakeTables(lens, nlen, ndist, codes, work);
    assert lens[..nlen + ndist] == all;
    ghost var y := Codes(lens[..nlen], lens[nlen..nlen + ndist]);
    assert y.lens + y.dists == all && y.lens[256] == all[256];
    UsableIs(y);
    got := Head(nlen, ndist, ncode, cl, items, y);
    if HeadHere(hd, p, q) {
      assert y.lens == hd.z.lens && y.dists == hd.z.dists;
    }
    if mode == LEN {
      NotAllZero(all, 256);
      CountsIs(got, p);
      HeadIs(got, p, BitsOf(src));
    }
  }

  lemma NotAllZero(lens: seq<nat>, s: nat)
    requires s < |lens| && lens[s] != 0
    ensures !AllZero(lens)
  {
  }

  lemma LengthsReadParts(cl: seq<nat>, got: seq<Item>, total: nat, p: Bits, lens: seq<nat>, q: Bits)
    requires LengthsRead(cl, got, total, p, lens, q)
    ensures LengthsOk(lens) && (Complete(cl) ==> Unrolls(cl, got, total, [], p, lens, q))
    ensures !SomeCode(cl) ==> AllZero(lens)
  {
  }
}
