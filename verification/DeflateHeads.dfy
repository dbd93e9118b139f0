/** The head of a block with codes of its own: the run-length form of the code lengths, and sending it. */
module DeflateHeads {
  import opened MachineInts
  import opened SetSums
  import opened DeflateCodes
  import opened TableLayout
  import opened InflateTable
  import opened InflateHeader
  import opened DeflateTokens
  import opened DeflateBlocks
  import opened DeflateSender
  import opened DeflateChunks
  import opened DeflateTrees

  /* ---- runs of lengths ---- */

  /** The longest run sent at once, and the shortest sent as a run, for length v behind the length prev. */
  function MaxRun(v: nat, prev: int): nat {
    if v == 0 then 138 else if v == prev then 6 else 7
  }

  function MinRun(v: nat, prev: int): nat {
    if v == 0 || v == prev then 3 else 4
  }

  /** A run of count times v. */
  function RunItems(v: nat, count: nat, prev: int): seq<Item>
    requires count > 0
  {
    if count < MinRun(v, prev) then seq(count, _ => Given(v))
    else if v != 0 then
      (if v != prev then [Given(v), Repeat(Over(count, 4))] else [Repeat(Over(count, 3))])
    else if count <= 10 then [Few(Over(count, 3))]
    else [Many(Over(count, 11))]
  }

  /** The lengths from place n on, count more of the same waiting before it; prev is the length of the run before. */
  function TreeItems(lens: seq<nat>, n: nat, prev: int, count: nat): seq<Item>
    requires n <= |lens|
    decreases |lens| - n
  {
    if n == |lens| then []
    else if count + 1 < MaxRun(lens[n], prev) && n + 1 < |lens| && lens[n + 1] == lens[n] then
      TreeItems(lens, n + 1, prev, count + 1)
    else RunItems(lens[n], count + 1, prev) + TreeItems(lens, n + 1, lens[n], 0)
  }

  /** The lengths that items give, behind those so far. */
  ghost function Flat(xs: seq<Item>, sofar: seq<nat>): seq<nat>
    decreases |xs|
  {
    if xs == [] then sofar else Flat(xs[1..], sofar + Adds(xs[0], sofar))
  }

  /** An item with extra bits of the right size. */
  ghost predicate ItemOk(x: Item) {
    (x.Given? ==> x.n < 16) && ExtraOf(x) < Pow2(ExtraSize(x))
  }

  /** All items are well formed, and none repeats a length before there is one. */
  ghost predicate ItemsOk(xs: seq<Item>, sofar: seq<nat>)
    decreases |xs|
  {
    xs == [] || (ItemOk(xs[0]) && (xs[0].Repeat? ==> sofar != []) && ItemsOk(xs[1..], sofar + Adds(xs[0], sofar)))
  }

  lemma {:induction false} FlatAdd(xs: seq<Item>, ys: seq<Item>, sofar: seq<nat>)
    ensures Flat(xs + ys, sofar) == Flat(ys, Flat(xs, sofar))
    ensures ItemsOk(xs, sofar) && ItemsOk(ys, Flat(xs, sofar)) ==> ItemsOk(xs + ys, sofar)
    decreases |xs|
  {
    hide ItemOk, Adds;
    if xs == [] {
      assert xs + ys == ys;
    } else {
      FlatAdd(xs[1..], ys, sofar + Adds(xs[0], sofar));
      assert (xs + ys)[1..] == xs[1..] + ys;
    }
  }

  lemma FlatOne(x: Item, sofar: seq<nat>)
    ensures Flat([x], sofar) == sofar + Adds(x, sofar)
    ensures ItemOk(x) && (x.Repeat? ==> sofar != []) ==> ItemsOk([x], sofar)
  {
    var xs := [x];
    assert xs[1..] == [];
    hide ItemOk, Adds;
  }

  lemma {:induction false} FlatGivens(v: nat, count: nat, sofar: seq<nat>)
    requires v < 16
    ensures Flat(seq(count, _ => Given(v)), sofar) == sofar + seq(count, _ => v)
    ensures ItemsOk(seq(count, _ => Given(v)), sofar)
    decreases count
  {
    var xs := seq(count, _ => Given(v));
    if count > 0 {
      assert xs[1..] == seq(count - 1, _ => Given(v));
      NoPower();
      hide Pow2;
      FlatGivens(v, count - 1, sofar + [v]);
      assert [v] + seq(count - 1, _ => v) == seq(count, _ => v);
    }
  }

  lemma SmallPowers2()
    ensures Pow2(2) == 4 && Pow2(3) == 8 && Pow2(7) == 128 && Pow2(0) == 1
  {
  }

  /** A run gives so many lengths. */
  lemma FlatRun(v: nat, count: nat, prev: int, sofar: seq<nat>)
    requires 0 < count <= MaxRun(v, prev) && v < 16
    requires prev == -1 || (sofar != [] && prev == sofar[|sofar| - 1])
    ensures Flat(RunItems(v, count, prev), sofar) == sofar + seq(count, _ => v)
    ensures ItemsOk(RunItems(v, count, prev), sofar)
  {
    hide *;
    RunItemsAre(v, count, prev);
    RunExtras(v, count, prev);
    if count < MinRun(v, prev) {
      FlatGivens(v, count, sofar);
    } else if v != 0 && v != prev {
      FlatFirst(v, count, sofar);
    } else {
      var x := if v != 0 then Repeat(count - 3) else if count <= 10 then Few(count - 3) else Many(count - 11);
      AddsIs(x, sofar);
      FlatOne(x, sofar);
      if v == 0 && count <= 10 { assert 3 + (count - 3) == count; }
    }
  }

  /** A length, and a repeat of it. */
  lemma FlatFirst(v: nat, count: nat, sofar: seq<nat>)
    requires 4 <= count && v < 16 && ItemOk(Repeat(count - 4))
    ensures Flat([Given(v), Repeat(count - 4)], sofar) == sofar + seq(count, _ => v)
    ensures ItemsOk([Given(v), Repeat(count - 4)], sofar)
  {
    hide *;
    var x := Repeat(count - 4);
    GivenOk(v);
    AddsIs(Given(v), sofar);
    FlatOne(Given(v), sofar);
    AddsIs(x, sofar + [v]);
    FlatOne(x, sofar + [v]);
    FlatAdd([Given(v)], [x], sofar);
    assert [Given(v)] + [x] == [Given(v), x];
    assert [v] + seq(count - 1, _ => v) == seq(count, _ => v);
  }

  /** The lengths waiting before place n are all like the one there. */
  ghost predicate Waiting(lens: seq<nat>, n: nat, prev: int, count: nat, sofar: seq<nat>) {
    && count <= n <= |lens|
    && (n < |lens| ==> (count == 0 || count < MaxRun(lens[n], prev))
                       && forall k :: n - count <= k < n ==> lens[k] == lens[n])
    && (n == |lens| ==> count == 0)
    && (prev == -1 || (sofar != [] && prev == sofar[|sofar| - 1]))
  }

  lemma TreeItemsAre(lens: seq<nat>, n: nat, prev: int, count: nat)
    requires n <= |lens|
    ensures n == |lens| ==> TreeItems(lens, n, prev, count) == []
    ensures n < |lens| ==>
              TreeItems(lens, n, prev, count) ==
              if Goes(lens, n, prev, count) then TreeItems(lens, n + 1, prev, count + 1)
              else RunItems(lens[n], count + 1, prev) + TreeItems(lens, n + 1, lens[n], 0)
  {
    hide RunItems;
  }

  /** The run goes on with the next length. */
  predicate Goes(lens: seq<nat>, n: nat, prev: int, count: nat)
    requires n < |lens|
  {
    count + 1 < MaxRun(lens[n], prev) && n + 1 < |lens| && lens[n + 1] == lens[n]
  }

  lemma WaitingOn(lens: seq<nat>, n: nat, prev: int, count: nat, sofar: seq<nat>)
    requires Waiting(lens, n, prev, count, sofar) && n < |lens| && Goes(lens, n, prev, count)
    ensures Waiting(lens, n + 1, prev, count + 1, sofar)
  {
  }

  lemma WaitingOver(lens: seq<nat>, n: nat, prev: int, count: nat, sofar: seq<nat>)
    requires Waiting(lens, n, prev, count, sofar) && n < |lens|
    ensures count <= n && count + 1 <= MaxRun(lens[n], prev)
    ensures prev == -1 || (sofar != [] && prev == sofar[|sofar| - 1])
    ensures Waiting(lens, n + 1, lens[n], 0, sofar + seq(count + 1, _ => lens[n]))
    ensures lens[n - count..] == seq(count + 1, _ => lens[n]) + lens[n + 1..]
  {
  }

  lemma WaitingEnd(lens: seq<nat>, prev: int, count: nat, sofar: seq<nat>)
    requires Waiting(lens, |lens|, prev, count, sofar)
    ensures count == 0 && sofar + lens[|lens|..] == sofar
  {
  }

  lemma FlatNone(sofar: seq<nat>)
    ensures Flat([], sofar) == sofar && ItemsOk([], sofar)
  {
  }

  /** The items of a tree give its lengths again. */
  lemma {:induction false} TreeItemsFlat(lens: seq<nat>, n: nat, prev: int, count: nat, sofar: seq<nat>)
    requires Waiting(lens, n, prev, count, sofar) && LengthsOk(lens)
    ensures count <= n <= |lens| && Flat(TreeItems(lens, n, prev, count), sofar) == sofar + lens[n - count..]
    ensures ItemsOk(TreeItems(lens, n, prev, count), sofar)
    decreases |lens| - n
  {
    hide *;
    WaitingIn(lens, n, prev, count, sofar);
    TreeItemsAre(lens, n, prev, count);
    if n == |lens| {
      WaitingEnd(lens, prev, count, sofar);
      FlatNone(sofar);
    } else if Goes(lens, n, prev, count) {
      WaitingOn(lens, n, prev, count, sofar);
      TreeItemsFlat(lens, n + 1, prev, count + 1, sofar);
    } else {
      var run: seq<nat> := seq(count + 1, _ => lens[n]);
      WaitingOver(lens, n, prev, count, sofar);
      LengthOk(lens, n);
      FlatRun(lens[n], count + 1, prev, sofar);
      TreeItemsFlat(lens, n + 1, lens[n], 0, sofar + run);
      FlatAdd(RunItems(lens[n], count + 1, prev), TreeItems(lens, n + 1, lens[n], 0), sofar);
      assert sofar + run + lens[n + 1..] == sofar + (run + lens[n + 1..]);
    }
  }

  lemma WaitingIn(lens: seq<nat>, n: nat, prev: int, count: nat, sofar: seq<nat>)
    requires Waiting(lens, n, prev, count, sofar)
    ensures count <= n <= |lens|
  {
  }

  /** The items of one tree, and of both. */
  lemma BothFlat(lens: seq<nat>, dists: seq<nat>)
    requires LengthsOk(lens) && LengthsOk(dists)
    ensures Flat(TreeItems(lens, 0, -1, 0) + TreeItems(dists, 0, -1, 0), []) == lens + dists
    ensures ItemsOk(TreeItems(lens, 0, -1, 0) + TreeItems(dists, 0, -1, 0), [])
  {
    hide *;
    WaitingStart(lens, []);
    WaitingStart(dists, lens);
    TreeItemsFlat(lens, 0, -1, 0, []);
    TreeItemsFlat(dists, 0, -1, 0, lens);
    FlatAdd(TreeItems(lens, 0, -1, 0), TreeItems(dists, 0, -1, 0), []);
    assert [] + lens[0..] == lens && dists[0..] == dists;
  }

  lemma WaitingStart(lens: seq<nat>, sofar: seq<nat>)
    ensures Waiting(lens, 0, -1, 0, sofar)
  {
  }

  /* ---- the bits of the items ---- */

  ghost predicate AllCoded(cl: seq<nat>, xs: seq<Item>) {
    forall k :: 0 <= k < |xs| ==> Coding(cl, Symbol(xs[k]))
  }

  ghost function ItemChunks(cl: seq<nat>, x: Item): seq<Chunk>
    requires Coding(cl, Symbol(x))
  {
    [CodeChunk(cl, Symbol(x))] + ExtraChunks(ExtraOf(x), ExtraSize(x))
  }

  ghost function ItemsChunks(cl: seq<nat>, xs: seq<Item>): seq<Chunk>
    requires AllCoded(cl, xs)
    decreases |xs|
  {
    if xs == [] then [] else ItemChunks(cl, xs[0]) + ItemsChunks(cl, xs[1..])
  }

  ghost function BitsAt(cs: seq<Chunk>): Bits {
    Bits(Value(cs), Total(cs))
  }

  lemma BitsAtIs(cs: seq<Chunk>)
    ensures BitsAt(cs) == Bits(Value(cs), Total(cs))
  {
  }

  /** Behind the bits of one number come the others. */
  lemma ChunkHere(c: Chunk, t: seq<Chunk>)
    requires ChunkOk(c)
    ensures c.n <= BitsAt([c] + t).avail && Skip(BitsAt([c] + t), c.n) == BitsAt(t)
    ensures ExtraIs(BitsAt([c] + t).h, c.n, c.v)
  {
    BitsAtIs([c] + t);
    BitsAtIs(t);
    ValueAfter(c, t);
    hide Value, Total, After, Pow2, ChunkOk, BitsAt;
    SkipIs(BitsAt([c] + t), c.n);
  }

  lemma ExtraHere(v: nat, n: nat, t: seq<Chunk>)
    requires v < Pow2(n)
    ensures n <= BitsAt(ExtraChunks(v, n) + t).avail && Skip(BitsAt(ExtraChunks(v, n) + t), n) == BitsAt(t)
    ensures ExtraIs(BitsAt(ExtraChunks(v, n) + t).h, n, v)
  {
    hide *;
    BitsAtIs(ExtraChunks(v, n) + t);
    BitsAtIs(t);
    ExtraAfter(v, n, t);
    SkipIs(BitsAt(ExtraChunks(v, n) + t), n);
  }

  lemma CodeHere(cl: seq<nat>, s: nat, t: seq<Chunk>)
    requires Coding(cl, s)
    ensures s < |cl| && Leads(cl, s, BitsAt([CodeChunk(cl, s)] + t).h)
    ensures cl[s] <= BitsAt([CodeChunk(cl, s)] + t).avail && Skip(BitsAt([CodeChunk(cl, s)] + t), cl[s]) == BitsAt(t)
  {
    hide *;
    CodingIs(cl, s);
    BitsAtIs([CodeChunk(cl, s)] + t);
    BitsAtIs(t);
    CodeAfter(cl, s, t);
    SkipIs(BitsAt([CodeChunk(cl, s)] + t), cl[s]);
  }

  lemma ItemChunksAre(cl: seq<nat>, x: Item)
    requires Coding(cl, Symbol(x))
    ensures Symbol(x) < |cl| && ItemSize(cl, x) == cl[Symbol(x)] + ExtraSize(x)
    ensures ItemChunks(cl, x) == [CodeChunk(cl, Symbol(x))] + ExtraChunks(ExtraOf(x), ExtraSize(x))
  {
  }

  lemma ItemOkIs(x: Item)
    ensures ItemOk(x) <==> (x.Given? ==> x.n < 16) && ExtraOf(x) < Pow2(ExtraSize(x))
  {
  }

  lemma ItemSent(cl: seq<nat>, x: Item, t: seq<Chunk>)
    requires Coding(cl, Symbol(x)) && ItemOk(x)
    ensures Symbol(x) < |cl| && ItemHere(cl, x, BitsAt(ItemChunks(cl, x) + t))
    ensures ItemSize(cl, x) <= BitsAt(ItemChunks(cl, x) + t).avail
    ensures Skip(BitsAt(ItemChunks(cl, x) + t), ItemSize(cl, x)) == BitsAt(t)
  {
    hide *;
    var e := ExtraChunks(ExtraOf(x), ExtraSize(x));
    var p := BitsAt(ItemChunks(cl, x) + t);
    ItemChunksAre(cl, x);
    ItemOkIs(x);
    assert ItemChunks(cl, x) + t == [CodeChunk(cl, Symbol(x))] + (e + t);
    CodeHere(cl, Symbol(x), e + t);
    ExtraHere(ExtraOf(x), ExtraSize(x), t);
    SkipIs(p, cl[Symbol(x)]);
    SkipIs(BitsAt(e + t), ExtraSize(x));
    SkipSkip(p, cl[Symbol(x)], ExtraSize(x));
    ItemIs(cl, x, p);
  }

  lemma {:induction false} FlatGrows(xs: seq<Item>, sofar: seq<nat>)
    ensures |sofar| <= |Flat(xs, sofar)|
    decreases |xs|
  {
    if xs != [] { FlatGrows(xs[1..], sofar + Adds(xs[0], sofar)); }
  }

  lemma FlatNext(xs: seq<Item>, sofar: seq<nat>)
    requires xs != []
    ensures Flat(xs, sofar) == Flat(xs[1..], sofar + Adds(xs[0], sofar))
    ensures ItemsOk(xs, sofar) ==>
              && ItemOk(xs[0]) && (xs[0].Repeat? ==> sofar != [])
              && ItemsOk(xs[1..], sofar + Adds(xs[0], sofar))
  {
    hide ItemOk, Adds;
  }

  lemma ItemsNext(cl: seq<nat>, xs: seq<Item>)
    requires AllCoded(cl, xs)
    ensures xs == [] ==> ItemsChunks(cl, xs) == []
    ensures xs != [] ==>
              && Coding(cl, Symbol(xs[0])) && AllCoded(cl, xs[1..])
              && ItemsChunks(cl, xs) == ItemChunks(cl, xs[0]) + ItemsChunks(cl, xs[1..])
  {
    hide Coding, ItemChunks;
  }

  /** Inflate unrolls the items sent. */
  lemma {:induction false} ItemsSent(cl: seq<nat>, xs: seq<Item>, total: nat, sofar: seq<nat>, t: seq<Chunk>)
    requires AllCoded(cl, xs) && ItemsOk(xs, sofar) && |Flat(xs, sofar)| <= total
    ensures Unrolls(cl, xs, total, sofar, BitsAt(ItemsChunks(cl, xs) + t), Flat(xs, sofar), BitsAt(t))
    decreases |xs|
  {
    hide *;
    ItemsNext(cl, xs);
    if xs == [] {
      FlatNone(sofar);
      assert ItemsChunks(cl, xs) + t == t;
      UnrollsIs(cl, xs, total, sofar, BitsAt(t), sofar, BitsAt(t));
    } else {
      var rest := ItemsChunks(cl, xs[1..]) + t;
      assert ItemsChunks(cl, xs) + t == ItemChunks(cl, xs[0]) + rest;
      FlatNext(xs, sofar);
      ItemSent(cl, xs[0], rest);
      FlatGrows(xs[1..], sofar + Adds(xs[0], sofar));
      CanAddIs(xs[0], sofar, total);
      ItemsSent(cl, xs[1..], total, sofar + Adds(xs[0], sofar), t);
      UnrollsMade(cl, xs, total, sofar, BitsAt(ItemsChunks(cl, xs) + t), Flat(xs, sofar), BitsAt(t));
    }
  }

  lemma UnrollsMade(cl: seq<nat>, xs: seq<Item>, total: nat, sofar: seq<nat>, p: Bits, lens: seq<nat>, q: Bits)
    requires xs != [] && ItemHere(cl, xs[0], p) && CanAdd(xs[0], sofar, total) && Symbol(xs[0]) < |cl|
    requires ItemSize(cl, xs[0]) <= p.avail
    requires Unrolls(cl, xs[1..], total, sofar + Adds(xs[0], sofar), Skip(p, ItemSize(cl, xs[0])), lens, q)
    ensures Unrolls(cl, xs, total, sofar, p, lens, q)
  {
    hide ItemHere, CanAdd, Adds, Skip, ItemSize;
  }

  lemma {:induction false} ItemsAdd(cl: seq<nat>, xs: seq<Item>, ys: seq<Item>)
    requires AllCoded(cl, xs + ys)
    ensures AllCoded(cl, xs) && AllCoded(cl, ys)
    ensures ItemsChunks(cl, xs + ys) == ItemsChunks(cl, xs) + ItemsChunks(cl, ys)
    decreases |xs|
  {
    AllCodedParts(cl, xs, ys);
    hide Coding, ItemChunks;
    if xs == [] {
      assert xs + ys == ys;
    } else {
      assert (xs + ys)[1..] == xs[1..] + ys;
      ItemsAdd(cl, xs[1..], ys);
    }
  }

  lemma AllCodedParts(cl: seq<nat>, xs: seq<Item>, ys: seq<Item>)
    requires AllCoded(cl, xs + ys)
    ensures AllCoded(cl, xs) && AllCoded(cl, ys) && (xs != [] ==> AllCoded(cl, xs[1..] + ys))
  {
    hide Coding;
    var all := xs + ys;
    assert forall k :: 0 <= k < |xs| ==> all[k] == xs[k];
    assert forall k :: 0 <= k < |ys| ==> all[|xs| + k] == ys[k];
  }

  lemma ItemsOne(cl: seq<nat>, x: Item)
    requires AllCoded(cl, [x])
    ensures Coding(cl, Symbol(x)) && ItemsChunks(cl, [x]) == ItemChunks(cl, x)
  {
    var xs := [x];
    assert Coding(cl, Symbol(xs[0])) && xs[1..] == [];
    ItemsNext(cl, xs);
    ItemsNext(cl, []);
  }

  /* ---- sending a tree ---- */

  /** Sends one item. */
  method SendItem(s: Sender, x: Item, bl: Tree, ghost cl: seq<nat>)
    requires TreeFor(bl, cl) && bl.len.Length == 19 == |cl| && LengthsOk(cl)
    requires Coding(cl, Symbol(x)) && ItemOk(x) && s.Room(Total(ItemChunks(cl, x)))
    modifies s, s.pending_buf
    ensures s.Open() && BitsOn(old(s.Now()), s.Now(), ItemChunks(cl, x))
  {
    hide *;
    CodingIs(cl, Symbol(x));
    ItemChunksAre(cl, x);
    ItemOkIs(x);
    ItemKinds(x);
    ghost var a, code := s.Now(), [CodeChunk(cl, Symbol(x))];
    ItemTotal(cl, x);
    CodeTotal(cl, Symbol(x));
    s.RoomIs(Total(ItemChunks(cl, x)));
    s.RoomIs(cl[Symbol(x)]);
    SendCode(s, Symbol(x), bl, cl);
    ghost var b := s.Now();
    BitsOnIs(a, b, code);
    s.RoomIs(ExtraSize(x));
    SendExtra(s, ExtraOf(x), ExtraSize(x));
    BitsThen(a, b, s.Now(), code, ExtraChunks(ExtraOf(x), ExtraSize(x)));
  }

  lemma ItemTotal(cl: seq<nat>, x: Item)
    requires Coding(cl, Symbol(x)) && Symbol(x) < |cl|
    ensures Total(ItemChunks(cl, x)) == cl[Symbol(x)] + ExtraSize(x)
  {
    hide *;
    ItemChunksAre(cl, x);
    CodeTotal(cl, Symbol(x));
    ExtraTotal(ExtraOf(x), ExtraSize(x));
    TotalAdd([CodeChunk(cl, Symbol(x))], ExtraChunks(ExtraOf(x), ExtraSize(x)));
  }

  /** The first part of items takes no more bits than all. */
  lemma ItemsLess(cl: seq<nat>, xs: seq<Item>, ys: seq<Item>)
    requires AllCoded(cl, xs + ys)
    ensures AllCoded(cl, xs) && Total(ItemsChunks(cl, xs)) <= Total(ItemsChunks(cl, xs + ys))
  {
    hide *;
    ItemsAdd(cl, xs, ys);
    TotalAdd(ItemsChunks(cl, xs), ItemsChunks(cl, ys));
  }

  /** Sends a run: length by length when it is short, else with its count. */
  method SendRun(s: Sender, curlen: nat, count0: nat, prevlen: int, min_count: nat, bl: Tree, ghost cl: seq<nat>)
    requires TreeFor(bl, cl) && bl.len.Length == 19 == |cl| && LengthsOk(cl)
    requires curlen < 16 && 0 < count0 <= MaxRun(curlen, prevlen) && min_count == MinRun(curlen, prevlen)
    requires AllCoded(cl, RunItems(curlen, count0, prevlen))
    requires s.Room(Total(ItemsChunks(cl, RunItems(curlen, count0, prevlen))))
    modifies s, s.pending_buf
    ensures s.Open() && BitsOn(old(s.Now()), s.Now(), ItemsChunks(cl, RunItems(curlen, count0, prevlen)))
  {
    hide *;
    RunItemsAre(curlen, count0, prevlen);
    RunExtras(curlen, count0, prevlen);
    ghost var a := s.Now();
    var count := count0;
    if count < min_count {
      SendGivens(s, curlen, count, bl, cl);
    } else if curlen != 0 {
      if curlen != prevlen {
        ghost var x := Repeat(count - 4);
        assert [Given(curlen), x] == [Given(curlen)] + [x];
        ItemsAdd(cl, [Given(curlen)], [x]);
        ItemsOne(cl, Given(curlen));
        ItemsOne(cl, x);
        GivenOk(curlen);
        TotalAdd(ItemChunks(cl, Given(curlen)), ItemChunks(cl, x));
        s.RoomIs(Total(ItemsChunks(cl, [Given(curlen), x])));
        s.RoomIs(Total(ItemChunks(cl, Given(curlen))));
        SendItem(s, Given(curlen), bl, cl);
        ghost var b := s.Now();
        BitsOnIs(a, b, ItemChunks(cl, Given(curlen)));
        s.RoomIs(Total(ItemChunks(cl, x)));
        count := count - 1;
        SendItem(s, Repeat(count - 3), bl, cl);
        BitsThen(a, b, s.Now(), ItemChunks(cl, Given(curlen)), ItemChunks(cl, x));
      } else {
        ItemsOne(cl, Repeat(count - 3));
        SendItem(s, Repeat(count - 3), bl, cl);
      }
    } else if count <= 10 {
      ItemsOne(cl, Few(count - 3));
      SendItem(s, Few(count - 3), bl, cl);
    } else {
      ItemsOne(cl, Many(count - 11));
      SendItem(s, Many(count - 11), bl, cl);
    }
  }

  /** Sends a length so many times. */
  method SendGivens(s: Sender, curlen: nat, count0: nat, bl: Tree, ghost cl: seq<nat>)
    requires TreeFor(bl, cl) && bl.len.Length == 19 == |cl| && LengthsOk(cl) && curlen < 16 && count0 > 0
    requires AllCoded(cl, seq(count0, _ => Given(curlen)))
    requires s.Room(Total(ItemsChunks(cl, seq(count0, _ => Given(curlen)))))
    modifies s, s.pending_buf
    ensures s.Open() && BitsOn(old(s.Now()), s.Now(), ItemsChunks(cl, seq(count0, _ => Given(curlen))))
  {
    hide *;
    ghost var a := s.Now();
    ghost var all := seq(count0, _ => Given(curlen));
    s.RoomIs(Total(ItemsChunks(cl, all)));
    var count := count0;
    ghost var n: nat := 0;
    GivensStart(cl, curlen, count0);
    BitsNone(a);
    while true
      invariant s.Open() && 0 < count && n + count == count0
      invariant AllCoded(cl, seq(n, _ => Given(curlen)))
      invariant BitsOn(a, s.Now(), ItemsChunks(cl, seq(n, _ => Given(curlen))))
      decreases count
    {
      ghost var b, part := s.Now(), seq(n, _ => Given(curlen));
      GivenNext(cl, curlen, n, count0);
      ItemsLess(cl, seq(n + 1, _ => Given(curlen)), seq(count - 1, _ => Given(curlen)));
      BitsOnIs(a, b, ItemsChunks(cl, part));
      TotalAdd(ItemsChunks(cl, part), ItemChunks(cl, Given(curlen)));
      s.RoomIs(Total(ItemChunks(cl, Given(curlen))));
      ItemKinds(Given(curlen));
      GivenOk(curlen);
      SendItem(s, Given(curlen), bl, cl);
      BitsThen(a, b, s.Now(), ItemsChunks(cl, part), ItemChunks(cl, Given(curlen)));
      count := count - 1;
      n := n + 1;
      if count == 0 { break; }
    }
  }

  lemma RunItemsAre(v: nat, count: nat, prev: int)
    requires 0 < count <= MaxRun(v, prev)
    ensures count < MinRun(v, prev) ==> RunItems(v, count, prev) == seq(count, _ => Given(v))
    ensures count >= MinRun(v, prev) && v != 0 && v != prev ==>
              count >= 4 && RunItems(v, count, prev) == [Given(v), Repeat(count - 4)]
    ensures count >= MinRun(v, prev) && v != 0 && v == prev ==>
              count >= 3 && RunItems(v, count, prev) == [Repeat(count - 3)]
    ensures count >= MinRun(v, prev) && v == 0 && count <= 10 ==>
              count >= 3 && RunItems(v, count, prev) == [Few(count - 3)]
    ensures count >= MinRun(v, prev) && v == 0 && count > 10 ==> RunItems(v, count, prev) == [Many(count - 11)]
  {
  }

  lemma RunExtras(v: nat, count: nat, prev: int)
    requires 0 < count <= MaxRun(v, prev)
    ensures count >= MinRun(v, prev) && v != 0 && v != prev ==> count >= 4 && ItemOk(Repeat(count - 4))
    ensures count >= MinRun(v, prev) && v != 0 && v == prev ==> count >= 3 && ItemOk(Repeat(count - 3))
    ensures count >= MinRun(v, prev) && v == 0 && count <= 10 ==> count >= 3 && ItemOk(Few(count - 3))
    ensures count >= MinRun(v, prev) && v == 0 && count > 10 ==> ItemOk(Many(count - 11))
  {
    SmallPowers2();
    hide Pow2;
  }

  lemma GivenOk(v: nat)
    requires v < 16
    ensures ItemOk(Given(v))
  {
    NoPower();
  }

  lemma GivensStart(cl: seq<nat>, v: nat, count: nat)
    requires AllCoded(cl, seq(count, _ => Given(v)))
    ensures AllCoded(cl, seq(0, _ => Given(v))) && ItemsChunks(cl, seq(0, _ => Given(v))) == []
  {
  }

  lemma GivenNext(cl: seq<nat>, v: nat, n: nat, count: nat)
    requires n < count && AllCoded(cl, seq(count, _ => Given(v)))
    ensures Coding(cl, Symbol(Given(v)))
    ensures AllCoded(cl, seq(n, _ => Given(v))) && AllCoded(cl, seq(n + 1, _ => Given(v)))
    ensures seq(n + 1, _ => Given(v)) + seq(count - n - 1, _ => Given(v)) == seq(count, _ => Given(v))
    ensures ItemsChunks(cl, seq(n + 1, _ => Given(v))) ==
            ItemsChunks(cl, seq(n, _ => Given(v))) + ItemChunks(cl, Given(v))
  {
    var all, part := seq(count, _ => Given(v)), seq(n, _ => Given(v));
    assert all[0] == Given(v);
    hide Coding, ItemChunks, ItemsChunks;
    assert seq(n + 1, _ => Given(v)) == part + [Given(v)];
    assert seq(n + 1, _ => Given(v)) + seq(count - n - 1, _ => Given(v)) == all;
    ItemsAdd(cl, part, [Given(v)]);
    ItemsOne(cl, Given(v));
  }

  /** Sends the lengths of a tree up to its last code. */
  method SendTree(s: Sender, len: array<UInt16>, max_code: nat, bl: Tree, ghost cl: seq<nat>)
    requires TreeFor(bl, cl) && bl.len.Length == 19 == |cl| && LengthsOk(cl)
    requires max_code + 1 < len.Length && len[max_code + 1] == 0xffff && LengthsOk(len[..max_code + 1])
    requires AllCoded(cl, TreeItems(len[..max_code + 1], 0, -1, 0))
    requires s.Room(Total(ItemsChunks(cl, TreeItems(len[..max_code + 1], 0, -1, 0))))
    modifies s, s.pending_buf
    ensures s.Open() && BitsOn(old(s.Now()), s.Now(), ItemsChunks(cl, TreeItems(len[..max_code + 1], 0, -1, 0)))
  {
    hide *;
    ghost var lens: seq<nat> := len[..max_code + 1];
    ghost var all, rest := TreeItems(lens, 0, -1, 0), TreeItems(lens, 0, -1, 0);
    ghost var a, done := s.Now(), [];
    assert done + rest == all;
    s.RoomIs(Total(ItemsChunks(cl, all)));
    BitsNone(a);
    NoneCoded(cl);
    ItemsNext(cl, []);
    WaitingStart(lens, []);
    ghost var sofar: seq<nat> := [];
    var prevlen: int, nextlen: nat, count: nat := -1, len[0], 0;
    var max_count: nat, min_count: nat := 7, 4;
    RunsAre(len[0], -1);
    if nextlen == 0 {
      max_count, min_count := 138, 3;
    }
    assert lens[0] == len[0];
    for n := 0 to max_code + 1
      invariant s.Open() && nextlen == (if n <= max_code then lens[n] else 0xffff)
      invariant max_count == MaxRun(nextlen, prevlen) && min_count == MinRun(nextlen, prevlen)
      invariant Waiting(lens, n, prevlen, count, sofar) && n <= |lens| && rest == TreeItems(lens, n, prevlen, count)
      invariant done + rest == all && AllCoded(cl, done) && BitsOn(a, s.Now(), ItemsChunks(cl, done))
    {
      var curlen := nextlen;
      nextlen := len[n + 1];
      assert n < max_code ==> lens[n + 1] == len[n + 1];
      LengthOk(lens, n);
      count := count + 1;
      TreeItemsAre(lens, n, prevlen, count - 1);
      GoesIs(lens, n, prevlen, count - 1);
      if count < max_count && curlen == nextlen {
        WaitingOn(lens, n, prevlen, count - 1, sofar);
        rest := TreeItems(lens, n + 1, prevlen, count);
      } else {
        WaitingOver(lens, n, prevlen, count - 1, sofar);
        ghost var run := RunItems(curlen, count, prevlen);
        ghost var rest' := TreeItems(lens, n + 1, curlen, 0);
        assert all == (done + run) + rest';
        ItemsAdd(cl, done + run, rest');
        ItemsAdd(cl, done, run);
        ItemsLess(cl, done + run, rest');
        TotalAdd(ItemsChunks(cl, done), ItemsChunks(cl, run));
        ghost var b := s.Now();
        BitsOnIs(a, b, ItemsChunks(cl, done));
        s.RoomIs(Total(ItemsChunks(cl, run)));
        SendRun(s, curlen, count, prevlen, min_count, bl, cl);
        BitsThen(a, b, s.Now(), ItemsChunks(cl, done), ItemsChunks(cl, run));
        done, rest := done + run, rest';
        sofar := sofar + seq(count, _ => curlen);
        count, prevlen := 0, curlen;
        RunsAre(nextlen, prevlen);
        if nextlen == 0 {
          max_count, min_count := 138, 3;
        } else if curlen == nextlen {
          max_count, min_count := 6, 3;
        } else {
          max_count, min_count := 7, 4;
        }
      }
    }
    WaitingIn(lens, |lens|, prevlen, count, sofar);
    TreeItemsAre(lens, |lens|, prevlen, count);
    assert |lens| == max_code + 1 && rest == [] && done + [] == done;
  }

  lemma RunsAre(v: nat, prev: int)
    ensures MaxRun(v, prev) == if v == 0 then 138 else if v == prev then 6 else 7
    ensures MinRun(v, prev) == if v == 0 || v == prev then 3 else 4
  {
  }

  lemma GoesIs(lens: seq<nat>, n: nat, prev: int, count: nat)
    requires n < |lens|
    ensures Goes(lens, n, prev, count) <==>
              count + 1 < MaxRun(lens[n], prev) && n + 1 < |lens| && lens[n + 1] == lens[n]
  {
  }

  lemma NoneCoded(cl: seq<nat>)
    ensures AllCoded(cl, [])
  {
  }

  /* ---- the whole head ---- */

  /** The lengths of the code for lengths, in the order in which they are sent. */
  ghost function ShortChunks(cl: seq<nat>, n: nat): (r: seq<Chunk>)
    requires |cl| == 19 && n <= 19
    ensures |r| == n
  {
    seq(n, k requires 0 <= k < n => ShortChunk(cl, k))
  }

  ghost function ShortChunk(cl: seq<nat>, k: nat): Chunk
    requires |cl| == 19 && k < 19
  {
    Chunk(cl[ORDER[k]], 3)
  }

  ghost function ItemsOf(z: Codes): seq<Item> {
    TreeItems(z.lens, 0, -1, 0) + TreeItems(z.dists, 0, -1, 0)
  }

  /** A head that can be sent: enough symbols, codes for all of its items, and no length of the code for lengths past
      the last one sent. */
  ghost predicate HeadFits(hd: Head) {
    && 257 <= |hd.z.lens| == hd.nlen <= 286 && 1 <= |hd.z.dists| == hd.ndist <= 30
    && LengthsOk(hd.z.lens) && LengthsOk(hd.z.dists)
    && 4 <= hd.ncode <= 19 == |hd.cl| && AllWithin(hd.cl, 7) && hd.items == ItemsOf(hd.z) && AllCoded(hd.cl, hd.items)
    && forall s: nat :: s < 19 && RANK[s] >= hd.ncode ==> hd.cl[s] == 0
  }

  ghost function CountChunks(hd: Head): seq<Chunk> {
    [Chunk(Over(hd.nlen, 257), 5), Chunk(Over(hd.ndist, 1), 5), Chunk(Over(hd.ncode, 4), 4)]
  }

  ghost function HeadChunks(hd: Head): seq<Chunk>
    requires HeadFits(hd)
  {
    CountChunks(hd) + ShortChunks(hd.cl, hd.ncode) + ItemsChunks(hd.cl, hd.items)
  }

  lemma FitsParts(hd: Head)
    requires HeadFits(hd)
    ensures 257 <= |hd.z.lens| == hd.nlen <= 286 && 1 <= |hd.z.dists| == hd.ndist <= 30
    ensures LengthsOk(hd.z.lens) && LengthsOk(hd.z.dists)
    ensures 4 <= hd.ncode <= 19 == |hd.cl| && AllWithin(hd.cl, 7) && hd.items == ItemsOf(hd.z)
    ensures AllCoded(hd.cl, hd.items)
    ensures HeadChunks(hd) == CountChunks(hd) + ShortChunks(hd.cl, hd.ncode) + ItemsChunks(hd.cl, hd.items)
    ensures forall s: nat :: s < 19 && RANK[s] >= hd.ncode ==> hd.cl[s] == 0
  {
    hide AllCoded, ItemsOf, CountChunks, ShortChunks, ItemsChunks;
  }

  lemma CountChunksAre(hd: Head)
    requires HeadFits(hd)
    ensures CountChunks(hd) == [Chunk(hd.nlen - 257, 5)] + ([Chunk(hd.ndist - 1, 5)] + [Chunk(hd.ncode - 4, 4)])
    ensures ChunkOk(Chunk(hd.nlen - 257, 5)) && ChunkOk(Chunk(hd.ndist - 1, 5)) && ChunkOk(Chunk(hd.ncode - 4, 4))
    ensures Pow2(5) == 32 && Pow2(4) == 16
  {
    FitsParts(hd);
    assert Pow2(5) == 32 && Pow2(4) == 16;
    hide HeadFits, Pow2;
  }

  /** The three counts are found where they are read. */
  lemma CountsSent(hd: Head, t: seq<Chunk>)
    requires HeadFits(hd)
    ensures CountsHere(hd, BitsAt(CountChunks(hd) + t))
    ensures 14 <= BitsAt(CountChunks(hd) + t).avail && Skip(BitsAt(CountChunks(hd) + t), 14) == BitsAt(t)
  {
    hide *;
    FitsParts(hd);
    CountChunksAre(hd);
    var a, b, c := Chunk(hd.nlen - 257, 5), Chunk(hd.ndist - 1, 5), Chunk(hd.ncode - 4, 4);
    var p := BitsAt(CountChunks(hd) + t);
    assert CountChunks(hd) + t == [a] + ([b] + ([c] + t));
    ChunkHere(a, [b] + ([c] + t));
    ChunkHere(b, [c] + t);
    ChunkHere(c, t);
    SkipIs(p, 5);
    SkipIs(BitsAt([b] + ([c] + t)), 5);
    SkipIs(BitsAt([c] + t), 4);
    SkipSkip(p, 5, 5);
    SkipIs(p, 10);
    SkipSkip(p, 10, 4);
    ExtrasAre(p.h, After(p.h, 5), After(p.h, 10), a.v, b.v, c.v);
    CountsIs(hd, p);
  }

  ghost predicate Threes(cs: seq<Chunk>) {
    forall k :: 0 <= k < |cs| ==> cs[k].n == 3 && ChunkOk(cs[k])
  }

  /** Behind k numbers of three bits. */
  lemma {:induction false} ThreesAfter(cs: seq<Chunk>, t: seq<Chunk>, k: nat)
    requires Threes(cs) && k <= |cs|
    ensures 3 * k <= BitsAt(cs + t).avail && Skip(BitsAt(cs + t), 3 * k) == BitsAt(cs[k..] + t)
    decreases k
  {
    if k == 0 {
      SkipNone(BitsAt(cs + t));
      assert cs[0..] == cs;
    } else {
      var rest := cs[1..];
      assert Threes(rest) && cs + t == [cs[0]] + (rest + t);
      hide *;
      ThreeFirst(cs);
      ChunkHere(cs[0], rest + t);
      ThreesAfter(rest, t, k - 1);
      SkipIs(BitsAt(cs + t), 3);
      SkipSkip(BitsAt(cs + t), 3, 3 * (k - 1));
      assert rest[k - 1..] == cs[k..];
    }
  }

  lemma ThreeFirst(cs: seq<Chunk>)
    requires Threes(cs) && cs != []
    ensures cs[0].n == 3 && ChunkOk(cs[0])
  {
  }

  lemma ThreeThere(cs: seq<Chunk>, t: seq<Chunk>, k: nat)
    requires Threes(cs) && k < |cs|
    ensures Three(BitsAt(cs + t).h, k) == cs[k].v && 3 * k <= BitsAt(cs + t).avail
  {
    hide Value, Total, After, Pow2, BitsAt, Skip;
    ThreesAfter(cs, t, k);
    assert cs[k..] + t == [cs[k]] + (cs[k + 1..] + t);
    ChunkHere(cs[k], cs[k + 1..] + t);
    SkipIs(BitsAt(cs + t), 3 * k);
    ThreeIs(BitsAt(cs + t).h, k, cs[k].v);
  }

  lemma ShortThrees(cl: seq<nat>, n: nat)
    requires |cl| == 19 && n <= 19 && AllWithin(cl, 7)
    ensures Threes(ShortChunks(cl, n))
  {
    OrderFacts();
    assert Pow2(3) == 8;
  }

  /** The lengths of the code for lengths are found where they are read. */
  lemma ShortSent(cl: seq<nat>, n: nat, t: seq<Chunk>)
    requires |cl| == 19 && n <= 19 && AllWithin(cl, 7) && forall s: nat :: s < 19 && RANK[s] >= n ==> cl[s] == 0
    ensures ShortLengths(BitsAt(ShortChunks(cl, n) + t).h, n, cl)
    ensures 3 * n <= BitsAt(ShortChunks(cl, n) + t).avail && Skip(BitsAt(ShortChunks(cl, n) + t), 3 * n) == BitsAt(t)
  {
    var cs := ShortChunks(cl, n);
    OrderFacts();
    ShortThrees(cl, n);
    hide Value, Total, After, Pow2, BitsAt, Skip, Three, ShortLengths, Threes;
    ThreesAfter(cs, t, n);
    assert cs[n..] + t == t;
    forall k: nat | k < 19
      ensures cl[ORDER[k]] == if k < n then Three(BitsAt(cs + t).h, k) else 0
    {
      if k < n {
        ThreeThere(cs, t, k);
        assert cs[k] == ShortChunk(cl, k);
      }
    }
    ShortMade(BitsAt(cs + t).h, n, cl);
  }

  /** Inflate reads the head that was sent, and what follows. */
  lemma HeadSent(hd: Head, t: seq<Chunk>)
    requires HeadFits(hd) && Usable(hd.z) && !Refused(CODES, hd.cl)
    ensures HeadHere(hd, BitsAt(HeadChunks(hd) + t), BitsAt(t))
  {
    hide *;
    FitsParts(hd);
    var a, b, c := CountChunks(hd), ShortChunks(hd.cl, hd.ncode), ItemsChunks(hd.cl, hd.items);
    var p := BitsAt(HeadChunks(hd) + t);
    assert HeadChunks(hd) + t == a + (b + (c + t));
    CountsSent(hd, b + (c + t));
    SkipIs(p, 14);
    ShortSent(hd.cl, hd.ncode, c + t);
    SkipIs(BitsAt(b + (c + t)), 3 * hd.ncode);
    SkipSkip(p, 14, 3 * hd.ncode);
    ItemsOfAre(hd.z);
    BothFlat(hd.z.lens, hd.z.dists);
    ItemsSent(hd.cl, hd.items, hd.nlen + hd.ndist, [], t);
    HeadIs(hd, p, BitsAt(t));
  }

  lemma ItemsOfAre(z: Codes)
    ensures ItemsOf(z) == TreeItems(z.lens, 0, -1, 0) + TreeItems(z.dists, 0, -1, 0)
  {
  }

  /** The tree holds the lengths, closed by a guard. */
  ghost predicate Guarded(len: array<UInt16>, lens: seq<nat>)
    reads len
  {
    0 < |lens| < len.Length && len[..|lens|] == lens && len[|lens|] == 0xffff && LengthsOk(lens)
  }

  lemma GuardedIs(len: array<UInt16>, lens: seq<nat>)
    ensures Guarded(len, lens) <==>
              0 < |lens| < len.Length && len[..|lens|] == lens && len[|lens|] == 0xffff && LengthsOk(lens)
  {
  }

  /** Sends the head: the counts, the code for lengths, and both trees. */
  method SendAllTrees(s: Sender, lcodes: nat, dcodes: nat, blcodes: nat, ltree: Tree, dtree: Tree, bl: Tree,
                      ghost hd: Head)
    requires HeadFits(hd) && lcodes == hd.nlen && dcodes == hd.ndist && blcodes == hd.ncode
    requires Guarded(ltree.len, hd.z.lens) && Guarded(dtree.len, hd.z.dists)
    requires TreeFor(bl, hd.cl) && bl.len.Length == 19 && LengthsOk(hd.cl) && s.Room(Total(HeadChunks(hd)))
    modifies s, s.pending_buf
    ensures s.Open() && BitsOn(old(s.Now()), s.Now(), HeadChunks(hd))
  {
    hide *;
    FitsParts(hd);
    HeadTotal(hd);
    OrderFacts();
    ghost var a := s.Now();
    s.RoomIs(Total(HeadChunks(hd)));
    s.RoomIs(14);
    SendCounts(s, lcodes, dcodes, blcodes, hd);
    ghost var b := s.Now();
    BitsOnIs(a, b, CountChunks(hd));
    NoShort(hd.cl);
    BitsNone(b);
    NoChunks();
    for rank := 0 to blcodes
      invariant s.Open() && BitsOn(b, s.Now(), ShortChunks(hd.cl, rank)) && Total(ShortChunks(hd.cl, rank)) == 3 * rank
    {
      BlLength(bl, hd.cl, ORDER[rank]);
      ShortNext(hd.cl, rank);
      ghost var c := s.Now();
      BitsOnIs(b, c, ShortChunks(hd.cl, rank));
      s.RoomIs(3);
      s.SendBits(bl.len[ORDER[rank]], 3);
      OneChunk(ShortChunk(hd.cl, rank));
      TotalAdd(ShortChunks(hd.cl, rank), [ShortChunk(hd.cl, rank)]);
      BitsThen(b, c, s.Now(), ShortChunks(hd.cl, rank), [ShortChunk(hd.cl, rank)]);
    }
    ghost var d := s.Now();
    BitsOnIs(b, d, ShortChunks(hd.cl, hd.ncode));
    BitsThen(a, b, d, CountChunks(hd), ShortChunks(hd.cl, hd.ncode));
    ghost var xs, ys := TreeItems(hd.z.lens, 0, -1, 0), TreeItems(hd.z.dists, 0, -1, 0);
    ItemsOfAre(hd.z);
    ItemsAdd(hd.cl, xs, ys);
    TotalAdd(ItemsChunks(hd.cl, xs), ItemsChunks(hd.cl, ys));
    GuardedIs(ltree.len, hd.z.lens);
    GuardedIs(dtree.len, hd.z.dists);
    s.RoomIs(Total(ItemsChunks(hd.cl, xs)));
    SendTree(s, ltree.len, lcodes - 1, bl, hd.cl);
    ghost var e := s.Now();
    BitsOnIs(d, e, ItemsChunks(hd.cl, xs));
    s.RoomIs(Total(ItemsChunks(hd.cl, ys)));
    SendTree(s, dtree.len, dcodes - 1, bl, hd.cl);
    BitsThen(d, e, s.Now(), ItemsChunks(hd.cl, xs), ItemsChunks(hd.cl, ys));
    BitsThen(a, d, s.Now(), CountChunks(hd) + ShortChunks(hd.cl, hd.ncode), ItemsChunks(hd.cl, ItemsOf(hd.z)));
  }

  /** Sends the three counts. */
  method SendCounts(s: Sender, lcodes: nat, dcodes: nat, blcodes: nat, ghost hd: Head)
    requires HeadFits(hd) && lcodes == hd.nlen && dcodes == hd.ndist && blcodes == hd.ncode && s.Room(14)
    modifies s, s.pending_buf
    ensures s.Open() && BitsOn(old(s.Now()), s.Now(), CountChunks(hd))
  {
    hide *;
    FitsParts(hd);
    CountChunksAre(hd);
    var x, y, z := Chunk(lcodes - 257, 5), Chunk(dcodes - 1, 5), Chunk(blcodes - 4, 4);
    ChunkIs(x);
    ChunkIs(y);
    ChunkIs(z);
    OneChunk(x);
    OneChunk(y);
    ghost var a := s.Now();
    s.RoomIs(14);
    s.RoomIs(5);
    s.SendBits(lcodes - 257, 5);
    ghost var b := s.Now();
    BitsOnIs(a, b, [x]);
    s.RoomIs(5);
    s.SendBits(dcodes - 1, 5);
    ghost var c := s.Now();
    BitsOnIs(b, c, [y]);
    s.RoomIs(4);
    s.SendBits(blcodes - 4, 4);
    BitsThen(a, b, c, [x], [y]);
    BitsThen(a, c, s.Now(), [x] + [y], [z]);
    assert [x] + [y] + [z] == CountChunks(hd);
  }

  /** Of how many bits the head consists. */
  lemma HeadTotal(hd: Head)
    requires HeadFits(hd)
    ensures |hd.cl| == 19 && hd.ncode <= 19 && AllCoded(hd.cl, ItemsOf(hd.z))
    ensures Total(HeadChunks(hd)) == 14 + 3 * hd.ncode + Total(ItemsChunks(hd.cl, ItemsOf(hd.z)))
    ensures HeadChunks(hd) == CountChunks(hd) + ShortChunks(hd.cl, hd.ncode) + ItemsChunks(hd.cl, ItemsOf(hd.z))
    ensures Total(CountChunks(hd)) == 14
  {
    hide *;
    FitsParts(hd);
    CountChunksAre(hd);
    var x, y, z := Chunk(hd.nlen - 257, 5), Chunk(hd.ndist - 1, 5), Chunk(hd.ncode - 4, 4);
    OneChunk(x);
    OneChunk(y);
    OneChunk(z);
    TotalAdd([x], [y]);
    TotalAdd([x] + [y], [z]);
    assert [x] + [y] + [z] == CountChunks(hd);
    ShortTotal(hd.cl, hd.ncode);
    TotalAdd(CountChunks(hd), ShortChunks(hd.cl, hd.ncode));
    TotalAdd(CountChunks(hd) + ShortChunks(hd.cl, hd.ncode), ItemsChunks(hd.cl, ItemsOf(hd.z)));
  }

  lemma {:induction false} ShortTotal(cl: seq<nat>, n: nat)
    requires |cl| == 19 && n <= 19 && AllWithin(cl, 7)
    ensures Total(ShortChunks(cl, n)) == 3 * n
    decreases n
  {
    hide *;
    NoShort(cl);
    NoChunks();
    if n > 0 {
      ShortTotal(cl, n - 1);
      ShortNext(cl, n - 1);
      OneChunk(ShortChunk(cl, n - 1));
      TotalAdd(ShortChunks(cl, n - 1), [ShortChunk(cl, n - 1)]);
    }
  }

  lemma NoShort(cl: seq<nat>)
    requires |cl| == 19
    ensures ShortChunks(cl, 0) == []
  {
  }

  lemma ShortNext(cl: seq<nat>, k: nat)
    requires |cl| == 19 && k < 19 && AllWithin(cl, 7)
    ensures ShortChunks(cl, k + 1) == ShortChunks(cl, k) + [ShortChunk(cl, k)]
    ensures |ORDER| == 19 && ORDER[k] < 19 && ShortChunk(cl, k) == Chunk(cl[ORDER[k]], 3) && cl[ORDER[k]] < Pow2(3)
  {
    OrderFacts();
    assert Pow2(3) == 8;
  }

  lemma BlLength(bl: Tree, cl: seq<nat>, s: nat)
    requires TreeFor(bl, cl) && bl.len.Length == 19 == |cl| && s < 19
    ensures bl.len[s] == cl[s]
  {
  }
}
