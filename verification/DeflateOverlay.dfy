/** Tokens and output share one buffer: the bytes put out may reach the entry of a token before it is read. */
module DeflateOverlay {
  import opened MachineInts
  import opened DeflateTokens
  import opened DeflateBlocks
  import opened DeflateText
  import opened DeflateSender
  import opened DeflateChunks
  import opened DeflateTrees
  import opened Lz77

  /* ---- the symbols of a block ---- */

  /** The symbols of tokens, without an end. */
  ghost function SymbolChunks(z: Codes, xs: seq<Coded>): seq<Chunk>
    requires HasCodes(z, xs) && AllOk(xs)
    decreases |xs|
  {
    if xs == [] then [] else TokenChunks(z, xs[0]) + SymbolChunks(z, xs[1..])
  }

  lemma {:induction false} BlockIsSymbols(z: Codes, xs: seq<Coded>)
    requires HasCodes(z, xs) && AllOk(xs)
    ensures HasCode(z, End) && FormOk(End) && BlockChunks(z, xs) == SymbolChunks(z, xs) + TokenChunks(z, End)
    decreases |xs|
  {
    if xs != [] { BlockIsSymbols(z, xs[1..]); }
  }

  lemma SymbolsStep(z: Codes, xs: seq<Coded>)
    requires HasCodes(z, xs) && AllOk(xs)
    ensures xs == [] ==> SymbolChunks(z, xs) == []
    ensures xs != [] ==>
              && HasCode(z, xs[0]) && FormOk(xs[0]) && HasCodes(z, xs[1..]) && AllOk(xs[1..])
              && SymbolChunks(z, xs) == TokenChunks(z, xs[0]) + SymbolChunks(z, xs[1..])
  {
    hide HasCode, FormOk, TokenChunks;
  }

  lemma CodesSplit(z: Codes, xs: seq<Coded>, x: Coded)
    requires HasCodes(z, xs + [x]) && AllOk(xs + [x])
    ensures HasCodes(z, xs) && AllOk(xs) && HasCode(z, x) && FormOk(x) && HasCodes(z, [x]) && AllOk([x])
  {
    hide HasCode, FormOk;
    var all := xs + [x];
    assert all[|xs|] == x;
    assert forall k :: 0 <= k < |xs| ==> all[k] == xs[k];
  }

  lemma {:induction false} SymbolsPush(z: Codes, xs: seq<Coded>, x: Coded)
    requires HasCodes(z, xs + [x]) && AllOk(xs + [x])
    ensures HasCodes(z, xs) && AllOk(xs) && HasCode(z, x) && FormOk(x)
    ensures SymbolChunks(z, xs + [x]) == SymbolChunks(z, xs) + TokenChunks(z, x)
    decreases |xs|
  {
    hide *;
    CodesSplit(z, xs, x);
    SymbolsStep(z, xs + [x]);
    SymbolsStep(z, xs);
    if xs == [] {
      assert (xs + [x])[1..] == [] && (xs + [x])[0] == x;
      SymbolsStep(z, (xs + [x])[1..]);
    } else {
      assert (xs + [x])[1..] == xs[1..] + [x];
      SymbolsPush(z, xs[1..], x);
    }
  }

  lemma FormsPush(d: seq<UInt16>, l: seq<Byte>, n: nat, z: Codes, last: nat)
    requires n < last && last <= |d| && last <= |l|
    requires HasCodes(z, FormsOf(Tokens(d, l, last))) && AllOk(FormsOf(Tokens(d, l, last)))
    ensures FormsOf(Tokens(d, l, n + 1)) == FormsOf(Tokens(d, l, n)) + [FormOf(DeflateText.TokenOf(d[n], l[n]))]
    ensures HasCodes(z, FormsOf(Tokens(d, l, n + 1))) && AllOk(FormsOf(Tokens(d, l, n + 1)))
  {
    hide HasCode, FormOk, FormOf, DeflateText.TokenOf;
    var all := FormsOf(Tokens(d, l, last));
    var part := FormsOf(Tokens(d, l, n + 1));
    forall k | 0 <= k < n + 1
      ensures part[k] == all[k] && HasCode(z, part[k]) && FormOk(part[k])
    {
    }
  }

  /* ---- where the entries of tokens lie ---- */

  /** In a buffer of 4 * n bytes, entry k of the distances is the two bytes from n + 2 * k on, the low one first, and
      entry k of the lengths is byte 3 * n + k. */
  function DistAt(mem: seq<Byte>, n: nat, k: nat): UInt16
    requires |mem| == 4 * n && k < n
  {
    var low: nat, high: nat := mem[n + 2 * k], mem[n + 2 * k + 1];
    low + 0x100 * high
  }

  function LengthAt(mem: seq<Byte>, n: nat, k: nat): Byte
    requires |mem| == 4 * n && k < n
  {
    mem[3 * n + k]
  }

  function DistsIn(mem: seq<Byte>, n: nat): (r: seq<UInt16>)
    requires |mem| == 4 * n
    ensures |r| == n
  {
    seq(n, k requires 0 <= k < n => DistAt(mem, n, k))
  }

  function LengthsIn(mem: seq<Byte>, n: nat): (r: seq<Byte>)
    requires |mem| == 4 * n
    ensures |r| == n
  {
    seq(n, k requires 0 <= k < n => LengthAt(mem, n, k))
  }

  /** The first tokens that lie in the buffer. */
  function TokensIn(mem: seq<Byte>, n: nat, last: nat): (r: seq<Token>)
    requires |mem| == 4 * n && last <= n
    ensures |r| == last
  {
    Tokens(DistsIn(mem, n), LengthsIn(mem, n), last)
  }

  lemma TokensInAre(mem: seq<Byte>, n: nat, last: nat)
    requires |mem| == 4 * n && last <= n
    ensures TokensIn(mem, n, last) == Tokens(DistsIn(mem, n), LengthsIn(mem, n), last)
  {
  }

  /** Writing entry k. */
  lemma EntryWritten(mem: seq<Byte>, n: nat, k: nat, dist: UInt16, lc: Byte)
    requires |mem| == 4 * n && k < n
    ensures var mem' := mem[n + 2 * k := dist % 0x100][n + 2 * k + 1 := dist / 0x100][3 * n + k := lc];
            DistsIn(mem', n) == DistsIn(mem, n)[k := dist] && LengthsIn(mem', n) == LengthsIn(mem, n)[k := lc]
  {
    var mem' := mem[n + 2 * k := dist % 0x100][n + 2 * k + 1 := dist / 0x100][3 * n + k := lc];
    var d, d' := DistsIn(mem, n)[k := dist], DistsIn(mem', n);
    forall i: nat | i < n
      ensures d'[i] == d[i]
    {
      assert mem'[n + 2 * i] == if i == k then dist % 0x100 else mem[n + 2 * i];
      assert mem'[n + 2 * i + 1] == if i == k then dist / 0x100 else mem[n + 2 * i + 1];
    }
    var l, l' := LengthsIn(mem, n)[k := lc], LengthsIn(mem', n);
    forall i: nat | i < n
      ensures l'[i] == l[i]
    {
      assert mem'[3 * n + i] == if i == k then lc else mem[3 * n + i];
    }
  }

  /** Bytes put out before its entry leave a token as it was tallied. */
  lemma EntryKept(was: seq<Byte>, now: seq<Byte>, n: nat, pending: nat, k: nat)
    requires |was| == 4 * n && SameBehind(was, now, pending) && k < n && pending <= n + 2 * k
    ensures |now| == 4 * n && DistAt(now, n, k) == DistsIn(was, n)[k] && LengthAt(now, n, k) == LengthsIn(was, n)[k]
  {
  }

  /* ---- how far the output has come ---- */

  /** How many bits the first k symbols take. */
  ghost function CostTo(z: Codes, xs: seq<Coded>, k: nat): nat
    requires HasCodes(z, xs) && AllOk(xs) && k <= |xs|
  {
    if k == 0 then 0 else CostTo(z, xs, k - 1) + Total(TokenChunks(z, xs[k - 1]))
  }

  lemma CostStep(z: Codes, xs: seq<Coded>, k: nat)
    requires HasCodes(z, xs) && AllOk(xs) && k < |xs|
    ensures HasCode(z, xs[k]) && FormOk(xs[k])
    ensures CostTo(z, xs, 0) == 0 && CostTo(z, xs, k + 1) == CostTo(z, xs, k) + Total(TokenChunks(z, xs[k]))
  {
    hide HasCode, FormOk, TokenChunks, Total;
  }

  lemma {:induction false} CostGrows(z: Codes, xs: seq<Coded>, i: nat, k: nat)
    requires HasCodes(z, xs) && AllOk(xs) && i <= k <= |xs|
    ensures CostTo(z, xs, i) <= CostTo(z, xs, k)
    decreases k
  {
    hide *;
    if i < k {
      CostStep(z, xs, k - 1);
      CostGrows(z, xs, i, k - 1);
    }
  }

  /** All symbols and the end of the block. */
  lemma {:induction false} CostWhole(z: Codes, xs: seq<Coded>, k: nat)
    requires HasCodes(z, xs) && AllOk(xs) && k <= |xs|
    ensures HasCodes(z, xs[k..]) && AllOk(xs[k..]) && HasCode(z, End)
    ensures CostTo(z, xs, k) + Total(BlockChunks(z, xs[k..])) == CostTo(z, xs, |xs|) + Total(TokenChunks(z, End))
    decreases |xs| - k
  {
    hide *;
    CodesFrom(z, xs, k);
    if k == |xs| {
      assert xs[k..] == [];
      CodesEnd(z);
    } else {
      CostStep(z, xs, k);
      CostWhole(z, xs, k + 1);
      CodesNext(z, xs[k..]);
      assert xs[k..][1..] == xs[k + 1..] && xs[k..][0] == xs[k];
      TotalAdd(TokenChunks(z, xs[k]), BlockChunks(z, xs[k + 1..]));
    }
  }

  lemma CodesFrom(z: Codes, xs: seq<Coded>, k: nat)
    requires HasCodes(z, xs) && AllOk(xs) && k <= |xs|
    ensures HasCodes(z, xs[k..]) && AllOk(xs[k..]) && HasCode(z, End)
  {
    hide HasCode, FormOk;
  }

  /** With used bits in front of the symbols xs, the output has not come to the entry of token k when it is read. */
  ghost predicate InTime(n: nat, used: nat, z: Codes, xs: seq<Coded>, k: nat)
    requires HasCodes(z, xs) && AllOk(xs) && k < |xs|
  {
    Put(used + CostTo(z, xs, k)) <= n + 2 * k
  }

  lemma InTimeIs(n: nat, used: nat, z: Codes, xs: seq<Coded>, k: nat)
    requires HasCodes(z, xs) && AllOk(xs) && k < |xs|
    ensures InTime(n, used, z, xs, k) <==> Put(used + CostTo(z, xs, k)) <= n + 2 * k
  {
    hide CostTo, Put, HasCodes, AllOk;
  }

  /** The output comes to no entry before it has been read. */
  ghost predicate Clear(n: nat, used: nat, z: Codes, xs: seq<Coded>)
    requires HasCodes(z, xs) && AllOk(xs)
  {
    forall k: nat :: k < |xs| ==> InTime(n, used, z, xs, k)
  }

  lemma ClearIs(n: nat, used: nat, z: Codes, xs: seq<Coded>)
    requires HasCodes(z, xs) && AllOk(xs)
    ensures Clear(n, used, z, xs) <==> forall k: nat :: k < |xs| ==> InTime(n, used, z, xs, k)
  {
  }

  /** The output has come to the entry of token k, and the ones before it were read in time and have been sent. */
  ghost predicate Overtaken(n: nat, a: Snap, b: Snap, z: Codes, xs: seq<Coded>, k: nat)
    requires HasCodes(z, xs) && AllOk(xs) && k < |xs|
  {
    && HasCodes(z, xs[..k]) && AllOk(xs[..k]) && BitsOn(a, b, SymbolChunks(z, xs[..k])) && b.pending > n + 2 * k
    && !InTime(n, a.used, z, xs, k) && forall j: nat :: j < k ==> InTime(n, a.used, z, xs, j)
  }

  /* ---- sending ---- */

  /** Sends a literal or a match. */
  method SendToken(s: Sender, tables: StaticTables, dist: UInt16, lc: Byte, ltree: Tree, dtree: Tree, ghost z: Codes)
    requires tables.Valid() && tables.AwayFrom(s.pending_buf) && TreesFor(ltree, dtree, z)
    requires Sound(DeflateText.TokenOf(dist, lc), 32768)
    requires var x := FormOf(DeflateText.TokenOf(dist, lc));
             HasCode(z, x) && FormOk(x) && s.Room(Total(TokenChunks(z, x)))
    modifies s, s.pending_buf
    ensures s.Open() && BitsOn(old(s.Now()), s.Now(), TokenChunks(z, FormOf(DeflateText.TokenOf(dist, lc))))
  {
    hide *;
    TreesParts(ltree, dtree, z);
    TokenParts(dist, lc);
    if dist == 0 {
      LiteralForm(z, lc);
      CodingIs(z.lens, lc);
      CodeTotal(z.lens, lc);
      SendCode(s, lc, ltree, z.lens);
    } else {
      SendMatch(s, tables, dist, lc, ltree, dtree, z);
    }
  }

  lemma TokenParts(dist: UInt16, lc: Byte)
    requires Sound(DeflateText.TokenOf(dist, lc), 32768)
    ensures dist == 0 ==> DeflateText.TokenOf(dist, lc) == Literal(lc)
    ensures dist != 0 ==>
              1 <= dist <= 32768 && var n: nat := lc; DeflateText.TokenOf(dist, lc) == Match(dist, n + 3)
  {
  }

  /** Sends the tokens that lie in the buffer since they were tallied, and the end of the block. The source does not
      look whether output has come to an entry and goes on with what is there; here sending ends with a report. */
  method CompressBlock(s: Sender, tables: StaticTables, lit_bufsize: nat, last_lit: nat, ltree: Tree, dtree: Tree,
                       ghost z: Codes, ghost tallied: seq<Byte>)
    returns (ok: bool)
    requires tables.Valid() && tables.AwayFrom(s.pending_buf) && TreesFor(ltree, dtree, z)
    requires s.pending_buf.Length == 4 * lit_bufsize == |tallied| && last_lit <= lit_bufsize
    requires SameBehind(tallied, s.pending_buf[..], s.pending)
    requires AllSound(TokensIn(tallied, lit_bufsize, last_lit), 32768)
    requires var xs := FormsOf(TokensIn(tallied, lit_bufsize, last_lit));
             HasCodes(z, xs) && AllOk(xs) && s.Room(Total(BlockChunks(z, xs))) && InPairs(s.Now())
    modifies s, s.pending_buf
    ensures s.Open()
    ensures var xs := FormsOf(TokensIn(tallied, lit_bufsize, last_lit));
            && (ok ==> BitsOn(old(s.Now()), s.Now(), BlockChunks(z, xs)))
            && (!ok ==> exists k: nat :: k < |xs| && Overtaken(lit_bufsize, old(s.Now()), s.Now(), z, xs, k))
            && (ok <==> Clear(lit_bufsize, old(s.Now()).used, z, xs))
  {
    hide *;
    ghost var s0, mem := s.Now(), tallied;
    ghost var d, l := DistsIn(mem, lit_bufsize), LengthsIn(mem, lit_bufsize);
    ghost var xs := FormsOf(Tokens(d, l, last_lit));
    TokensInAre(mem, lit_bufsize, last_lit);
    TreesParts(ltree, dtree, z);
    AwayIs(tables, s.pending_buf);
    s.NowIs();
    s.RoomIs(Total(BlockChunks(z, xs)));
    CostWhole(z, xs, 0);
    assert xs[0..] == xs;
    NoSymbols(d, l, z, last_lit);
    NoCost(z, xs);
    BitsNone(s0);
    var lx: nat := 0;
    if last_lit != 0 {
      while true
        invariant s.Open() && tables.Valid() && TreesFor(ltree, dtree, z) && lx < last_lit
        invariant HasCodes(z, FormsOf(Tokens(d, l, lx))) && AllOk(FormsOf(Tokens(d, l, lx)))
        invariant BitsOn(s0, s.Now(), SymbolChunks(z, FormsOf(Tokens(d, l, lx))))
        invariant Total(SymbolChunks(z, FormsOf(Tokens(d, l, lx)))) == CostTo(z, xs, lx)
        invariant forall k: nat :: k < lx ==> InTime(lit_bufsize, s0.used, z, xs, k)
        decreases last_lit - lx
      {
        ghost var n, s1 := lx, s.Now();
        ghost var part := FormsOf(Tokens(d, l, n));
        BitsOnIs(s0, s1, SymbolChunks(z, part));
        PairsAre(s0, s1);
        s.NowIs();
        InTimeIs(lit_bufsize, s0.used, z, xs, n);
        if s.pending > lit_bufsize + 2 * lx {
          PartIs(d, l, n, last_lit);
          OvertakenMade(lit_bufsize, s0, s1, z, xs, n);
          ClearIs(lit_bufsize, s0.used, z, xs);
          return false;
        }
        FormsPush(d, l, n, z, last_lit);
        SymbolsPush(z, part, FormOf(DeflateText.TokenOf(d[n], l[n])));
        FormPairs(FormOf(DeflateText.TokenOf(d[n], l[n])));
        BehindSent(mem, s0, s1, SymbolChunks(z, part));
        EntryKept(mem, s.pending_buf[..], lit_bufsize, s.pending, n);
        CostNext(d, l, n, z, last_lit);
        CostGrows(z, xs, n + 1, |xs|);
        var dist, lc := DistAt(s.pending_buf[..], lit_bufsize, lx), LengthAt(s.pending_buf[..], lit_bufsize, lx);
        lx := lx + 1;
        ghost var cs := TokenChunks(z, FormOf(DeflateText.TokenOf(d[n], l[n])));
        s.RoomIs(Total(cs));
        SoundToken(d, l, n, last_lit);
        SendToken(s, tables, dist, lc, ltree, dtree, z);
        BitsThen(s0, s1, s.Now(), SymbolChunks(z, part), cs);
        TotalAdd(SymbolChunks(z, part), cs);
        if lx >= last_lit { break; }
      }
    }
    ghost var s2 := s.Now();
    BitsOnIs(s0, s2, SymbolChunks(z, xs));
    BlockIsSymbols(z, xs);
    TokenChunksAre(z, End);
    CodingIs(z.lens, 256);
    CodeTotal(z.lens, 256);
    s.RoomIs(z.lens[256]);
    SendCode(s, 256, ltree, z.lens);
    BitsThen(s0, s2, s.Now(), SymbolChunks(z, xs), TokenChunks(z, End));
    ClearIs(lit_bufsize, s0.used, z, xs);
    ok := true;
  }

  lemma NoCost(z: Codes, xs: seq<Coded>)
    requires HasCodes(z, xs) && AllOk(xs)
    ensures CostTo(z, xs, 0) == 0 && Total([]) == 0
  {
  }

  lemma PairsAre(a: Snap, b: Snap)
    requires InPairs(a) ==> InPairs(b)
    ensures InPairs(a) ==> b.pending == Put(b.used)
  {
  }

  lemma BehindSent(mem: seq<Byte>, a: Snap, b: Snap, cs: seq<Chunk>)
    requires BitsOn(a, b, cs) && SameBehind(mem, a.mem, a.pending)
    ensures SameBehind(mem, b.mem, b.pending)
  {
    hide Total;
  }

  lemma PartIs(d: seq<UInt16>, l: seq<Byte>, n: nat, last: nat)
    requires n <= last && last <= |d| && last <= |l|
    ensures FormsOf(Tokens(d, l, n)) == FormsOf(Tokens(d, l, last))[..n]
  {
  }

  lemma OvertakenIs(n: nat, a: Snap, b: Snap, z: Codes, xs: seq<Coded>, k: nat)
    requires HasCodes(z, xs) && AllOk(xs) && k < |xs| && Overtaken(n, a, b, z, xs, k)
    ensures HasCodes(z, xs[..k]) && AllOk(xs[..k]) && BitsOn(a, b, SymbolChunks(z, xs[..k])) && b.pending > n + 2 * k
    ensures !InTime(n, a.used, z, xs, k) && forall j: nat :: j < k ==> InTime(n, a.used, z, xs, j)
  {
    hide HasCodes, AllOk, InTime, BitsOn, SymbolChunks;
  }

  lemma OvertakenMade(n: nat, a: Snap, b: Snap, z: Codes, xs: seq<Coded>, k: nat)
    requires HasCodes(z, xs) && AllOk(xs) && k < |xs|
    requires HasCodes(z, xs[..k]) && AllOk(xs[..k]) && BitsOn(a, b, SymbolChunks(z, xs[..k])) && b.pending > n + 2 * k
    requires !InTime(n, a.used, z, xs, k) && forall j: nat :: j < k ==> InTime(n, a.used, z, xs, j)
    ensures Overtaken(n, a, b, z, xs, k)
  {
    hide HasCodes, AllOk, InTime, BitsOn, SymbolChunks;
  }

  lemma CostNext(d: seq<UInt16>, l: seq<Byte>, n: nat, z: Codes, last: nat)
    requires n < last && last <= |d| && last <= |l|
    requires HasCodes(z, FormsOf(Tokens(d, l, last))) && AllOk(FormsOf(Tokens(d, l, last)))
    ensures var xs, x := FormsOf(Tokens(d, l, last)), FormOf(DeflateText.TokenOf(d[n], l[n]));
            && HasCode(z, x) && FormOk(x) && xs[n] == x
            && CostTo(z, xs, n + 1) == CostTo(z, xs, n) + Total(TokenChunks(z, x))
  {
    hide CostTo, HasCode, FormOk, FormOf, TokenChunks, Total, DeflateText.TokenOf;
    CostStep(z, FormsOf(Tokens(d, l, last)), n);
  }

  lemma NoSymbols(d: seq<UInt16>, l: seq<Byte>, z: Codes, last: nat)
    requires last <= |d| && last <= |l|
    requires HasCodes(z, FormsOf(Tokens(d, l, last))) && AllOk(FormsOf(Tokens(d, l, last)))
    ensures HasCodes(z, FormsOf(Tokens(d, l, 0))) && AllOk(FormsOf(Tokens(d, l, 0)))
    ensures SymbolChunks(z, FormsOf(Tokens(d, l, 0))) == []
  {
  }

  lemma SoundToken(d: seq<UInt16>, l: seq<Byte>, n: nat, last: nat)
    requires n < last && last <= |d| && last <= |l| && AllSound(Tokens(d, l, last), 32768)
    ensures Sound(DeflateText.TokenOf(d[n], l[n]), 32768)
  {
    assert Sound(Tokens(d, l, last)[n], 32768);
  }

  lemma LiteralForm(z: Codes, c: Byte)
    ensures HasCode(z, FormOf(Literal(c))) ==> FormOk(FormOf(Literal(c))) && Coding(z.lens, c)
    ensures HasCode(z, FormOf(Literal(c))) ==> TokenChunks(z, FormOf(Literal(c))) == [CodeChunk(z.lens, c)]
  {
  }
}
