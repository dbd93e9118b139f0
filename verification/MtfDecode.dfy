/** Turning received symbols back into the column of last bytes. */
module MtfDecode {
  import opened MachineInts
  import opened SetSums
  import opened Counting
  import opened MtfTheory
  import opened MtfEncode
  import opened MtfTable
  import opened MappingTable
  import opened BitStream
  import opened BlockCodes
  import opened BwtDecode

  /* ---- bytes behind byte numbers ---- */

  ghost function Unmap(back: seq<Byte>, xs: seq<nat>): (r: seq<Byte>)
    ensures |r| == |xs|
  {
    seq(|xs|, i requires 0 <= i < |xs| => if xs[i] < |back| then back[xs[i]] else 0)
  }

  lemma UnmapAppend(back: seq<Byte>, xs: seq<nat>, ys: seq<nat>)
    ensures Unmap(back, xs + ys) == Unmap(back, xs) + Unmap(back, ys)
  {
  }

  lemma {:induction false} UnmapRenumbered(inUse: seq<bool>, back: seq<Byte>, last: seq<Byte>)
    requires AllUsed(inUse, last) && MapsBack(inUse, back)
    ensures Unmap(back, Renumbered(inUse, last)) == last
  {
  }

  /** What the symbols of a block decode to is the column they were made from. */
  lemma {:induction false} DecodesToColumn(inUse: seq<bool>, back: seq<Byte>, last: seq<Byte>)
    requires AllUsed(inUse, last) && MapsBack(inUse, back) && |last| > 0
    ensures 1 <= Rank(inUse, 256) <= 256 && AllIn(Renumbered(inUse, last), Ident(Rank(inUse, 256)))
    ensures Unmap(back,
                  Decode(Ident(256), Encode(Ident(Rank(inUse, 256)), 0, Renumbered(inUse, last), Rank(inUse, 256) + 1),
                         Rank(inUse, 256) + 1)) == last
  {
    UsedSize(inUse, last);
    hide *;
    SomeInUse(inUse, last);
    RenumberedIn(inUse, last);
    var n, ll := Rank(inUse, 256), Renumbered(inUse, last);
    IdentPrefix(n);
    DecodeEncode(Ident(n), Ident(256), 0, ll, n + 1);
    RepeatNone(Ident(n)[0], ll);
    UnmapRenumbered(inUse, back, last);
  }

  lemma {:induction false} UsedSize(inUse: seq<bool>, last: seq<Byte>)
    requires AllUsed(inUse, last)
    ensures |inUse| == 256
  {
  }

  lemma IdentPrefix(n: nat)
    requires n <= 256
    ensures |Ident(n)| == n && Ident(n) <= Ident(256)
  {
  }

  /* ---- decoding, symbol by symbol ---- */

  ghost predicate IsRun(s: nat) {
    s == RUNA || s == RUNB
  }

  lemma NoDigits()
    ensures RunValue([]) == 0
  {
  }

  /** Run digits at the front decode to copies of the first entry. */
  lemma DecodeRun(list: seq<nat>, syms: seq<nat>, eob: nat)
    requires |list| > 0
    ensures |LeadingRun(syms)| <= |syms|
    ensures Decode(list, syms, eob) ==
      Repeat(list[0], RunValue(LeadingRun(syms))) + Decode(list, syms[|LeadingRun(syms)|..], eob)
  {
    hide *;
    DecodeIs(list, syms, eob);
    var rest := syms[|LeadingRun(syms)|..];
    RunStops(syms);
    DecodeIs(list, rest, eob);
    NoDigits();
    assert rest[0..] == rest;
    RepeatNone(list[0], AfterRun(list, rest, eob));
  }

  lemma {:induction false} RunStops(syms: seq<nat>)
    ensures LeadingRun(syms[|LeadingRun(syms)|..]) == []
  {
    if syms != [] && IsRun(syms[0]) {
      RunStops(syms[1..]);
      assert syms[1..][|LeadingRun(syms[1..])|..] == syms[|LeadingRun(syms)|..];
    } else {
      assert syms[0..] == syms;
    }
  }

  lemma DecodeEob(list: seq<nat>, syms: seq<nat>, eob: nat)
    requires |list| > 0 && |syms| > 0 && syms[0] == eob && eob > 1
    ensures Decode(list, syms, eob) == []
  {
    assert LeadingRun(syms) == [];
  }

  lemma DecodeMove(list: seq<nat>, syms: seq<nat>, eob: nat)
    requires |list| == 256 && |syms| > 0 && 1 < syms[0] < eob <= 257
    ensures Decode(list, syms, eob) == [list[syms[0] - 1]] + Decode(ToFront(list, syms[0] - 1), syms[1..], eob)
  {
    assert LeadingRun(syms) == [];
    assert syms[0..] == syms;
    assert Repeat(list[0], 0) == [];
  }

  /** What is out, and what the symbols from k on still add to it. */
  ghost predicate Decoding(back: seq<Byte>, list: seq<nat>, syms: seq<nat>, k: nat, eob: nat, out: seq<Byte>,
                           goal: seq<Byte>)
  {
    && |list| == 256 && 1 < eob <= 257 && k < |syms| && EndMarked(syms, eob)
    && out + Unmap(back, Decode(list, syms[k..], eob)) == goal
  }

  lemma DecodingStart(back: seq<Byte>, list: seq<nat>, syms: seq<nat>, eob: nat)
    requires |list| == 256 && 1 < eob <= 257 && EndMarked(syms, eob)
    ensures Decoding(back, list, syms, 0, eob, [], Unmap(back, Decode(list, syms, eob)))
  {
    assert syms[0..] == syms;
  }

  lemma DecodingDone(back: seq<Byte>, list: seq<nat>, syms: seq<nat>, k: nat, eob: nat, out: seq<Byte>, goal: seq<Byte>)
    requires Decoding(back, list, syms, k, eob, out, goal) && syms[k] == eob
    ensures out == goal && k + 1 == |syms|
  {
    DecodeEob(list, syms[k..], eob);
    assert out + [] == out;
  }

  lemma DecodingMove(back: seq<Byte>, list: seq<nat>, syms: seq<nat>, k: nat, eob: nat, out: seq<Byte>,
                     goal: seq<Byte>, c: Byte)
    requires Decoding(back, list, syms, k, eob, out, goal) && 1 < syms[k] != eob
    requires syms[k] - 1 < 256 ==> list[syms[k] - 1] < |back| && c == back[list[syms[k] - 1]]
    ensures syms[k] - 1 < 256 && k + 1 < |syms|
    ensures Decoding(back, ToFront(list, syms[k] - 1), syms, k + 1, eob, out + [c], goal) && |out| < |goal|
  {
    assert syms[k..][1..] == syms[k + 1..];
    DecodeMove(list, syms[k..], eob);
    var x, rest := list[syms[k] - 1], Decode(ToFront(list, syms[k] - 1), syms[k + 1..], eob);
    UnmapAppend(back, [x], rest);
    assert Unmap(back, [x]) == [c];
    assert out + ([c] + Unmap(back, rest)) == out + [c] + Unmap(back, rest);
  }

  /** i digits of the run that starts at k have been read; they stand for total. */
  ghost predicate InRun(syms: seq<nat>, k: nat, i: nat, total: nat) {
    && k + i <= |syms| && i <= |LeadingRun(syms[k..])| && RunValue(syms[k..k + i]) == total
  }

  lemma {:induction false} RunAppend(d: seq<nat>, c: nat)
    ensures RunValue(d + [c]) == RunValue(d) + (c + 1) * Pow2(|d|)
  {
    if d == [] {
      assert ([c])[1..] == [];
      assert Pow2(0) == 1;
    } else {
      RunAppend(d[1..], c);
      assert (d + [c])[1..] == d[1..] + [c];
      assert Pow2(|d|) == 2 * Pow2(|d| - 1);
      Doubled(c + 1, Pow2(|d| - 1));
    }
  }

  lemma Doubled(a: int, p: int)
    ensures a * (2 * p) == 2 * (a * p)
  {
  }

  lemma {:induction false} RunAtLeast(d: seq<nat>)
    ensures RunValue(d) + 1 >= Pow2(|d|)
  {
    if d != [] { RunAtLeast(d[1..]); }
  }

  lemma RunMeans(s: seq<nat>, i: nat)
    requires i < |s| && i <= |LeadingRun(s)|
    ensures i < |LeadingRun(s)| <==> IsRun(s[i])
    ensures i == |LeadingRun(s)| ==> LeadingRun(s) == s[..i]
  {
    LeadingDigits(s, i);
  }

  lemma {:induction false} LeadingDigits(s: seq<nat>, i: nat)
    requires i < |s| && i <= |LeadingRun(s)|
    ensures i < |LeadingRun(s)| <==> IsRun(s[i])
  {
    if i > 0 { LeadingDigits(s[1..], i - 1); }
  }

  /** The run so far never outgrows what the block holds, so the weight of the next digit stays small. */
  lemma RunWeight(back: seq<Byte>, list: seq<nat>, syms: seq<nat>, k: nat, eob: nat, out: seq<Byte>, goal: seq<Byte>,
                  i: nat)
    requires Decoding(back, list, syms, k, eob, out, goal) && |goal| <= 900_000 && i < |LeadingRun(syms[k..])|
    ensures Pow2(i) < 0x20_0000
  {
    var d := LeadingRun(syms[k..]);
    DecodeRun(list, syms[k..], eob);
    RunAtLeast(d);
    if Pow2(i) >= 0x20_0000 { Pow2Grows(i, |d|); }
  }

  lemma RunStart(syms: seq<nat>, k: nat)
    requires k < |syms|
    ensures InRun(syms, k, 0, 0) && Pow2(0) == 1
  {
    assert syms[k..k] == [];
  }

  lemma RunStep(syms: seq<nat>, k: nat, i: nat, total: nat)
    requires InRun(syms, k, i, total) && k + i < |syms| && IsRun(syms[k + i])
    ensures syms[k + i] <= 1 && InRun(syms, k, i + 1, total + (if syms[k + i] == RUNA then 1 else 2) * Pow2(i))
    ensures Pow2(i + 1) == 2 * Pow2(i)
  {
    RunMeans(syms[k..], i);
    assert syms[k..k + i + 1] == syms[k..k + i] + [syms[k + i]];
    RunAppend(syms[k..k + i], syms[k + i]);
  }

  lemma RunDecodes(list: seq<nat>, syms: seq<nat>, k: nat, eob: nat, i: nat, total: nat)
    requires |list| > 0 && InRun(syms, k, i, total) && k + i < |syms| && !IsRun(syms[k + i])
    ensures Decode(list, syms[k..], eob) == Repeat(list[0], total) + Decode(list, syms[k + i..], eob)
  {
    hide Decode, RunValue;
    RunMeans(syms[k..], i);
    assert syms[k..][..i] == syms[k..k + i] && syms[k..][i..] == syms[k + i..];
    DecodeRun(list, syms[k..], eob);
  }

  lemma UnmapRepeat(back: seq<Byte>, x: nat, n: nat, c: Byte)
    requires x < |back| && c == back[x]
    ensures Unmap(back, Repeat(x, n)) == seq(n, _ => c)
  {
  }

  lemma DecodingIs(back: seq<Byte>, list: seq<nat>, syms: seq<nat>, k: nat, eob: nat, out: seq<Byte>, goal: seq<Byte>)
    requires |list| == 256 && 1 < eob <= 257 && k < |syms| && EndMarked(syms, eob)
    ensures Decoding(back, list, syms, k, eob, out, goal) <==> out + Unmap(back, Decode(list, syms[k..], eob)) == goal
  {
  }

  lemma DecodingParts(back: seq<Byte>, list: seq<nat>, syms: seq<nat>, k: nat, eob: nat, out: seq<Byte>,
                      goal: seq<Byte>)
    requires Decoding(back, list, syms, k, eob, out, goal)
    ensures |list| == 256 && 1 < eob <= 257 && k < |syms| && EndMarked(syms, eob)
  {
  }

  lemma DecodingRun(back: seq<Byte>, list: seq<nat>, syms: seq<nat>, k: nat, eob: nat, out: seq<Byte>, goal: seq<Byte>,
                    i: nat, total: nat, c: Byte)
    requires Decoding(back, list, syms, k, eob, out, goal) && InRun(syms, k, i, total) && k + i < |syms|
    requires !IsRun(syms[k + i])
    requires |list| > 0 && list[0] < |back| && c == back[list[0]]
    ensures Decoding(back, list, syms, k + i, eob, out + seq(total, _ => c), goal) && |out| + total <= |goal|
  {
    hide *;
    DecodingParts(back, list, syms, k, eob, out, goal);
    DecodingIs(back, list, syms, k, eob, out, goal);
    DecodingIs(back, list, syms, k + i, eob, out + seq(total, _ => c), goal);
    RunDecodes(list, syms, k, eob, i, total);
    var rest := Decode(list, syms[k + i..], eob);
    UnmapAppend(back, Repeat(list[0], total), rest);
    UnmapRepeat(back, list[0], total, c);
    assert out + (seq(total, _ => c) + Unmap(back, rest)) == out + seq(total, _ => c) + Unmap(back, rest);
  }

  lemma RunInside(syms: seq<nat>, k: nat, i: nat, total: nat, eob: nat)
    requires InRun(syms, k, i, total) && EndMarked(syms, eob) && eob > 1 && k < |syms|
    ensures k + i < |syms|
  {
    LeadingAll(syms[k..]);
  }

  lemma {:induction false} LeadingAll(s: seq<nat>)
    ensures forall j :: 0 <= j < |LeadingRun(s)| ==> IsRun(s[j])
  {
    if s != [] { LeadingAll(s[1..]); }
  }

  /** Symbol k has been read, and decoding stands before it. */
  ghost predicate Awaited(back: seq<Byte>, list: seq<nat>, syms: seq<nat>, k: nat, eob: nat, out: seq<Byte>,
                          goal: seq<Byte>, nextSym: nat)
  {
    Decoding(back, list, syms, k, eob, out, goal) && |goal| <= 900_000 && nextSym == syms[k]
  }

  lemma AwaitedParts(back: seq<Byte>, list: seq<nat>, syms: seq<nat>, k: nat, eob: nat, out: seq<Byte>,
                     goal: seq<Byte>, nextSym: nat)
    requires Awaited(back, list, syms, k, eob, out, goal, nextSym)
    ensures |list| == 256 && 1 < eob <= 257 && k < |syms| && EndMarked(syms, eob) && nextSym == syms[k]
    ensures Decoding(back, list, syms, k, eob, out, goal) && |goal| <= 900_000
  {
  }

  lemma RunSymbolsAre(s: nat)
    ensures IsRun(s) <==> s == RUNA || s == RUNB
    ensures RUNA == 0 && RUNB == 1
  {
  }

  /** Reads the digits of a run, from nextSym on; es is the length of the run and next the symbol after it. */
  method ReadRun(src: SymbolSource, nextSym: nat, alphaSize: nat, ghost back: seq<Byte>, ghost list: seq<nat>,
                 ghost syms: seq<nat>, ghost k: nat, ghost eob: nat, ghost out: seq<Byte>, ghost goal: seq<Byte>,
                 ghost tail: seq<bool>)
    returns (o: Outcome<nat>, es: nat, ghost i: nat)
    requires src.Valid() && (forall t :: 0 <= t < |src.lens| ==> |src.lens[t]| <= alphaSize) && IsRun(nextSym)
    modifies src, src.r
    ensures src.Valid() && |src.r.Rest()| <= old(|src.r.Rest()|)
    ensures o.Value? ==> o.v < alphaSize && |src.r.Rest()| < |old(src.r.Rest())|
    ensures Awaited(back, list, syms, k, eob, out, goal, nextSym) && old(src.At(syms, alphaSize, k + 1, tail)) ==>
      o.Value? && InRun(syms, k, i, es) && k + i < |syms| && !IsRun(syms[k + i]) && o.v == syms[k + i]
    ensures Awaited(back, list, syms, k, eob, out, goal, nextSym) && old(src.At(syms, alphaSize, k + 1, tail)) ==>
      src.At(syms, alphaSize, k + i + 1, tail)
  {
    hide *;
    ghost var good := Awaited(back, list, syms, k, eob, out, goal, nextSym) && src.At(syms, alphaSize, k + 1, tail);
    var e, N := -1, 1;
    var next := nextSym;
    i := 0;
    es := 0;
    if good {
      AwaitedParts(back, list, syms, k, eob, out, goal, nextSym);
      RunStart(syms, k);
    }
    ghost var start := |src.r.Rest()|;
    while true
      invariant src.Valid() && |src.r.Rest()| <= old(|src.r.Rest()|) && IsRun(next) && e >= -1 && N >= 1
      invariant (i > 0 ==> |src.r.Rest()| < start) && |src.r.Rest()| <= start
      invariant good ==> InRun(syms, k, i, e + 1) && k + i < |syms| && next == syms[k + i] && N == Pow2(i)
      invariant good ==> src.At(syms, alphaSize, k + i + 1, tail)
      decreases |src.r.Rest()|
    {
      if good {
        RunHere(syms, k, i, e + 1);
        RunWeight(back, list, syms, k, eob, out, goal, i);
        RunStep(syms, k, i, e + 1);
        RunInside(syms, k, i + 1, e + 1 + (if next == RUNA then 1 else 2) * Pow2(i), eob);
      }
      RunSymbolsAre(next);
      if N >= 2 * 1024 * 1024 { return DataError, 0, i; }
      if next == RUNA { e := e + (0 + 1) * N; } else if next == RUNB { e := e + (1 + 1) * N; }
      N := N * 2;
      var s := src.GetMtfVal(syms, alphaSize, k + i + 1, tail);
      if !s.Value? { return if s.NeedInput? then NeedInput else DataError, 0, i; }
      next := s.v;
      i := i + 1;
      RunSymbolsAre(next);
      if !(next == RUNA || next == RUNB) { break; }
    }
    e := e + 1;
    o, es := Value(next), e;
  }

  lemma RunHere(syms: seq<nat>, k: nat, i: nat, total: nat)
    requires InRun(syms, k, i, total) && k + i < |syms| && IsRun(syms[k + i])
    ensures i < |LeadingRun(syms[k..])|
  {
    RunMeans(syms[k..], i);
  }

  /* ---- the bytes of the column, in whichever array this run uses ---- */

  /** The first n bytes stored: in ll16 when memory is to be saved, in tt otherwise. */
  ghost function Stored(small: bool, tt: seq<UInt32>, ll16: seq<UInt16>, n: nat): (r: seq<nat>)
    requires if small then n <= |ll16| else n <= |tt|
    ensures |r| == n
  {
    if small then ll16[..n] else tt[..n]
  }

  lemma StoredIs(small: bool, tt: seq<UInt32>, ll16: seq<UInt16>, n: nat)
    requires if small then n <= |ll16| else n <= |tt|
    ensures |Stored(small, tt, ll16, n)| == n && Stored(small, tt, ll16, 0) == []
    ensures small ==> Stored(small, tt, ll16, n) == ll16[..n]
    ensures !small ==> Stored(small, tt, ll16, n) == tt[..n]
  {
  }

  method Store(small: bool, tt: array<UInt32>, ll16: array<UInt16>, nblock: nat, uc: Byte)
    requires if small then nblock < ll16.Length else nblock < tt.Length
    modifies tt, ll16
    ensures Stored(small, tt[..], ll16[..], nblock + 1) == old(Stored(small, tt[..], ll16[..], nblock)) + [uc]
  {
    if small { ll16[nblock] := uc; } else { tt[nblock] := uc; }
  }

  /** Stores es copies of a byte, as far as the block may go. */
  method StoreRun(small: bool, tt: array<UInt32>, ll16: array<UInt16>, nblock0: nat, uc: Byte, es0: nat, nblockMAX: nat)
    returns (ok: bool, nblock: nat)
    requires nblock0 <= nblockMAX && (if small then nblockMAX <= ll16.Length else nblockMAX <= tt.Length)
    modifies tt, ll16
    ensures ok <==> nblock0 + es0 <= nblockMAX
    ensures ok ==> nblock == nblock0 + es0
    ensures ok ==>
      Stored(small, tt[..], ll16[..], nblock0 + es0) ==
        old(Stored(small, tt[..], ll16[..], nblock0)) + seq(es0, _ => uc)
  {
    hide *;
    ghost var s := Stored(small, tt[..], ll16[..], nblock0);
    var es: nat := es0;
    nblock := nblock0;
    assert s + seq(0, _ => uc) == s;
    while es > 0
      invariant nblock <= nblockMAX && nblock + es == nblock0 + es0 && es <= es0
      invariant Stored(small, tt[..], ll16[..], nblock) == s + seq(es0 - es, _ => uc)
    {
      if nblock >= nblockMAX { return false, nblock; }
      assert s + seq(es0 - es, _ => uc) + [uc] == s + seq(es0 - es + 1, _ => uc);
      Store(small, tt, ll16, nblock, uc);
      nblock := nblock + 1;
      es := es - 1;
    }
    ok := true;
  }

  /* ---- byte counts ---- */

  lemma {:induction false} CountRun(out: seq<Byte>, c: Byte, n: nat, d: int)
    ensures Count(out + seq(n, _ => c), d) == Count(out, d) + if c == d then n else 0
  {
    if n == 0 {
      assert out + seq(0, _ => c) == out;
    } else {
      var s := out + seq(n, _ => c);
      assert s[..|s| - 1] == out + seq(n - 1, _ => c);
      CountRun(out, c, n - 1, d);
    }
  }

  lemma CountsMore(u: seq<int>, out: seq<Byte>, c: Byte, n: nat)
    requires AreCounts(out, u)
    ensures |u| == 256 && AreCounts(out + seq(n, _ => c), u[c := u[c] + n])
  {
    var u', out' := u[c := u[c] + n], out + seq(n, _ => c);
    forall d | 0 <= d < 256 ensures u'[d] == Count(out', d) { CountRun(out, c, n, d); }
  }

  lemma CountsNone(u: seq<int>)
    requires |u| == 256 && forall c :: 0 <= c < 256 ==> u[c] == 0
    ensures AreCounts([], u)
  {
  }

  method ClearCounts(unzftab: array<int>)
    requires unzftab.Length == 256
    modifies unzftab
    ensures AreCounts([], unzftab[..])
  {
    for i := 0 to 256
      invariant forall c :: 0 <= c < i ==> unzftab[c] == 0
    {
      unzftab[i] := 0;
    }
    CountsNone(unzftab[..]);
  }

  /* ---- the symbol loop ---- */

  /** The bytes so far, stored and counted. */
  ghost predicate Collected(small: bool, tt: seq<UInt32>, ll16: seq<UInt16>, u: seq<int>, n: nat, limit: nat,
                            out: seq<Byte>)
  {
    && (if small then limit <= |ll16| else limit <= |tt|) && n <= limit
    && Stored(small, tt, ll16, n) == out && AreCounts(out, u)
  }

  lemma CollectedParts(small: bool, tt: seq<UInt32>, ll16: seq<UInt16>, u: seq<int>, n: nat, limit: nat, out: seq<Byte>)
    ensures Collected(small, tt, ll16, u, n, limit, out) <==>
      && (if small then limit <= |ll16| else limit <= |tt|) && n <= limit
      && Stored(small, tt, ll16, n) == out && AreCounts(out, u)
    ensures Collected(small, tt, ll16, u, n, limit, out) ==> |out| == n && |u| == 256
  {
  }

  /** Adds es copies of a byte to the column and its counts. */
  method Collect(small: bool, tt: array<UInt32>, ll16: array<UInt16>, unzftab: array<int>, nblock0: nat, uc: Byte,
                 es: nat,
                 nblockMAX: nat, ghost out: seq<Byte>)
    returns (ok: bool, nblock: nat)
    requires Collected(small, tt[..], ll16[..], unzftab[..], nblock0, nblockMAX, out)
    modifies tt, ll16, unzftab
    ensures ok <==> |out| + es <= nblockMAX
    ensures ok ==> Collected(small, tt[..], ll16[..], unzftab[..], nblock, nblockMAX, out + seq(es, _ => uc))
  {
    hide *;
    CollectedParts(small, tt[..], ll16[..], unzftab[..], nblock0, nblockMAX, out);
    CountsMore(unzftab[..], out, uc, es);
    ghost var u := unzftab[..];
    unzftab[uc] := unzftab[uc] + es;
    assert unzftab[..] == u[uc := u[uc] + es];
    ok, nblock := StoreRun(small, tt, ll16, nblock0, uc, es, nblockMAX);
    if ok { CollectedParts(small, tt[..], ll16[..], unzftab[..], nblock, nblockMAX, out + seq(es, _ => uc)); }
  }

  lemma OneCopy(uc: Byte)
    ensures seq(1, _ => uc) == [uc]
  {
  }

  /** Where the decoder stands when symbol k has just been read, if the stream is as expected. */
  ghost predicate Standing(src: SymbolSource, back: seq<Byte>, list: seq<nat>, syms: seq<nat>, k: nat, alphaSize: nat,
                           out: seq<Byte>, goal: seq<Byte>, nextSym: nat, tail: seq<bool>)
    reads src, src.r
  {
    alphaSize >= 3 && Awaited(back, list, syms, k, alphaSize - 1, out, goal, nextSym) && src.At(syms, alphaSize, k + 1,
          tail)
  }

  /** What the symbols decode to, if the stream holds them. */
  ghost predicate Announced(back: seq<Byte>, syms: seq<nat>, alphaSize: nat, goal: seq<Byte>) {
    && 3 <= alphaSize <= 258 && EndMarked(syms, alphaSize - 1) && |goal| <= 900_000
    && goal == Unmap(back, Decode(Ident(256), syms, alphaSize - 1))
  }

  lemma AnnouncedParts(back: seq<Byte>, syms: seq<nat>, alphaSize: nat, goal: seq<Byte>)
    requires Announced(back, syms, alphaSize, goal)
    ensures 3 <= alphaSize <= 258 && 0 < |syms| && |goal| <= 900_000
    ensures Decoding(back, Ident(256), syms, 0, alphaSize - 1, [], goal)
  {
    DecodingStart(back, Ident(256), syms, alphaSize - 1);
  }

  lemma EntryBelow(mtf: MtfList, n: nat)
    requires mtf.Valid() && n < 256
    ensures |mtf.Entries()| == 256 && mtf.Entries()[n] < 256
  {
    hide *;
    EntriesAre(mtf);
  }

  lemma EntriesAre(mtf: MtfList)
    requires mtf.Valid()
    ensures |mtf.Entries()| == 256 && forall k :: 0 <= k < 256 ==> mtf.Entries()[k] < 256
  {
    ApartBounds(mtf.mtfbase[..], 0);
  }

  lemma {:induction false} StandingNow(src: SymbolSource, back: seq<Byte>, list: seq<nat>, syms: seq<nat>, k: nat,
                                       alphaSize: nat,
                    out: seq<Byte>, goal: seq<Byte>, nextSym: nat, tail: seq<bool>)
    requires alphaSize >= 3 && Decoding(back, list, syms, k, alphaSize - 1, out, goal) && |goal| <= 900_000
    requires nextSym == syms[k]
    requires src.At(syms, alphaSize, k + 1, tail)
    ensures Standing(src, back, list, syms, k, alphaSize, out, goal, nextSym, tail)
  {
  }

  lemma {:induction false} StandingGives(src: SymbolSource, back: seq<Byte>, list: seq<nat>, syms: seq<nat>, k: nat,
                                         alphaSize: nat,
                      out: seq<Byte>, goal: seq<Byte>, nextSym: nat, tail: seq<bool>)
    requires Standing(src, back, list, syms, k, alphaSize, out, goal, nextSym, tail)
    ensures |list| == 256 && k < |syms| && EndMarked(syms, alphaSize - 1) && nextSym == syms[k] && |goal| <= 900_000
    ensures Decoding(back, list, syms, k, alphaSize - 1, out, goal) && src.At(syms, alphaSize, k + 1, tail)
    ensures Awaited(back, list, syms, k, alphaSize - 1, out, goal, nextSym)
  {
  }

  /** A run of the byte at the front of the list. */
  method ColumnRun(src: SymbolSource, mtf: MtfList, small: bool, tt: array<UInt32>, ll16: array<UInt16>,
                   unzftab: array<int>,
                   seqToUnseq: array<Byte>, alphaSize: nat, nextSym: nat, nblock: nat, nblockMAX: nat,
                   ghost syms: seq<nat>, ghost k: nat, ghost out: seq<Byte>, ghost goal: seq<Byte>,
                   ghost tail: seq<bool>)
    returns (o: Outcome<nat>, n: nat, ghost k': nat, ghost out': seq<Byte>)
    requires src.Valid() && (forall t :: 0 <= t < |src.lens| ==> |src.lens[t]| <= alphaSize) && 3 <= alphaSize <= 258
    requires mtf.Valid() && seqToUnseq != mtf.mtfa && seqToUnseq.Length == 256 && IsRun(nextSym)
    requires Collected(small, tt[..], ll16[..], unzftab[..], nblock, nblockMAX, out)
    modifies src, src.r, tt, ll16, unzftab
    ensures src.Valid() && |src.r.Rest()| <= old(|src.r.Rest()|)
    ensures o.Value? ==> o.v < alphaSize && |src.r.Rest()| < |old(src.r.Rest())|
    ensures o.Value? ==> Collected(small, tt[..], ll16[..], unzftab[..], n, nblockMAX, out')
    ensures old(Standing(src, seqToUnseq[..], mtf.Entries(), syms, k, alphaSize, out, goal, nextSym, tail)) &&
            |goal| <= nblockMAX ==>
      o.Value? && Standing(src, seqToUnseq[..], mtf.Entries(), syms, k', alphaSize, out', goal, o.v, tail)
  {
    hide *;
    ghost var back, list := seqToUnseq[..], mtf.Entries();
    ghost var good := Standing(src, back, list, syms, k, alphaSize, out, goal, nextSym, tail) && |goal| <= nblockMAX;
    k', out' := k, out;
    n := nblock;
    CollectedParts(small, tt[..], ll16[..], unzftab[..], nblock, nblockMAX, out);
    if good { StandingGives(src, back, list, syms, k, alphaSize, out, goal, nextSym, tail); }
    var next, es;
    ghost var i;
    next, es, i := ReadRun(src, nextSym, alphaSize, back, list, syms, k, alphaSize - 1, out, goal, tail);
    if !next.Value? { return next, n, k, out; }
    EntryBelow(mtf, 0);
    var front := mtf.Front();
    var uc := seqToUnseq[front];
    if good { DecodingRun(back, list, syms, k, alphaSize - 1, out, goal, i, es, uc); }
    var ok;
    ok, n := Collect(small, tt, ll16, unzftab, nblock, uc, es, nblockMAX, out);
    if !ok { return DataError, n, k, out; }
    o, k', out' := next, k + i, out + seq(es, _ => uc);
    if good { StandingNow(src, back, list, syms, k', alphaSize, out', goal, next.v, tail); }
  }

  /** One byte from further back in the list. */
  method ColumnMove(src: SymbolSource, mtf: MtfList, small: bool, tt: array<UInt32>, ll16: array<UInt16>,
                    unzftab: array<int>,
                    seqToUnseq: array<Byte>, alphaSize: nat, nextSym: nat, nblock: nat, nblockMAX: nat,
                    ghost syms: seq<nat>, ghost k: nat, ghost out: seq<Byte>, ghost goal: seq<Byte>,
                    ghost tail: seq<bool>)
    returns (o: Outcome<nat>, n: nat, ghost out': seq<Byte>)
    requires src.Valid() && (forall t :: 0 <= t < |src.lens| ==> |src.lens[t]| <= alphaSize) && 3 <= alphaSize <= 258
    requires mtf.Valid() && seqToUnseq != mtf.mtfa && seqToUnseq.Length == 256 && !IsRun(nextSym)
    requires nextSym < alphaSize - 1
    requires Collected(small, tt[..], ll16[..], unzftab[..], nblock, nblockMAX, out)
    modifies src, src.r, mtf.mtfa, mtf.mtfbase, tt, ll16, unzftab
    ensures src.Valid() && |src.r.Rest()| <= old(|src.r.Rest()|) && mtf.Valid()
    ensures o.Value? ==> o.v < alphaSize && |src.r.Rest()| < |old(src.r.Rest())|
    ensures o.Value? ==> Collected(small, tt[..], ll16[..], unzftab[..], n, nblockMAX, out')
    ensures old(Standing(src, seqToUnseq[..], mtf.Entries(), syms, k, alphaSize, out, goal, nextSym, tail)) &&
            |goal| <= nblockMAX ==>
      o.Value? && Standing(src, seqToUnseq[..], mtf.Entries(), syms, k + 1, alphaSize, out', goal, o.v, tail)
  {
    hide *;
    ghost var back, list := seqToUnseq[..], mtf.Entries();
    ghost var good := Standing(src, back, list, syms, k, alphaSize, out, goal, nextSym, tail) && |goal| <= nblockMAX;
    out' := out;
    n := nblock;
    CollectedParts(small, tt[..], ll16[..], unzftab[..], nblock, nblockMAX, out);
    if good { StandingGives(src, back, list, syms, k, alphaSize, out, goal, nextSym, tail); }
    RunSymbolsAre(nextSym);
    EntryBelow(mtf, nextSym - 1);
    if nblock >= nblockMAX {
      if good { DecodingMove(back, list, syms, k, alphaSize - 1, out, goal, seqToUnseq[list[nextSym - 1]]); }
      return DataError, n, out;
    }
    var e := mtf.Take(nextSym - 1);
    var uc := seqToUnseq[e];
    if good { DecodingMove(back, list, syms, k, alphaSize - 1, out, goal, uc); }
    OneCopy(uc);
    var ok;
    ok, n := Collect(small, tt, ll16, unzftab, nblock, uc, 1, nblockMAX, out);
    out' := out + [uc];
    o := src.GetMtfVal(syms, alphaSize, k + 1, tail);
    if good { StandingNow(src, back, mtf.Entries(), syms, k + 1, alphaSize, out', goal, o.v, tail); }
  }

  /** What one symbol, or one run of them, adds to the column. */
  method ColumnStep(src: SymbolSource, mtf: MtfList, small: bool, tt: array<UInt32>, ll16: array<UInt16>,
                    unzftab: array<int>,
                    seqToUnseq: array<Byte>, alphaSize: nat, nextSym: nat, nblock: nat, nblockMAX: nat,
                    ghost syms: seq<nat>, ghost k: nat, ghost out: seq<Byte>, ghost goal: seq<Byte>,
                    ghost tail: seq<bool>)
    returns (o: Outcome<nat>, n: nat, ghost k': nat, ghost out': seq<Byte>)
    requires src.Valid() && (forall t :: 0 <= t < |src.lens| ==> |src.lens[t]| <= alphaSize) && 3 <= alphaSize <= 258
    requires mtf.Valid() && seqToUnseq != mtf.mtfa && seqToUnseq.Length == 256 && nextSym < alphaSize - 1
    requires Collected(small, tt[..], ll16[..], unzftab[..], nblock, nblockMAX, out)
    modifies src, src.r, mtf.mtfa, mtf.mtfbase, tt, ll16, unzftab
    ensures src.Valid() && |src.r.Rest()| <= old(|src.r.Rest()|) && mtf.Valid()
    ensures o.Value? ==> o.v < alphaSize && |src.r.Rest()| < |old(src.r.Rest())|
    ensures o.Value? ==> Collected(small, tt[..], ll16[..], unzftab[..], n, nblockMAX, out')
    ensures old(Standing(src, seqToUnseq[..], mtf.Entries(), syms, k, alphaSize, out, goal, nextSym, tail)) &&
            |goal| <= nblockMAX ==>
      o.Value? && Standing(src, seqToUnseq[..], mtf.Entries(), syms, k', alphaSize, out', goal, o.v, tail)
  {
    hide *;
    RunSymbolsAre(nextSym);
    if nextSym == RUNA || nextSym == RUNB {
      o, n, k', out' :=
        ColumnRun(src, mtf, small, tt, ll16, unzftab, seqToUnseq, alphaSize, nextSym, nblock, nblockMAX, syms, k, out,
                  goal, tail);
    } else {
      k' := k + 1;
      o, n, out' :=
        ColumnMove(src, mtf, small, tt, ll16, unzftab, seqToUnseq, alphaSize, nextSym, nblock, nblockMAX, syms, k, out,
                   goal, tail);
    }
  }

  /** Reads the symbols of a block up to the end mark; stores and counts the bytes they stand for. */
  method ReadColumn(src: SymbolSource, small: bool, tt: array<UInt32>, ll16: array<UInt16>, unzftab: array<int>,
                    seqToUnseq: array<Byte>, alphaSize: nat, nblockMAX: nat,
                    ghost syms: seq<nat>, ghost goal: seq<Byte>, ghost tail: seq<bool>)
    returns (o: Outcome<nat>, ghost out: seq<Byte>)
    requires src.Valid() && (forall t :: 0 <= t < |src.lens| ==> |src.lens[t]| <= alphaSize) && 3 <= alphaSize <= 258
    requires unzftab.Length == 256 && seqToUnseq.Length == 256
    requires if small then nblockMAX <= ll16.Length else nblockMAX <= tt.Length
    modifies src, src.r, tt, ll16, unzftab
    ensures src.Valid() && |src.r.Rest()| <= old(|src.r.Rest()|)
    ensures o.Value? ==> Collected(small, tt[..], ll16[..], unzftab[..], o.v, nblockMAX, out)
    ensures old(src.At(syms, alphaSize, 0, tail)) && Announced(seqToUnseq[..], syms, alphaSize, goal) &&
            |goal| <= nblockMAX ==>
      o == Value(|goal|) && src.r.Rest() == tail && out == goal
  {
    hide *;
    ghost var good := src.At(syms, alphaSize, 0, tail) &&
      Announced(seqToUnseq[..], syms, alphaSize, goal) && |goal| <= nblockMAX;
    ghost var back := seqToUnseq[..];
    if good { AnnouncedParts(back, syms, alphaSize, goal); }
    var eob := alphaSize - 1;
    ClearCounts(unzftab);
    var mtf := new MtfList();
    var nblock: nat := 0;
    out := [];
    ghost var k := 0;
    StoredIs(small, tt[..], ll16[..], 0);
    CollectedParts(small, tt[..], ll16[..], unzftab[..], nblock, nblockMAX, out);
    var s := src.GetMtfVal(syms, alphaSize, k, tail);
    if !s.Value? { return s, out; }
    var nextSym: nat := s.v;
    if good { StandingNow(src, back, mtf.Entries(), syms, k, alphaSize, out, goal, nextSym, tail); }
    while nextSym != eob
      invariant src.Valid() && |src.r.Rest()| <= old(|src.r.Rest()|) && mtf.Valid() && nextSym < alphaSize
      invariant fresh(mtf.mtfa) && fresh(mtf.mtfbase)
      invariant Collected(small, tt[..], ll16[..], unzftab[..], nblock, nblockMAX, out) && seqToUnseq[..] == back
      invariant good ==> Standing(src, back, mtf.Entries(), syms, k, alphaSize, out, goal, nextSym, tail)
      decreases |src.r.Rest()|
    {
      var next;
      next, nblock, k, out :=
        ColumnStep(src, mtf, small, tt, ll16, unzftab, seqToUnseq, alphaSize, nextSym, nblock, nblockMAX, syms, k, out,
                   goal, tail);
      if !next.Value? { return next, out; }
      nextSym := next.v;
    }
    if good {
      StandingGives(src, back, mtf.Entries(), syms, k, alphaSize, out, goal, nextSym, tail);
      DecodingDone(back, mtf.Entries(), syms, k, eob, out, goal);
      AllRead(src, syms, alphaSize, tail);
    }
    CollectedParts(small, tt[..], ll16[..], unzftab[..], nblock, nblockMAX, out);
    o := Value(nblock);
  }

  lemma {:induction false} AllRead(src: SymbolSource, syms: seq<nat>, alphaSize: nat, tail: seq<bool>)
    requires src.At(syms, alphaSize, |syms|, tail)
    ensures src.r.Rest() == tail
  {
    assert [] + tail == tail;
  }
}
