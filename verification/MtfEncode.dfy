/** Producing the move-to-front symbols of a block over the array that still holds its sorted order. */
module MtfEncode {
  import opened MachineInts
  import opened Counting
  import opened Words
  import opened Bwt
  import opened MtfTheory

  /* ---- which bytes occur ---- */

  /** How many of the bytes below c are in use. */
  ghost function Rank(inUse: seq<bool>, c: nat): (r: nat)
    requires c <= |inUse|
    ensures r <= c
  {
    if c == 0 then 0 else Rank(inUse, c - 1) + if inUse[c - 1] then 1 else 0
  }

  lemma {:induction false} RankGrows(inUse: seq<bool>, c: nat, d: nat)
    requires c < d <= |inUse| && inUse[c]
    ensures Rank(inUse, c) < Rank(inUse, d)
    decreases d
  {
    if c < d - 1 { RankGrows(inUse, c, d - 1); }
  }

  ghost predicate MapsTo(inUse: seq<bool>, unseqToSeq: seq<Byte>) {
    && |inUse| == |unseqToSeq| == 256
    && forall c :: 0 <= c < 256 && inUse[c] ==> unseqToSeq[c] == Rank(inUse, c)
  }

  method MakeMaps(inUse: array<bool>, unseqToSeq: array<Byte>) returns (nInUse: nat)
    requires inUse.Length == 256 && unseqToSeq.Length == 256
    modifies unseqToSeq
    ensures MapsTo(inUse[..], unseqToSeq[..]) && nInUse == Rank(inUse[..], 256)
  {
    ghost var u := inUse[..];
    nInUse := 0;
    for i := 0 to 256
      invariant nInUse == Rank(u, i)
      invariant forall c :: 0 <= c < i && u[c] ==> unseqToSeq[c] == Rank(u, c)
    {
      if inUse[i] {
        unseqToSeq[i] := nInUse;
        nInUse := nInUse + 1;
      }
    }
  }

  /** The last column, with bytes renumbered by rank among those in use. */
  ghost function Renumbered(inUse: seq<bool>, last: seq<Byte>): (r: seq<nat>)
    requires |inUse| == 256
    ensures |r| == |last| && forall i :: 0 <= i < |last| ==> r[i] == Rank(inUse, last[i])
  {
    seq(|last|, i requires 0 <= i < |last| => Rank(inUse, last[i]))
  }

  ghost predicate AllUsed(inUse: seq<bool>, last: seq<Byte>) {
    |inUse| == 256 && forall i :: 0 <= i < |last| ==> inUse[last[i]]
  }

  lemma {:induction false} RenumberedIn(inUse: seq<bool>, last: seq<Byte>)
    requires AllUsed(inUse, last)
    ensures AllIn(Renumbered(inUse, last), Ident(Rank(inUse, 256)))
  {
    var l := Ident(Rank(inUse, 256));
    forall k | 0 <= k < |last| ensures Renumbered(inUse, last)[k] in l {
      RankGrows(inUse, last[k], 256);
      assert l[Rank(inUse, last[k])] == Rank(inUse, last[k]);
    }
  }

  /* ---- emitting symbols ---- */

  ghost predicate Tallied(freq: seq<nat>, out: seq<nat>, top: nat) {
    top < |freq| && forall v :: 0 <= v <= top ==> freq[v] == Count(out, v)
  }

  lemma TallyOne(freq: seq<nat>, out: seq<nat>, top: nat, x: nat)
    requires Tallied(freq, out, top) && x <= top
    ensures Tallied(freq[x := freq[x] + 1], out + [x], top)
  {
    forall v | 0 <= v <= top ensures freq[x := freq[x] + 1][v] == Count(out + [x], v) { CountPush(out, x, v); }
  }

  /** The symbols written so far, and the sorted order still unread from entry i on. */
  ghost predicate Emitted(arr: seq<UInt32>, ptr: seq<nat>, out: seq<nat>, wr: nat, i: nat) {
    && wr <= 2 * |arr| && HalfView(arr, wr) == out && i <= |ptr| <= |arr|
    && forall k :: i <= k < |ptr| ==> arr[k] == ptr[k]
  }

  method PutSymbol(arr1: array<UInt32>, mtfFreq: array<nat>, wr: nat, sym: UInt16,
                   ghost ptr: seq<nat>, ghost out: seq<nat>, ghost i: nat, ghost top: nat)
    requires wr / 2 < arr1.Length && wr / 2 < i && Emitted(arr1[..], ptr, out, wr, i)
    requires Tallied(mtfFreq[..], out, top) && sym <= top
    modifies arr1, mtfFreq
    ensures Emitted(arr1[..], ptr, out + [sym], wr + 1, i)
    ensures Tallied(mtfFreq[..], out + [sym], top)
  {
    ghost var freq := mtfFreq[..];
    TallyOne(freq, out, top, sym);
    PutHalf(arr1, wr, sym);
    mtfFreq[sym] := mtfFreq[sym] + 1;
    assert mtfFreq[..] == freq[sym := freq[sym] + 1];
  }

  /** Writes a pending run of zeros. */
  method PutRun(arr1: array<UInt32>, mtfFreq: array<nat>, wr0: nat, zPend0: nat,
                ghost ptr: seq<nat>, ghost out0: seq<nat>, ghost i: nat, ghost top: nat)
    returns (wr: nat, ghost out: seq<nat>)
    requires zPend0 > 0 && wr0 + zPend0 <= i && i <= |ptr| && Emitted(arr1[..], ptr, out0, wr0, i)
    requires Tallied(mtfFreq[..], out0, top) && RUNB <= top
    modifies arr1, mtfFreq
    ensures out == out0 + RunDigits(zPend0) && wr == wr0 + |RunDigits(zPend0)|
    ensures Emitted(arr1[..], ptr, out, wr, i) && Tallied(mtfFreq[..], out, top)
  {
    hide *;
    RunSymbols();
    wr, out := wr0, out0;
    var zPend := zPend0 - 1;
    EmittedSize(arr1[..], ptr, out, wr, i);
    while true
      invariant wr + zPend + 1 <= i <= arr1.Length && zPend >= 0
      invariant out + RunDigits(zPend + 1) == out0 + RunDigits(zPend0) && |out| == wr && |out0| == wr0
      invariant Emitted(arr1[..], ptr, out, wr, i) && Tallied(mtfFreq[..], out, top)
      decreases zPend
    {
      RunNext(zPend + 1);
      var sym := if zPend % 2 == 1 then RUNB else RUNA;
      PutSymbol(arr1, mtfFreq, wr, sym, ptr, out, i, top);
      assert out + ([sym] + RunDigits(zPend / 2)) == (out + [sym]) + RunDigits(zPend / 2);
      wr, out := wr + 1, out + [sym];
      if zPend < 2 { break; }
      zPend := (zPend - 2) / 2;
    }
    assert out + [] == out;
  }

  lemma RunSymbols()
    ensures RUNA == 0 && RUNB == 1
  {
  }

  lemma EmittedSize(arr: seq<UInt32>, ptr: seq<nat>, out: seq<nat>, wr: nat, i: nat)
    requires Emitted(arr, ptr, out, wr, i)
    ensures |out| == wr && i <= |ptr| <= |arr|
  {
  }

  /* ---- the list of recently used bytes ---- */

  method MoveToFront(yy: array<Byte>, n: nat, x: Byte) returns (j: nat)
    requires 1 <= n <= yy.Length && x in yy[..n] && yy[0] != x
    modifies yy
    ensures j == IndexOf(old(yy[..n]), x) && 0 < j < n
    ensures yy[..n] == ToFront(old(yy[..n]), j)
  {
    hide *;
    ghost var o := yy[..n];
    NotFirst(o, x);
    var rtmp := yy[1];
    yy[1] := yy[0];
    var p := 1;
    ghost var y := o[1 := o[0]];
    ShiftStarts(o);
    ShiftMore(o, o, 0, o[0]);
    ShiftStays(o, y, p, rtmp, x);
    while x != rtmp
      invariant 1 <= p <= IndexOf(o, x) < n && yy[..n] == y && |y| == n
      invariant Shifted(o, y, p, rtmp)
      invariant rtmp == x <==> p == IndexOf(o, x)
      invariant rtmp != x ==> p + 1 <= IndexOf(o, x)
      decreases n - p
    {
      ShiftMore(o, y, p, rtmp);
      p := p + 1;
      var rtmp2 := rtmp;
      rtmp := yy[p];
      yy[p] := rtmp2;
      assert yy[..n] == y[p := rtmp2];
      y := yy[..n];
      ShiftStays(o, y, p, rtmp, x);
    }
    ShiftEnds(o, y, p, rtmp);
    yy[0] := rtmp;
    assert yy[..n] == y[0 := rtmp];
    j := p;
  }

  lemma NotFirst(o: seq<nat>, x: nat)
    requires x in o && |o| > 0 && o[0] != x
    ensures 1 <= IndexOf(o, x) < |o|
  {
  }

  /* ---- the whole block ---- */

  lemma EncodeSame(list: seq<nat>, z: nat, ll: seq<nat>, i: nat, eob: nat)
    requires |list| > 0 && AllIn(ll, list) && i < |ll| && ll[i] == list[0]
    ensures AllIn(ll[i..], list) && AllIn(ll[i + 1..], list)
    ensures Encode(list, z, ll[i..], eob) == Encode(list, z + 1, ll[i + 1..], eob)
  {
    assert ll[i..][1..] == ll[i + 1..];
  }

  lemma EncodeMoved(list: seq<nat>, z: nat, ll: seq<nat>, i: nat, eob: nat)
    requires |list| > 0 && AllIn(ll, list) && i < |ll| && ll[i] != list[0]
    ensures ll[i] in list && AllIn(ll[i..], list)
    ensures AllIn(ll, ToFront(list, IndexOf(list, ll[i])))
    ensures AllIn(ll[i + 1..], ToFront(list, IndexOf(list, ll[i])))
    ensures Encode(list, z, ll[i..], eob)
         == RunDigits(z) + [IndexOf(list, ll[i]) + 1] + Encode(ToFront(list, IndexOf(list, ll[i])), 0, ll[i + 1..], eob)
  {
    assert ll[i..][1..] == ll[i + 1..];
    FrontKeeps(list, IndexOf(list, ll[i]));
  }

  lemma EncodeDone(list: seq<nat>, z: nat, ll: seq<nat>, eob: nat)
    requires |list| > 0
    ensures AllIn(ll[|ll|..], list) && Encode(list, z, ll[|ll|..], eob) == RunDigits(z) + [eob]
  {
    assert ll[|ll|..] == [];
  }

  lemma NoRun()
    ensures RunDigits(0) == []
  {
  }

  /** What remains to be encoded, after out has been written. */
  ghost predicate Remaining(list: seq<nat>, z: nat, ll: seq<nat>, i: nat, eob: nat, out: seq<nat>, goal: seq<nat>) {
    && |list| > 0 && AllIn(ll, list) && i <= |ll| && AllIn(ll[i..], list)
    && out + Encode(list, z, ll[i..], eob) == goal
  }

  lemma RemainingStart(list: seq<nat>, ll: seq<nat>, eob: nat)
    requires |list| > 0 && AllIn(ll, list)
    ensures Remaining(list, 0, ll, 0, eob, [], Encode(list, 0, ll, eob))
  {
    assert ll[0..] == ll;
    assert [] + Encode(list, 0, ll, eob) == Encode(list, 0, ll, eob);
  }

  lemma RemainingSame(list: seq<nat>, z: nat, ll: seq<nat>, i: nat, eob: nat, out: seq<nat>, goal: seq<nat>)
    requires Remaining(list, z, ll, i, eob, out, goal) && i < |ll| && ll[i] == list[0]
    ensures Remaining(list, z + 1, ll, i + 1, eob, out, goal)
  {
    EncodeSame(list, z, ll, i, eob);
  }

  lemma RemainingMoved(list: seq<nat>, z: nat, ll: seq<nat>, i: nat, eob: nat, out: seq<nat>, goal: seq<nat>)
    requires Remaining(list, z, ll, i, eob, out, goal) && i < |ll| && ll[i] != list[0]
    ensures ll[i] in list
    ensures Remaining(ToFront(list, IndexOf(list, ll[i])), 0, ll, i + 1, eob,
                      out + RunDigits(z) + [IndexOf(list, ll[i]) + 1], goal)
  {
    EncodeMoved(list, z, ll, i, eob);
    var j := IndexOf(list, ll[i]);
    var rest := Encode(ToFront(list, j), 0, ll[i + 1..], eob);
    assert out + (RunDigits(z) + [j + 1] + rest) == out + RunDigits(z) + [j + 1] + rest;
  }

  lemma RemainingDone(list: seq<nat>, z: nat, ll: seq<nat>, eob: nat, out: seq<nat>, goal: seq<nat>)
    requires Remaining(list, z, ll, |ll|, eob, out, goal)
    ensures out + RunDigits(z) + [eob] == goal
  {
    EncodeDone(list, z, ll, eob);
    assert out + (RunDigits(z) + [eob]) == out + RunDigits(z) + [eob];
  }

  lemma RemainingIn(list: seq<nat>, z: nat, ll: seq<nat>, i: nat, eob: nat, out: seq<nat>, goal: seq<nat>)
    requires Remaining(list, z, ll, i, eob, out, goal)
    ensures |list| > 0 && i <= |ll| && (i < |ll| ==> ll[i] in list)
  {
  }

  /** Reading the byte before rotation i: entry i of the order is still in place. */
  lemma {:induction false} ColumnAt(b: seq<Byte>, ptr: seq<nat>, last: seq<Byte>, inUse: seq<bool>, maps: seq<Byte>,
                                    i: nat)
    requires IsLastColumn(b, ptr, last) && i < |b| && AllUsed(inUse, last) && MapsTo(inUse, maps)
    ensures ptr[i] < |b| && last[i] == b[if ptr[i] == 0 then |b| - 1 else ptr[i] - 1]
    ensures maps[last[i]] == Renumbered(inUse, last)[i]
  {
  }

  lemma EmittedStart(arr: seq<UInt32>, n: nat)
    requires n <= |arr|
    ensures Emitted(arr, arr[..n], [], 0, 0)
  {
  }

  lemma EmittedRead(arr: seq<UInt32>, ptr: seq<nat>, out: seq<nat>, wr: nat, i: nat)
    requires Emitted(arr, ptr, out, wr, i) && i < |ptr|
    ensures arr[i] == ptr[i] && Emitted(arr, ptr, out, wr, i + 1)
  {
  }

  lemma EmittedIs(arr: seq<UInt32>, ptr: seq<nat>, out: seq<nat>, wr: nat, i: nat)
    requires Emitted(arr, ptr, out, wr, i)
    ensures wr <= 2 * |arr| && HalfView(arr, wr) == out
  {
  }

  lemma {:induction false} ColumnUsed(b: seq<Byte>, ptr: seq<nat>, last: seq<Byte>, inUse: seq<bool>)
    requires IsLastColumn(b, ptr, last) && AllUsed(inUse, b)
    ensures AllUsed(inUse, last) && |last| == |ptr| == |b|
  {
    forall i | 0 <= i < |last| ensures inUse[last[i]] { assert last[i] == b[Prev(|b|, ptr[i])]; }
  }

  lemma {:induction false} SomeInUse(inUse: seq<bool>, last: seq<Byte>)
    requires AllUsed(inUse, last) && |last| > 0
    ensures 1 <= Rank(inUse, 256) <= 256 && |Ident(Rank(inUse, 256))| == Rank(inUse, 256)
  {
    RankGrows(inUse, last[0], 256);
  }

  lemma RunLength(z: nat)
    ensures |RunDigits(z)| <= z
  {
  }

  method ClearFreq(mtfFreq: array<nat>, eob: nat)
    requires eob < mtfFreq.Length
    modifies mtfFreq
    ensures Tallied(mtfFreq[..], [], eob)
  {
    for i := 0 to eob + 1
      invariant forall v :: 0 <= v < i ==> mtfFreq[v] == 0
    {
      mtfFreq[i] := 0;
    }
  }

  /** Where the encoder stands after reading i entries of the sorted order. */
  ghost predicate Encoding(yy: seq<nat>, arr: seq<UInt32>, freq: seq<nat>, ptr: seq<nat>, ll: seq<nat>,
                           i: nat, wr: nat, zPend: nat, out: seq<nat>, goal: seq<nat>)
  {
    && Remaining(yy, zPend, ll, i, |yy| + 1, out, goal)
    && Emitted(arr, ptr, out, wr, i)
    && Tallied(freq, out, |yy| + 1)
    && wr + zPend <= i
  }

  lemma EncodingParts(yy: seq<nat>, arr: seq<UInt32>, freq: seq<nat>, ptr: seq<nat>, ll: seq<nat>,
                      i: nat, wr: nat, zPend: nat, out: seq<nat>, goal: seq<nat>)
    ensures Encoding(yy, arr, freq, ptr, ll, i, wr, zPend, out, goal) <==>
      && Remaining(yy, zPend, ll, i, |yy| + 1, out, goal)
      && Emitted(arr, ptr, out, wr, i)
      && Tallied(freq, out, |yy| + 1)
      && wr + zPend <= i
  {
  }

  /** Writes a byte that is not at the front of the list: the pending run, then its place. */
  method EncodeMove(arr1: array<UInt32>, mtfFreq: array<nat>, yy: array<Byte>, nInUse: nat, wr0: nat, zPend: nat,
                    x: Byte,
                    ghost ptr: seq<nat>, ghost ll: seq<nat>, ghost i: nat, ghost out0: seq<nat>, ghost goal: seq<nat>)
    returns (wr: nat, ghost out: seq<nat>)
    requires mtfFreq.Length == 258 && yy.Length == 256 && 1 <= nInUse <= 256
    requires i < |ll| && i < |ptr| && ll[i] == x && yy[0] != x
    requires Encoding(yy[..nInUse], arr1[..], mtfFreq[..], ptr, ll, i, wr0, zPend, out0, goal)
    modifies arr1, mtfFreq, yy
    ensures Encoding(yy[..nInUse], arr1[..], mtfFreq[..], ptr, ll, i + 1, wr, 0, out, goal)
  {
    hide *;
    ghost var l := yy[..nInUse];
    EncodingParts(l, arr1[..], mtfFreq[..], ptr, ll, i, wr0, zPend, out0, goal);
    RemainingIn(l, zPend, ll, i, nInUse + 1, out0, goal);
    RemainingMoved(l, zPend, ll, i, nInUse + 1, out0, goal);
    RunLength(zPend);
    RunSymbols();
    wr, out := wr0, out0;
    EmittedSize(arr1[..], ptr, out, wr, i);
    if zPend > 0 {
      wr, out := PutRun(arr1, mtfFreq, wr, zPend, ptr, out0, i, nInUse + 1);
    } else {
      NoRun();
      assert out0 + [] == out0;
    }
    EmittedSize(arr1[..], ptr, out, wr, i);
    EmittedRead(arr1[..], ptr, out, wr, i);
    var j := MoveToFront(yy, nInUse, x);
    PutSymbol(arr1, mtfFreq, wr, j + 1, ptr, out, i + 1, nInUse + 1);
    wr, out := wr + 1, out + [j + 1];
    EncodingParts(yy[..nInUse], arr1[..], mtfFreq[..], ptr, ll, i + 1, wr, 0, out, goal);
  }

  /** Writes the run that is still pending, and the end-of-block symbol. */
  method EncodeEnd(arr1: array<UInt32>, mtfFreq: array<nat>, wr0: nat, zPend: nat, eob: UInt16,
                   ghost l: seq<nat>, ghost ptr: seq<nat>, ghost ll: seq<nat>, ghost out0: seq<nat>,
                   ghost goal: seq<nat>)
    returns (wr: nat)
    requires mtfFreq.Length == 258 && 2 <= eob == |l| + 1 && 0 < |ll| == |ptr|
    requires Encoding(l, arr1[..], mtfFreq[..], ptr, ll, |ll|, wr0, zPend, out0, goal)
    modifies arr1, mtfFreq
    ensures wr <= |ptr| + 1 && wr <= 2 * arr1.Length && HalfView(arr1[..], wr) == goal
    ensures Tallied(mtfFreq[..], goal, eob)
  {
    hide *;
    EncodingParts(l, arr1[..], mtfFreq[..], ptr, ll, |ll|, wr0, zPend, out0, goal);
    RemainingDone(l, zPend, ll, eob, out0, goal);
    RunLength(zPend);
    RunSymbols();
    ghost var out := out0;
    wr := wr0;
    EmittedSize(arr1[..], ptr, out, wr, |ll|);
    if zPend > 0 {
      wr, out := PutRun(arr1, mtfFreq, wr, zPend, ptr, out0, |ll|, eob);
    } else {
      NoRun();
      assert out0 + [] == out0;
    }
    EmittedSize(arr1[..], ptr, out, wr, |ll|);
    PutSymbol(arr1, mtfFreq, wr, eob, ptr, out, |ll|, eob);
    wr := wr + 1;
    EmittedIs(arr1[..], ptr, out + [eob], wr, |ll|);
  }

  /** Replaces the sorted order in arr1 by the move-to-front symbols of the column it selects from the block. */
  method GenerateMtfValues(arr1: array<UInt32>, arr2: array<UInt32>, inUse: array<bool>, unseqToSeq: array<Byte>,
                           mtfFreq: array<nat>, nblock: nat, ghost last: seq<Byte>)
    returns (nInUse: nat, nMTF: nat)
    requires arr1 != arr2 && inUse.Length == unseqToSeq.Length == 256 && mtfFreq.Length == 258
    requires 0 < nblock <= arr1.Length && nblock <= 4 * arr2.Length
    requires IsLastColumn(ByteView(arr2[..], nblock), arr1[..nblock], last)
    requires AllUsed(inUse[..], ByteView(arr2[..], nblock))
    modifies arr1, unseqToSeq, mtfFreq
    ensures nInUse == Rank(inUse[..], 256) && 1 <= nInUse <= 256
    ensures AllIn(Renumbered(inUse[..], last), Ident(nInUse))
    ensures nMTF <= nblock + 1 && nMTF <= 2 * arr1.Length
    ensures HalfView(arr1[..], nMTF) == Encode(Ident(nInUse), 0, Renumbered(inUse[..], last), nInUse + 1)
    ensures Tallied(mtfFreq[..], HalfView(arr1[..], nMTF), nInUse + 1)
  {
    hide *;
    ghost var b, ptr, u := ByteView(arr2[..], nblock), arr1[..nblock], inUse[..];
    ColumnUsed(b, ptr, last, u);
    SomeInUse(u, last);
    RenumberedIn(u, last);
    ghost var ll := Renumbered(u, last);
    nInUse := MakeMaps(inUse, unseqToSeq);
    ghost var maps := unseqToSeq[..];
    ClearFreq(mtfFreq, nInUse + 1);
    var yy := new Byte[256];
    StartList(yy, nInUse);
    ghost var goal := Encode(Ident(nInUse), 0, ll, nInUse + 1);
    ghost var out: seq<nat> := [];
    var wr, zPend := 0, 0;
    RemainingStart(Ident(nInUse), ll, nInUse + 1);
    EmittedStart(arr1[..], nblock);
    assert arr1[..][..nblock] == ptr;
    EncodingParts(Ident(nInUse), arr1[..], mtfFreq[..], ptr, ll, 0, wr, zPend, out, goal);
    for i := 0 to nblock
      invariant Encoding(yy[..nInUse], arr1[..], mtfFreq[..], ptr, ll, i, wr, zPend, out, goal)
      invariant inUse[..] == u && unseqToSeq[..] == maps && ByteView(arr2[..], nblock) == b
    {
      ghost var l := yy[..nInUse];
      EncodingParts(l, arr1[..], mtfFreq[..], ptr, ll, i, wr, zPend, out, goal);
      EmittedRead(arr1[..], ptr, out, wr, i);
      ColumnAt(b, ptr, last, u, maps, i);
      var p: int := arr1[i];
      var j := p - 1;
      if j < 0 { j := j + nblock; }
      var c := GetByte(arr2, j, nblock);
      var x := unseqToSeq[c];
      assert x == ll[i] && l[0] == yy[0];
      if yy[0] == x {
        RemainingSame(l, zPend, ll, i, nInUse + 1, out, goal);
        zPend := zPend + 1;
        EncodingParts(l, arr1[..], mtfFreq[..], ptr, ll, i + 1, wr, zPend, out, goal);
      } else {
        wr, out := EncodeMove(arr1, mtfFreq, yy, nInUse, wr, zPend, x, ptr, ll, i, out, goal);
        zPend := 0;
      }
    }
    nMTF := EncodeEnd(arr1, mtfFreq, wr, zPend, nInUse + 1, yy[..nInUse], ptr, ll, out, goal);
  }
}
