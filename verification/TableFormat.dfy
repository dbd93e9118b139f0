/** How selectors and code lengths are sent: selectors in unary, lengths as steps from one to the next. */
module TableFormat {
  import opened MachineInts
  import opened SetSums
  import opened BitStream
  import opened BitFields
  import opened CanonicalCode

  /* ---- selectors ---- */

  /** j ones and a zero. */
  ghost function Unary(j: nat): (r: seq<bool>) {
    if j == 0 then [false] else [true] + Unary(j - 1)
  }

  ghost function Unaries(js: seq<nat>): (r: seq<seq<bool>>)
    ensures |r| == |js| && forall k :: 0 <= k < |js| ==> r[k] == Unary(js[k])
  {
    seq(|js|, k requires 0 <= k < |js| => Unary(js[k]))
  }

  lemma UnariesAt(js: seq<nat>, k: nat)
    requires k < |js|
    ensures |Unaries(js)| == |js| && Unaries(js)[k] == Unary(js[k])
  {
  }

  lemma UnariesSize(js: seq<nat>)
    ensures |Unaries(js)| == |js|
  {
  }

  lemma UnaryNext(j: nat)
    ensures Unary(0) == [false] && (j > 0 ==> Unary(j) == [true] + Unary(j - 1))
  {
  }

  method SendUnary(w: BitWriter, n: nat)
    requires w.Valid()
    modifies w
    ensures w.Valid() && w.Bits() == old(w.Bits()) + Unary(n) && old(w.zbits) <= w.zbits
  {
    hide *;
    ghost var goal := w.Bits() + Unary(n);
    for j := 0 to n
      invariant w.Valid() && w.Bits() + Unary(n - j) == goal && old(w.zbits) <= w.zbits
    {
      UnaryNext(n - j);
      Shift(w.Bits(), [true], Unary(n - j - 1));
      PutBit(w, true);
    }
    UnaryNext(0);
    PutBit(w, false);
  }

  method SendSelectors(w: BitWriter, selectorMtf: array<Byte>, nSelectors: nat)
    requires w.Valid() && nSelectors <= selectorMtf.Length
    modifies w
    ensures w.Valid() && w.Bits() == old(w.Bits()) + Flat(Unaries(selectorMtf[..nSelectors]), 0)
    ensures old(w.zbits) <= w.zbits
  {
    hide *;
    ghost var js := selectorMtf[..nSelectors];
    ghost var ps := Unaries(js);
    UnariesSize(js);
    ghost var goal := w.Bits() + Flat(ps, 0);
    for i := 0 to nSelectors
      invariant w.Valid() && w.Bits() + Flat(ps, i) == goal && selectorMtf[..nSelectors] == js
      invariant old(w.zbits) <= w.zbits
    {
      FlatNext(ps, i);
      UnariesAt(js, i);
      Shift(w.Bits(), ps[i], Flat(ps, i + 1));
      assert selectorMtf[i] == js[i];
      SendUnary(w, selectorMtf[i]);
    }
    FlatEnd(ps);
    assert w.Bits() + [] == w.Bits();
  }

  /** How many ones the bits start with, counted up to m. */
  ghost function Ones(s: seq<bool>, m: nat): (r: nat)
    ensures r <= m && r <= |s|
    decreases m
  {
    if m == 0 || s == [] || !s[0] then 0 else 1 + Ones(s[1..], m - 1)
  }

  lemma OnesIs(s: seq<bool>, m: nat)
    ensures Ones(s, m) <= m && Ones(s, m) <= |s|
    ensures Ones(s, m) == if m == 0 || s == [] || !s[0] then 0 else 1 + Ones(s[1..], m - 1)
  {
  }

  /** The bits start with a selector that the decoder takes: fewer than m ones and a zero. */
  ghost predicate Takes(s: seq<bool>, m: nat) {
    Ones(s, m) < m && Ones(s, m) < |s|
  }

  /** The places the decoder stores, one after the other, until n are stored or the next is not taken. */
  ghost function Places(s: seq<bool>, m: nat, n: nat): (r: seq<nat>)
    ensures |r| <= n
    decreases n
  {
    if n == 0 || !Takes(s, m) then [] else [Ones(s, m)] + Places(s[Ones(s, m) + 1..], m, n - 1)
  }

  /** What is left of the bits behind those places. */
  ghost function Behind(s: seq<bool>, m: nat, n: nat): (r: seq<bool>)
    decreases n
  {
    if n == 0 || !Takes(s, m) then s else Behind(s[Ones(s, m) + 1..], m, n - 1)
  }

  lemma PlacesNone(s: seq<bool>, m: nat, n: nat)
    requires n == 0 || !Takes(s, m)
    ensures Places(s, m, n) == [] && Behind(s, m, n) == s
  {
  }

  lemma PlacesNext(s: seq<bool>, m: nat, n: nat)
    requires n > 0 && Takes(s, m)
    ensures Ones(s, m) < |s| && Ones(s, m) < m
    ensures Places(s, m, n) == [Ones(s, m)] + Places(s[Ones(s, m) + 1..], m, n - 1)
    ensures Behind(s, m, n) == Behind(s[Ones(s, m) + 1..], m, n - 1)
  {
  }

  lemma {:induction false} OnesOfUnary(j: nat, m: nat, tail: seq<bool>)
    requires j < m
    ensures |Unary(j)| == j + 1 && Ones(Unary(j) + tail, m) == j && (Unary(j) + tail)[j + 1..] == tail
    ensures Takes(Unary(j) + tail, m)
    decreases j
  {
    if j > 0 {
      OnesOfUnary(j - 1, m - 1, tail);
      assert (Unary(j) + tail)[1..] == Unary(j - 1) + tail;
    }
  }

  /** Places sent in unary are the ones stored. */
  lemma {:induction false} PlacesSent(js: seq<nat>, i: nat, m: nat, tail: seq<bool>)
    requires i <= |js| && forall k :: 0 <= k < |js| ==> js[k] < m
    ensures |Unaries(js)| == |js|
    ensures Places(Flat(Unaries(js), i) + tail, m, |js| - i) == js[i..]
    ensures Behind(Flat(Unaries(js), i) + tail, m, |js| - i) == tail
    decreases |js| - i
  {
    hide *;
    UnariesSize(js);
    var ps := Unaries(js);
    if i == |js| {
      FlatEnd(ps);
      assert [] + tail == tail;
      PlacesNone(Flat(ps, i) + tail, m, 0);
    } else {
      var more := Flat(ps, i + 1) + tail;
      FlatNext(ps, i);
      UnariesAt(js, i);
      assert Flat(ps, i) + tail == Unary(js[i]) + more;
      OnesOfUnary(js[i], m, more);
      PlacesNext(Unary(js[i]) + more, m, |js| - i);
      PlacesSent(js, i + 1, m, tail);
    }
  }

  /** Reads a selector; as many ones as there are tables is an error. */
  method ReadUnary(r: BitReader, nGroups: nat) returns (o: Outcome<nat>)
    requires r.Valid() && nGroups > 0
    modifies r
    ensures r.Valid() && |r.Rest()| <= old(|r.Rest()|)
    ensures o.Value? <==> Takes(old(r.Rest()), nGroups)
    ensures o.DataError? <==> Ones(old(r.Rest()), nGroups) == nGroups
    ensures o.Value? ==> o.v == Ones(old(r.Rest()), nGroups) < |old(r.Rest())|
    ensures o.Value? ==> r.Rest() == old(r.Rest())[o.v + 1..]
  {
    hide *;
    ghost var s := r.Rest();
    var j := 0;
    TakesIs(s, nGroups);
    assert s[0..] == s;
    while true
      invariant r.Valid() && j < nGroups && j <= |s| && r.Rest() == s[j..]
      invariant Ones(s, nGroups) == j + Ones(s[j..], nGroups - j) <= |s|
      decreases nGroups - j
    {
      OnesIs(s[j..], nGroups - j);
      OnesIs(s, nGroups);
      var uc := ReadBit(r);
      if uc.NeedInput? { return NeedInput; }
      assert s[j..][1..] == s[j + 1..];
      if !uc.v { break; }
      j := j + 1;
      OnesIs(s[j..], nGroups - j);
      if j >= nGroups { return DataError; }
    }
    o := Value(j);
  }

  lemma TakesIs(s: seq<bool>, m: nat)
    ensures Takes(s, m) <==> Ones(s, m) < m && Ones(s, m) < |s|
  {
  }

  /** Reads selectors one by one, and stores each as soon as it has been taken. */
  method ReadSelectors(r: BitReader, selectorMtf: array<Byte>, nSelectors: nat, nGroups: nat)
    returns (o: Outcome<bool>)
    requires r.Valid() && nSelectors <= selectorMtf.Length && 1 <= nGroups <= 6
    modifies r, selectorMtf
    ensures r.Valid() && |r.Rest()| <= old(|r.Rest()|)
    ensures var places := Places(old(r.Rest()), nGroups, nSelectors);
      && selectorMtf[..|places|] == places && selectorMtf[|places|..] == old(selectorMtf[..])[|places|..]
      && (forall k :: 0 <= k < |places| ==> places[k] < nGroups)
      && (o.Value? <==> |places| == nSelectors)
      && (o.Value? ==> r.Rest() == Behind(old(r.Rest()), nGroups, nSelectors))
  {
    hide *;
    ghost var s, before, done := r.Rest(), selectorMtf[..], [];
    assert selectorMtf[..0] == [] && before[0..] == before;
    for i := 0 to nSelectors
      invariant r.Valid() && |r.Rest()| <= |s| && |done| == i
      invariant Places(s, nGroups, nSelectors) == done + Places(r.Rest(), nGroups, nSelectors - i)
      invariant Behind(s, nGroups, nSelectors) == Behind(r.Rest(), nGroups, nSelectors - i)
      invariant selectorMtf[..i] == done && selectorMtf[i..] == before[i..]
      invariant forall k :: 0 <= k < i ==> done[k] < nGroups
    {
      ghost var rest := r.Rest();
      if Takes(rest, nGroups) {
        PlacesNext(rest, nGroups, nSelectors - i);
      } else {
        PlacesNone(rest, nGroups, nSelectors - i);
        assert done + [] == done;
      }
      var j := ReadUnary(r, nGroups);
      if !j.Value? { return if j.NeedInput? then NeedInput else DataError; }
      selectorMtf[i] := j.v;
      done := done + [j.v];
      assert selectorMtf[i + 1..] == before[i..][1..];
    }
    PlacesNone(r.Rest(), nGroups, 0);
    assert done + [] == done;
    o := Value(true);
  }

  /* ---- code lengths ---- */

  /** Steps of one from curr to l, then a zero. */
  ghost function Steps(curr: nat, l: nat): (r: seq<bool>)
    decreases if curr < l then l - curr else curr - l
  {
    if curr < l then [true, false] + Steps(curr + 1, l)
    else if curr > l then [true, true] + Steps(curr - 1, l)
    else [false]
  }

  lemma StepsNext(curr: nat, l: nat)
    ensures curr < l ==> Steps(curr, l) == [true, false] + Steps(curr + 1, l)
    ensures curr > l ==> Steps(curr, l) == [true, true] + Steps(curr - 1, l)
    ensures curr == l ==> Steps(curr, l) == [false]
  {
  }

  /** The length symbol i is sent relative to. */
  ghost function Before(len: seq<Byte>, i: nat): nat
    requires i <= |len| && |len| > 0
  {
    if i == 0 then len[0] else len[i - 1]
  }

  ghost function Deltas(len: seq<Byte>): (r: seq<seq<bool>>)
    requires |len| > 0
    ensures |r| == |len| && forall i :: 0 <= i < |len| ==> r[i] == Steps(Before(len, i), len[i])
  {
    seq(|len|, i requires 0 <= i < |len| => Steps(Before(len, i), len[i]))
  }

  lemma DeltasAt(len: seq<Byte>, i: nat)
    requires |len| > 0
    ensures |Deltas(len)| == |len| && Before(len, 0) == len[0]
    ensures i < |len| ==> Deltas(len)[i] == Steps(Before(len, i), len[i]) && Before(len, i + 1) == len[i]
  {
  }

  ghost function TableBits(len: seq<Byte>): seq<bool>
    requires |len| > 0
  {
    ToBits(len[0], 5) + Flat(Deltas(len), 0)
  }

  lemma TableBitsIs(len: seq<Byte>)
    requires |len| > 0
    ensures |Deltas(len)| == |len| && TableBits(len) == ToBits(len[0], 5) + Flat(Deltas(len), 0)
  {
  }

  lemma FivePowers()
    ensures Pow2(5) == 32 && Pow2(2) == 4
  {
  }

  /** Sends the steps from curr to l. */
  method SendSteps(w: BitWriter, from: nat, l: nat)
    requires w.Valid()
    modifies w
    ensures w.Valid() && w.Bits() == old(w.Bits()) + Steps(from, l) && old(w.zbits) <= w.zbits
  {
    hide *;
    var curr := from;
    ghost var goal := w.Bits() + Steps(curr, l);
    TwoBits();
    while curr < l
      invariant w.Valid() && w.Bits() + Steps(curr, l) == goal && old(w.zbits) <= w.zbits && (from <= l ==> curr <= l)
      decreases l - curr
    {
      StepsNext(curr, l);
      Shift(w.Bits(), [true, false], Steps(curr + 1, l));
      w.W(2, 2);
      curr := curr + 1;
    }
    while curr > l
      invariant l <= curr && w.Valid() && w.Bits() + Steps(curr, l) == goal && old(w.zbits) <= w.zbits
    {
      StepsNext(curr, l);
      Shift(w.Bits(), [true, true], Steps(curr - 1, l));
      w.W(2, 3);
      curr := curr - 1;
    }
    StepsNext(curr, l);
    PutBit(w, false);
  }

  method SendTable(w: BitWriter, len: seq<Byte>)
    requires w.Valid() && |len| > 0 && len[0] < 32
    modifies w
    ensures w.Valid() && w.Bits() == old(w.Bits()) + TableBits(len) && old(w.zbits) <= w.zbits
  {
    hide *;
    TableBitsIs(len);
    DeltasAt(len, 0);
    ghost var ps := Deltas(len);
    ghost var goal := w.Bits() + TableBits(len);
    Shift(w.Bits(), ToBits(len[0], 5), Flat(ps, 0));
    var curr := len[0];
    FivePowers();
    w.W(5, curr);
    for i := 0 to |len|
      invariant w.Valid() && w.Bits() + Flat(ps, i) == goal && curr == Before(len, i) && old(w.zbits) <= w.zbits
    {
      FlatNext(ps, i);
      DeltasAt(len, i);
      Shift(w.Bits(), ps[i], Flat(ps, i + 1));
      SendSteps(w, curr, len[i]);
      curr := len[i];
    }
    FlatEnd(ps);
    assert w.Bits() + [] == w.Bits();
  }

  /** Follows steps from a length until the closing zero; the length must stay within 1..20. */
  method ReadSteps(r: BitReader, from: nat, ghost l: nat, ghost tail: seq<bool>) returns (o: Outcome<Byte>)
    requires r.Valid()
    modifies r
    ensures r.Valid() && |r.Rest()| <= old(|r.Rest()|) && (o.Value? ==> 1 <= o.v <= 20)
    ensures old(r.Rest()) == Steps(from, l) + tail && 1 <= from <= 20 && 1 <= l <= 20 ==> o == Value(l)
    ensures old(r.Rest()) == Steps(from, l) + tail && 1 <= from <= 20 && 1 <= l <= 20 ==> r.Rest() == tail
  {
    hide *;
    var curr := from;
    ghost var good := r.Rest() == Steps(from, l) + tail && 1 <= from <= 20 && 1 <= l <= 20;
    while true
      invariant r.Valid() && |r.Rest()| <= old(|r.Rest()|)
      invariant (good ==> 1 <= curr <= 20 && r.Rest() == Steps(curr, l) + tail)
      decreases |r.Rest()|
    {
      if curr < 1 || curr > 20 { return DataError; }
      ghost var all := r.Rest();
      StepsNext(curr, l);
      var uc := ReadBit(r);
      if good { FirstStep(uc, all, r.Rest(), curr, l, tail); }
      if uc.NeedInput? { return NeedInput; }
      if !uc.v { break; }
      ghost var rest := r.Rest();
      var up := ReadBit(r);
      if good { SecondStep(up, rest, r.Rest(), curr, l, tail); }
      if up.NeedInput? { return NeedInput; }
      if !up.v { curr := curr + 1; } else { curr := curr - 1; }
    }
    o := Value(curr);
  }

  lemma {:induction false} FirstStep(o: Outcome<bool>, all: seq<bool>, rest: seq<bool>, curr: nat, l: nat,
                                     tail: seq<bool>)
    requires !o.DataError? && (o.NeedInput? <==> all == []) && (o.Value? ==> all == [o.v] + rest)
    requires all == Steps(curr, l) + tail
    ensures o == Value(curr != l)
    ensures curr == l ==> rest == tail
    ensures curr < l ==> rest == [false] + (Steps(curr + 1, l) + tail)
    ensures curr > l ==> rest == [true] + (Steps(curr - 1, l) + tail)
  {
    hide *;
    StepsNext(curr, l);
    if curr == l {
      BitRead(o, all, rest, false, tail);
    } else if curr < l {
      assert [true, false] + Steps(curr + 1, l) + tail == [true] + ([false] + (Steps(curr + 1, l) + tail));
      BitRead(o, all, rest, true, [false] + (Steps(curr + 1, l) + tail));
    } else {
      assert [true, true] + Steps(curr - 1, l) + tail == [true] + ([true] + (Steps(curr - 1, l) + tail));
      BitRead(o, all, rest, true, [true] + (Steps(curr - 1, l) + tail));
    }
  }

  lemma {:induction false} SecondStep(o: Outcome<bool>, all: seq<bool>, rest: seq<bool>, curr: nat, l: nat,
                                      tail: seq<bool>)
    requires !o.DataError? && (o.NeedInput? <==> all == []) && (o.Value? ==> all == [o.v] + rest)
    requires curr < l ==> all == [false] + (Steps(curr + 1, l) + tail)
    requires curr > l ==> all == [true] + (Steps(curr - 1, l) + tail)
    ensures curr != l ==> o == Value(curr > l)
    ensures curr < l ==> rest == Steps(curr + 1, l) + tail
    ensures curr > l ==> rest == Steps(curr - 1, l) + tail
  {
    hide *;
    if curr < l {
      BitRead(o, all, rest, false, Steps(curr + 1, l) + tail);
    } else if curr > l {
      BitRead(o, all, rest, true, Steps(curr - 1, l) + tail);
    }
  }

  lemma LengthsBetween(len: seq<Byte>, lo: int, hi: int, i: nat)
    requires LengthsIn(len, lo, hi) && i < |len|
    ensures lo <= len[i] <= hi
  {
  }

  method ReadTable(r: BitReader, alphaSize: nat, ghost len: seq<Byte>, ghost tail: seq<bool>)
    returns (o: Outcome<seq<Byte>>)
    requires r.Valid() && alphaSize > 0 && |len| == alphaSize
    modifies r
    ensures r.Valid() && |r.Rest()| <= old(|r.Rest()|) && (o.Value? ==> |o.v| == alphaSize && LengthsIn(o.v, 1, 20))
    ensures old(r.Rest()) == TableBits(len) + tail && LengthsIn(len, 1, 20) ==> o == Value(len) && r.Rest() == tail
  {
    hide *;
    TableBitsIs(len);
    FivePowers();
    ghost var ps := Deltas(len);
    ghost var good := r.Rest() == TableBits(len) + tail && LengthsIn(len, 1, 20);
    ghost var all := r.Rest();
    var curr0 := ReadField(r, 5);
    if good {
      LengthsBetween(len, 1, 20, 0);
      Shift(ToBits(len[0], 5), Flat(ps, 0), tail);
      FieldRead(curr0, 5, all, r.Rest(), len[0], Flat(ps, 0) + tail);
    }
    if curr0.NeedInput? { return NeedInput; }
    var curr := curr0.v;
    var got: seq<Byte> := [];
    DeltasAt(len, 0);
    NoLengths();
    for i := 0 to alphaSize
      invariant r.Valid() && |r.Rest()| <= old(|r.Rest()|) && |got| == i && LengthsIn(got, 1, 20)
      invariant good ==> r.Rest() == Flat(ps, i) + tail && curr == Before(len, i) && 1 <= curr <= 20 && got == len[..i]
    {
      FlatNext(ps, i);
      DeltasAt(len, i);
      Shift(ps[i], Flat(ps, i + 1), tail);
      if good { LengthsBetween(len, 1, 20, i); }
      var l := ReadSteps(r, curr, len[i], Flat(ps, i + 1) + tail);
      if !l.Value? { return if l.NeedInput? then NeedInput else DataError; }
      curr := l.v;
      LengthsMore(got, l.v);
      got := got + [l.v];
    }
    if good {
      FlatEnd(ps);
      assert [] + tail == tail && len[..alphaSize] == len;
    }
    o := Value(got);
  }

  lemma NoLengths()
    ensures LengthsIn([], 1, 20)
  {
  }

  lemma LengthsMore(len: seq<Byte>, l: Byte)
    requires LengthsIn(len, 1, 20) && 1 <= l <= 20
    ensures LengthsIn(len + [l], 1, 20)
  {
  }

  /* ---- all tables ---- */

  ghost function TablePieces(lens: seq<seq<Byte>>, nGroups: nat): (r: seq<seq<bool>>)
    requires nGroups <= |lens| && forall t :: 0 <= t < nGroups ==> |lens[t]| > 0
    ensures |r| == nGroups && forall t :: 0 <= t < nGroups ==> r[t] == TableBits(lens[t])
  {
    seq(nGroups, t requires 0 <= t < nGroups => TableBits(lens[t]))
  }

  lemma TablePiecesAt(lens: seq<seq<Byte>>, nGroups: nat, t: nat)
    requires nGroups <= |lens| && (forall t :: 0 <= t < nGroups ==> |lens[t]| > 0) && t <= nGroups
    ensures |TablePieces(lens, nGroups)| == nGroups
    ensures (t < nGroups ==> TablePieces(lens, nGroups)[t] == TableBits(lens[t]))
  {
  }

  method SendTables(w: BitWriter, lens: seq<seq<Byte>>, nGroups: nat)
    requires w.Valid() && nGroups <= |lens| && forall t :: 0 <= t < nGroups ==> |lens[t]| > 0 && lens[t][0] < 32
    modifies w
    ensures w.Valid() && w.Bits() == old(w.Bits()) + Flat(TablePieces(lens, nGroups), 0) && old(w.zbits) <= w.zbits
  {
    hide *;
    TablePiecesAt(lens, nGroups, 0);
    ghost var ps := TablePieces(lens, nGroups);
    ghost var goal := w.Bits() + Flat(ps, 0);
    for t := 0 to nGroups
      invariant w.Valid() && w.Bits() + Flat(ps, t) == goal && old(w.zbits) <= w.zbits
    {
      FlatNext(ps, t);
      TablePiecesAt(lens, nGroups, t);
      Shift(w.Bits(), ps[t], Flat(ps, t + 1));
      SendTable(w, lens[t]);
    }
    FlatEnd(ps);
    assert w.Bits() + [] == w.Bits();
  }

  method ReadTables(r: BitReader, nGroups: nat, alphaSize: nat, ghost lens: seq<seq<Byte>>, ghost tail: seq<bool>)
    returns (o: Outcome<seq<seq<Byte>>>)
    requires r.Valid() && alphaSize > 0 && |lens| == nGroups && forall t :: 0 <= t < nGroups ==> |lens[t]| == alphaSize
    modifies r
    ensures r.Valid() && |r.Rest()| <= old(|r.Rest()|)
    ensures o.Value? ==>
      |o.v| == nGroups && forall t :: 0 <= t < nGroups ==> |o.v[t]| == alphaSize && LengthsIn(o.v[t], 1, 20)
    ensures old(r.Rest()) == Flat(TablePieces(lens, nGroups), 0) + tail &&
            (forall t :: 0 <= t < nGroups ==> LengthsIn(lens[t], 1, 20)) ==>
      o == Value(lens) && r.Rest() == tail
  {
    hide *;
    TablePiecesAt(lens, nGroups, 0);
    ghost var ps := TablePieces(lens, nGroups);
    ghost var good := r.Rest() == Flat(ps, 0) + tail && (forall t :: 0 <= t < nGroups ==> LengthsIn(lens[t], 1, 20));
    var got: seq<seq<Byte>> := [];
    for t := 0 to nGroups
      invariant r.Valid() && |r.Rest()| <= old(|r.Rest()|) && |got| == t && forall s :: 0 <= s < t ==>
        |got[s]| == alphaSize && LengthsIn(got[s], 1, 20)
      invariant good ==> r.Rest() == Flat(ps, t) + tail && got == lens[..t]
    {
      FlatNext(ps, t);
      TablePiecesAt(lens, nGroups, t);
      Shift(ps[t], Flat(ps, t + 1), tail);
      var len := ReadTable(r, alphaSize, lens[t], Flat(ps, t + 1) + tail);
      if !len.Value? { return if len.NeedInput? then NeedInput else DataError; }
      got := got + [len.v];
    }
    if good {
      FlatEnd(ps);
      assert [] + tail == tail && lens[..nGroups] == lens;
    }
    o := Value(got);
  }
}
