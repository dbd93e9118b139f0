/** Move-to-front with run coding, and why decoding undoes it. */
module MtfTheory {
  import opened MachineInts

  const RUNA := 0
  const RUNB := 1

  /** The list with entry j moved to the front. */
  function ToFront(list: seq<nat>, j: nat): (r: seq<nat>)
    requires j < |list|
    ensures |r| == |list|
  {
    [list[j]] + list[..j] + list[j + 1..]
  }

  /** The first place x stands at. */
  ghost function IndexOf(list: seq<nat>, x: nat): (j: nat)
    requires x in list
    ensures j < |list| && list[j] == x && x !in list[..j]
  {
    if list[0] == x then 0 else
      assert list == [list[0]] + list[1..];
      1 + IndexOf(list[1..], x)
  }

  /** The list 0, 1, .., n-1. */
  ghost function Ident(n: nat): (r: seq<nat>)
    ensures |r| == n && forall k :: 0 <= k < n ==> r[k] == k
  {
    seq(n, k => k)
  }

  method StartList(pos: array<Byte>, n: nat)
    requires n <= pos.Length && n <= 256
    modifies pos
    ensures pos[..n] == Ident(n)
  {
    for i := 0 to n
      invariant forall k :: 0 <= k < i ==> pos[k] == k
    {
      pos[i] := i;
    }
  }

  /* ---- moving an entry to the front while scanning for it ---- */

  /** Entries 1..p have each moved up one place; the entry taken out last is rtmp. */
  ghost predicate Shifted(o: seq<nat>, y: seq<nat>, p: nat, rtmp: nat) {
    && 0 <= p < |o| == |y| && rtmp == o[p] && y[0] == o[0]
    && (forall k :: 1 <= k <= p ==> y[k] == o[k - 1])
    && (forall k :: p < k < |o| ==> y[k] == o[k])
  }

  lemma ShiftStarts(o: seq<nat>)
    requires |o| > 0
    ensures Shifted(o, o, 0, o[0])
  {
  }

  lemma ShiftMore(o: seq<nat>, y: seq<nat>, p: nat, rtmp: nat)
    requires Shifted(o, y, p, rtmp) && p + 1 < |o|
    ensures Shifted(o, y[p + 1 := rtmp], p + 1, y[p + 1])
  {
  }

  lemma ShiftEnds(o: seq<nat>, y: seq<nat>, p: nat, rtmp: nat)
    requires Shifted(o, y, p, rtmp)
    ensures y[0 := rtmp] == ToFront(o, p)
  {
    var t := ToFront(o, p);
    forall k | 0 <= k < |o| ensures y[0 := rtmp][k] == t[k] {
    }
  }

  /** The scan stops at the first place that holds x. */
  lemma ShiftStays(o: seq<nat>, y: seq<nat>, p: nat, rtmp: nat, x: nat)
    requires Shifted(o, y, p, rtmp) && x in o && p <= IndexOf(o, x)
    ensures rtmp == x <==> p == IndexOf(o, x)
    ensures rtmp != x ==> p + 1 <= IndexOf(o, x) < |o|
  {
    var j := IndexOf(o, x);
    if p < j { assert o[..j][p] == o[p]; }
  }

  /* ---- runs of zeros in bijective base two ---- */

  ghost function RunDigits(z: nat): (r: seq<nat>)
    ensures forall k :: 0 <= k < |r| ==> r[k] == RUNA || r[k] == RUNB
    ensures |r| <= z && (z > 0 ==> |r| > 0)
  {
    if z == 0 then [] else [(z - 1) % 2] + RunDigits((z - 1) / 2)
  }

  ghost function RunValue(d: seq<nat>): nat {
    if d == [] then 0 else d[0] + 1 + 2 * RunValue(d[1..])
  }

  lemma RunNext(z: nat)
    requires z > 0
    ensures RunDigits(z) == [(z - 1) % 2] + RunDigits((z - 1) / 2)
    ensures z - 1 < 2 ==> RunDigits((z - 1) / 2) == []
    ensures z - 1 >= 2 ==> (z - 1 - 2) / 2 + 1 == (z - 1) / 2
    ensures 0 <= (z - 1) % 2 < 2 && (z - 1) % 2 + 1 + 2 * ((z - 1) / 2) == z
  {
  }

  lemma RunValueMore(c: nat, d: seq<nat>)
    ensures RunValue([c] + d) == c + 1 + 2 * RunValue(d)
  {
    assert ([c] + d)[1..] == d;
  }

  lemma {:induction false} RunValueOfDigits(z: nat)
    ensures RunValue(RunDigits(z)) == z
  {
    if z > 0 {
      hide *;
      RunNext(z);
      RunValueOfDigits((z - 1) / 2);
      RunValueMore((z - 1) % 2, RunDigits((z - 1) / 2));
    }
  }

  /* ---- encoding ---- */

  ghost predicate AllIn(ll: seq<nat>, list: seq<nat>) {
    forall k :: 0 <= k < |ll| ==> ll[k] in list
  }

  lemma FrontKeeps(list: seq<nat>, j: nat)
    requires j < |list|
    ensures forall x :: x in list <==> x in ToFront(list, j)
  {
    var t := ToFront(list, j);
    assert list == list[..j] + [list[j]] + list[j + 1..];
    forall x ensures x in list <==> x in t {
    }
  }

  /** The symbols for the rest ll of a block, with z zeros pending. */
  ghost function Encode(list: seq<nat>, z: nat, ll: seq<nat>, eob: nat): (r: seq<nat>)
    requires |list| > 0 && AllIn(ll, list)
    decreases |ll|
  {
    if ll == [] then RunDigits(z) + [eob]
    else if ll[0] == list[0] then Encode(list, z + 1, ll[1..], eob)
    else
      var j := IndexOf(list, ll[0]);
      FrontKeeps(list, j);
      RunDigits(z) + [j + 1] + Encode(ToFront(list, j), 0, ll[1..], eob)
  }

  /* ---- decoding ---- */

  ghost function Repeat(x: nat, n: nat): (r: seq<nat>)
    ensures |r| == n && forall k :: 0 <= k < n ==> r[k] == x
  {
    seq(n, k => x)
  }

  /** Leading run digits. */
  ghost function LeadingRun(syms: seq<nat>): (r: seq<nat>)
    ensures |r| <= |syms| && r == syms[..|r|]
  {
    if syms == [] || (syms[0] != RUNA && syms[0] != RUNB) then [] else [syms[0]] + LeadingRun(syms[1..])
  }

  /** The entries that symbols stand for, up to the end-of-block symbol: a run, and what comes after it. */
  ghost function Decode(list: seq<nat>, syms: seq<nat>, eob: nat): seq<nat>
    requires |list| > 0
    decreases |syms|, 1
  {
    Repeat(list[0], RunValue(LeadingRun(syms))) + AfterRun(list, syms[|LeadingRun(syms)|..], eob)
  }

  ghost function AfterRun(list: seq<nat>, rest: seq<nat>, eob: nat): seq<nat>
    requires |list| > 0
    decreases |rest|, 0
  {
    if rest == [] || rest[0] == eob || rest[0] - 1 >= |list| || rest[0] == 0 then []
    else [list[rest[0] - 1]] + Decode(ToFront(list, rest[0] - 1), rest[1..], eob)
  }

  lemma DecodeIs(list: seq<nat>, syms: seq<nat>, eob: nat)
    requires |list| > 0
    ensures |LeadingRun(syms)| <= |syms|
    ensures Decode(list, syms, eob) ==
      Repeat(list[0], RunValue(LeadingRun(syms))) + AfterRun(list, syms[|LeadingRun(syms)|..], eob)
  {
  }

  lemma {:induction false} LeadingRunOf(d: seq<nat>, s: nat, rest: seq<nat>)
    requires (forall k :: 0 <= k < |d| ==> d[k] == RUNA || d[k] == RUNB) && s != RUNA && s != RUNB
    ensures LeadingRun(d + [s] + rest) == d
  {
    var all := d + [s] + rest;
    if d != [] {
      LeadingRunOf(d[1..], s, rest);
      assert all[1..] == d[1..] + [s] + rest;
    }
  }

  lemma RepeatMore(x: nat, n: nat, rest: seq<nat>)
    ensures Repeat(x, n + 1) + rest == Repeat(x, n) + ([x] + rest)
  {
  }

  lemma EncodeEmpty(list: seq<nat>, z: nat, eob: nat)
    requires |list| > 0
    ensures AllIn([], list) && Encode(list, z, [], eob) == RunDigits(z) + [eob]
  {
  }

  lemma EncodeHead(list: seq<nat>, z: nat, ll: seq<nat>, eob: nat)
    requires |list| > 0 && AllIn(ll, list) && ll != []
    ensures ll[0] in list && IndexOf(list, ll[0]) < |list|
    ensures ll[0] == list[0] ==> AllIn(ll[1..], list) && Encode(list, z, ll, eob) == Encode(list, z + 1, ll[1..], eob)
    ensures ll[0] != list[0] ==> 0 < IndexOf(list, ll[0]) && AllIn(ll[1..], ToFront(list, IndexOf(list, ll[0])))
    ensures ll[0] != list[0] ==>
      Encode(list, z, ll, eob) ==
        RunDigits(z) + [IndexOf(list, ll[0]) + 1] + Encode(ToFront(list, IndexOf(list, ll[0])), 0, ll[1..], eob)
  {
    FrontKeeps(list, IndexOf(list, ll[0]));
  }

  lemma FrontPrefix(list: seq<nat>, full: seq<nat>, j: nat)
    requires j < |list| && list <= full
    ensures ToFront(list, j) <= ToFront(full, j) && ToFront(list, j)[0] == list[j] == full[j] && full[0] == list[0]
  {
  }

  lemma DecodeEnd(full: seq<nat>, z: nat, eob: nat)
    requires |full| > 0 && eob > 1
    ensures Decode(full, RunDigits(z) + [eob], eob) == Repeat(full[0], z)
  {
    LeadingRunOf(RunDigits(z), eob, []);
    assert RunDigits(z) + [eob] + [] == RunDigits(z) + [eob];
    RunValueOfDigits(z);
  }

  lemma RepeatNone(x: nat, rest: seq<nat>)
    ensures Repeat(x, 0) + rest == rest
  {
  }

  /** Decoding, over any list that begins as the encoder's does, gives back the pending zeros and the rest. */
  lemma {:induction false} DecodeEncode(list: seq<nat>, full: seq<nat>, z: nat, ll: seq<nat>, eob: nat)
    requires |list| > 0 && AllIn(ll, list) && list <= full && eob > |list|
    ensures Decode(full, Encode(list, z, ll, eob), eob) == Repeat(list[0], z) + ll
    decreases |ll|
  {
    hide *;
    if ll == [] {
      EncodeEmpty(list, z, eob);
      DecodeEnd(full, z, eob);
      assert Repeat(list[0], z) + [] == Repeat(list[0], z);
    } else {
      EncodeHead(list, z, ll, eob);
      assert [ll[0]] + ll[1..] == ll;
      if ll[0] == list[0] {
        DecodeEncode(list, full, z + 1, ll[1..], eob);
        RepeatMore(list[0], z, ll[1..]);
      } else {
        var j := IndexOf(list, ll[0]);
        FrontPrefix(list, full, j);
        DecodeEncode(ToFront(list, j), ToFront(full, j), 0, ll[1..], eob);
        RepeatNone(ToFront(list, j)[0], ll[1..]);
        DecodeOne(full, z, j, Encode(ToFront(list, j), 0, ll[1..], eob), eob);
        assert Repeat(full[0], z) + [full[j]] + ll[1..] == Repeat(full[0], z) + ([full[j]] + ll[1..]);
      }
    }
  }

  lemma DecodeOne(full: seq<nat>, z: nat, j: nat, rest: seq<nat>, eob: nat)
    requires 0 < j < |full| && j + 1 < eob
    ensures Decode(full, RunDigits(z) + [j + 1] + rest, eob) ==
      Repeat(full[0], z) + [full[j]] + Decode(ToFront(full, j), rest, eob)
  {
    var syms := RunDigits(z) + [j + 1] + rest;
    LeadingRunOf(RunDigits(z), j + 1, rest);
    RunValueOfDigits(z);
    assert syms[|RunDigits(z)|..] == [j + 1] + rest;
    assert ([j + 1] + rest)[1..] == rest;
  }

  /** Symbols of a block: below the end mark throughout, which comes last. */
  ghost predicate EndMarked(e: seq<nat>, eob: nat) {
    && |e| > 0 && e[|e| - 1] == eob
    && (forall k :: 0 <= k < |e| ==> e[k] <= eob)
    && (forall k :: 0 <= k < |e| - 1 ==> e[k] < eob)
  }

  lemma EndMarkedMore(d: seq<nat>, x: nat, e: seq<nat>, eob: nat)
    requires (forall k :: 0 <= k < |d| ==> d[k] == RUNA || d[k] == RUNB) && 1 < x < eob && EndMarked(e, eob)
    ensures EndMarked(d + [x] + e, eob)
  {
    var s := d + [x];
    assert forall k :: 0 <= k < |s| ==> s[k] < eob;
  }

  /** Every symbol is a run digit, a list position plus one, or the end mark. */
  lemma {:induction false} SymbolsInRange(list: seq<nat>, z: nat, ll: seq<nat>, eob: nat)
    requires |list| > 0 && AllIn(ll, list) && eob == |list| + 1
    ensures EndMarked(Encode(list, z, ll, eob), eob)
    decreases |ll|
  {
    if ll != [] {
      if ll[0] == list[0] {
        SymbolsInRange(list, z + 1, ll[1..], eob);
      } else {
        var j := IndexOf(list, ll[0]);
        FrontKeeps(list, j);
        SymbolsInRange(ToFront(list, j), 0, ll[1..], eob);
        EndMarkedMore(RunDigits(z), j + 1, Encode(ToFront(list, j), 0, ll[1..], eob), eob);
      }
    }
  }
}
