/** The canonical prefix codes of deflate (section 3.2.2 of RFC 1951), and their listing in code order. */
module DeflateCodes {
  import opened Arithmetic
  import opened SetSums
  import opened Counting
  import opened BitReverse

  /* ---- codes from lengths; length 0 marks a symbol without a code ---- */

  ghost predicate LengthsOk(lens: seq<nat>) {
    forall s :: 0 <= s < |lens| ==> lens[s] <= 15
  }

  /** The first code of length n. */
  ghost function FirstCode(lens: seq<nat>, n: nat): nat {
    if n <= 1 then 0 else 2 * (FirstCode(lens, n - 1) + Count(lens, n - 1))
  }

  /** The code of symbol s: codes of one length count up in symbol order. */
  ghost function CodeOf(lens: seq<nat>, s: nat): nat
    requires s < |lens|
  {
    FirstCode(lens, lens[s]) + Count(lens[..s], lens[s])
  }

  /** The bits of h, lowest first, begin with the code of s, highest bit first. */
  ghost predicate Leads(lens: seq<nat>, s: nat, h: nat) {
    s < |lens| && lens[s] > 0 && h % Pow2(lens[s]) == Rev(CodeOf(lens, s), lens[s])
  }

  /** A share of the code space, in units of 2^-15. */
  ghost function Unit(l: int): (r: nat)
    ensures r > 0
  {
    Pow2(15 - l)
  }

  /** The share of the code space that the codes take. */
  ghost function Kraft(lens: seq<nat>): nat {
    if lens == [] then 0
    else Kraft(lens[..|lens| - 1]) + if lens[|lens| - 1] == 0 then 0 else Unit(lens[|lens| - 1])
  }

  /** The share that the codes of length up to l take. */
  ghost function KraftTo(lens: seq<nat>, l: nat): nat {
    if l == 0 then 0 else KraftTo(lens, l - 1) + Count(lens, l) * Unit(l)
  }

  /** How many symbols have a code shorter than l. */
  ghost function Offset(lens: seq<nat>, l: nat): nat {
    if l <= 1 then 0 else Offset(lens, l - 1) + Count(lens, l - 1)
  }

  lemma UnitStep(l: nat)
    requires 1 <= l <= 15
    ensures Unit(l - 1) == 2 * Unit(l) && Unit(15) == 1 && Unit(0) == 0x8000
  {
    assert Pow2(15) == 0x8000;
  }

  lemma KraftStep(lens: seq<nat>, l: nat)
    ensures KraftTo(lens, 0) == 0
    ensures l > 0 ==> KraftTo(lens, l) == KraftTo(lens, l - 1) + Count(lens, l) * Unit(l)
  {
  }

  lemma OffsetStep(lens: seq<nat>, l: nat)
    ensures Offset(lens, 0) == 0 && Offset(lens, 1) == 0
    ensures l > 0 ==> Offset(lens, l + 1) == Offset(lens, l) + Count(lens, l)
  {
  }

  lemma {:induction false} OffsetGrows(lens: seq<nat>, l: nat, m: nat)
    requires l <= m
    ensures Offset(lens, l) <= Offset(lens, m)
    decreases m
  {
    if l < m { OffsetGrows(lens, l, m - 1); }
  }

  lemma FirstCodeStep(lens: seq<nat>, l: nat)
    ensures FirstCode(lens, 0) == 0 && FirstCode(lens, 1) == 0
    ensures l > 1 ==> FirstCode(lens, l) == 2 * (FirstCode(lens, l - 1) + Count(lens, l - 1))
  {
  }

  /** The codes of length l begin where the shorter ones end. */
  lemma {:induction false} FirstCodeAt(lens: seq<nat>, l: nat)
    requires 1 <= l <= 15
    ensures FirstCode(lens, l) * Unit(l) == KraftTo(lens, l - 1)
    decreases l
  {
    hide *;
    FirstCodeStep(lens, l);
    KraftStep(lens, l - 1);
    if l == 1 {
    } else {
      FirstCodeAt(lens, l - 1);
      UnitStep(l);
      Doubled(FirstCode(lens, l - 1), Count(lens, l - 1), Unit(l));
    }
  }

  lemma Doubled(f: nat, c: nat, u: nat)
    ensures 2 * (f + c) * u == f * (2 * u) + c * (2 * u)
  {
  }

  /* ---- counting the shares symbol by symbol or length by length ---- */

  lemma {:induction false} KraftToPush(lens: seq<nat>, x: nat, l: nat)
    ensures KraftTo(lens + [x], l) == KraftTo(lens, l) + if 1 <= x <= l then Unit(x) else 0
    decreases l
  {
    hide *;
    KraftStep(lens, l);
    KraftStep(lens + [x], l);
    if l > 0 {
      KraftToPush(lens, x, l - 1);
      CountPush(lens, x, l);
      if x == l { Spread(Count(lens, l), 1, Unit(l)); }
    }
  }

  lemma {:induction false} KraftOfNone(l: nat)
    ensures KraftTo([], l) == 0
  {
    if l > 0 { KraftOfNone(l - 1); }
  }

  lemma KraftPush(lens: seq<nat>, x: nat)
    ensures Kraft(lens + [x]) == Kraft(lens) + if x == 0 then 0 else Unit(x)
    ensures Kraft([]) == 0
  {
    assert (lens + [x])[..|lens|] == lens;
  }

  lemma {:induction false} KraftIs(lens: seq<nat>)
    requires LengthsOk(lens)
    ensures Kraft(lens) == KraftTo(lens, 15)
  {
    KraftOfNone(15);
    if lens != [] {
      var t, x := lens[..|lens| - 1], lens[|lens| - 1];
      assert lens == t + [x];
      KraftIs(t);
      KraftPush(t, x);
      KraftToPush(t, x, 15);
    }
  }

  lemma {:induction false} KraftGrows(lens: seq<nat>, l: nat, m: nat)
    requires l <= m
    ensures KraftTo(lens, l) <= KraftTo(lens, m)
    decreases m
  {
    hide *;
    if l < m {
      KraftStep(lens, m);
      KraftGrows(lens, l, m - 1);
      Share(Count(lens, m), Unit(m));
    }
  }

  lemma Share(c: nat, u: nat)
    ensures 0 <= c * u
  {
  }

  /* ---- the listing by length, then by symbol ---- */

  /** Where symbol s comes in the listing. */
  ghost function Rank(lens: seq<nat>, s: nat): nat
    requires s < |lens|
  {
    Offset(lens, lens[s]) + Count(lens[..s], lens[s])
  }

  ghost predicate ListedAt(lens: seq<nat>, ws: seq<nat>, k: nat) {
    k < |ws| && ws[k] < |lens| && 1 <= lens[ws[k]] <= 15 && k == Rank(lens, ws[k])
  }

  ghost predicate FoundAt(lens: seq<nat>, ws: seq<nat>, s: nat) {
    s < |lens| && Rank(lens, s) < |ws| && ws[Rank(lens, s)] == s
  }

  /** ws lists the symbols that have a code. */
  ghost predicate Listing(lens: seq<nat>, ws: seq<nat>) {
    && |ws| == Offset(lens, 16)
    && (forall k: nat :: k < |ws| ==> ListedAt(lens, ws, k))
    && (forall s: nat :: s < |lens| && lens[s] > 0 ==> FoundAt(lens, ws, s))
  }

  /** The code lengths in the order of the listing. */
  ghost function Listed(lens: seq<nat>, ws: seq<nat>): (r: seq<nat>)
    requires Listing(lens, ws)
    ensures |r| == |ws| && forall k: nat :: k < |ws| ==> ListedAt(lens, ws, k) && r[k] == lens[ws[k]]
  {
    seq(|ws|, k requires 0 <= k < |ws| => assert ListedAt(lens, ws, k); lens[ws[k]])
  }

  /** ls gives the lengths in code order: k has length l just when it lies between the offsets. */
  ghost predicate InOrder(lens: seq<nat>, ls: seq<nat>) {
    && |ls| == Offset(lens, 16)
    && forall k: nat :: k < |ls| ==> LengthAt(lens, ls, k)
  }

  ghost predicate LengthAt(lens: seq<nat>, ls: seq<nat>, k: nat) {
    k < |ls| && 1 <= ls[k] <= 15 && Offset(lens, ls[k]) <= k < Offset(lens, ls[k] + 1)
  }

  lemma ListedInOrder(lens: seq<nat>, ws: seq<nat>)
    requires Listing(lens, ws)
    ensures InOrder(lens, Listed(lens, ws))
  {
    var ls := Listed(lens, ws);
    forall k: nat | k < |ls|
      ensures LengthAt(lens, ls, k)
    {
      assert ListedAt(lens, ws, k);
      CountRoom(lens, ws[k]);
      OffsetStep(lens, ls[k]);
    }
  }

  lemma LengthFacts(lens: seq<nat>, ls: seq<nat>, k: nat)
    requires InOrder(lens, ls) && k < |ls|
    ensures |ls| == Offset(lens, 16)
    ensures 1 <= ls[k] <= 15 && Offset(lens, ls[k]) <= k < Offset(lens, ls[k] + 1) <= |ls|
  {
    assert LengthAt(lens, ls, k);
    OffsetGrows(lens, ls[k] + 1, 16);
  }

  lemma LengthIs(lens: seq<nat>, ls: seq<nat>, k: nat, l: nat)
    requires InOrder(lens, ls) && k < |ls| && Offset(lens, l) <= k < Offset(lens, l + 1)
    ensures ls[k] == l
  {
    hide *;
    LengthFacts(lens, ls, k);
    if ls[k] < l { OffsetGrows(lens, ls[k] + 1, l); }
    if l < ls[k] { OffsetGrows(lens, l + 1, ls[k]); }
  }

  lemma LengthsGrow(lens: seq<nat>, ls: seq<nat>, i: nat, k: nat)
    requires InOrder(lens, ls) && i <= k < |ls|
    ensures ls[i] <= ls[k]
  {
    hide *;
    LengthFacts(lens, ls, i);
    LengthFacts(lens, ls, k);
    if ls[k] < ls[i] { OffsetGrows(lens, ls[k] + 1, ls[i]); }
  }

  /* ---- places in the code space ---- */

  /** Where the k-th code begins, in units of 2^-15. */
  ghost function Place(ls: seq<nat>, k: nat): nat
    requires k <= |ls|
  {
    if k == 0 then 0 else Place(ls, k - 1) + Unit(ls[k - 1])
  }

  lemma PlaceStep(ls: seq<nat>, k: nat)
    requires k < |ls|
    ensures Place(ls, 0) == 0 && Place(ls, k + 1) == Place(ls, k) + Unit(ls[k])
  {
  }

  lemma {:induction false} PlaceGrows(ls: seq<nat>, i: nat, k: nat)
    requires i <= k <= |ls|
    ensures Place(ls, i) <= Place(ls, k)
    decreases k
  {
    if i < k { PlaceGrows(ls, i, k - 1); }
  }

  /** Codes of length l lie evenly from the end of the shorter ones on. */
  lemma {:induction false} PlaceAt(lens: seq<nat>, ls: seq<nat>, l: nat, k: nat)
    requires InOrder(lens, ls) && 1 <= l <= 15 && Offset(lens, l) <= k <= Offset(lens, l + 1) && k <= |ls|
    ensures Place(ls, k) == KraftTo(lens, l - 1) + (k - Offset(lens, l)) * Unit(l)
    decreases l, k
  {
    hide *;
    OffsetStep(lens, l - 1);
    KraftStep(lens, l - 1);
    if k == Offset(lens, l) {
      NoUnits(Unit(l));
      if l == 1 {
        PlaceNone(ls);
      } else {
        PlaceAt(lens, ls, l - 1, k);
      }
    } else {
      PlaceAt(lens, ls, l, k - 1);
      LengthIs(lens, ls, k - 1, l);
      PlaceStep(ls, k - 1);
      Spread(k - 1 - Offset(lens, l), 1, Unit(l));
    }
  }

  lemma NoUnits(u: nat)
    ensures 0 * u == 0 && 1 * u == u
  {
  }

  lemma PlaceNone(ls: seq<nat>)
    ensures Place(ls, 0) == 0
  {
  }

  /** The code listed at k, as a number of its length. */
  ghost function CodeAt(lens: seq<nat>, ls: seq<nat>, k: nat): int
    requires k < |ls|
  {
    FirstCode(lens, ls[k]) + k - Offset(lens, ls[k])
  }

  lemma CodeAtIs(lens: seq<nat>, ls: seq<nat>, k: nat)
    requires k < |ls|
    ensures CodeAt(lens, ls, k) == FirstCode(lens, ls[k]) + k - Offset(lens, ls[k])
  {
  }

  /** A code begins at a multiple of its share. */
  lemma PlaceOfCode(lens: seq<nat>, ls: seq<nat>, k: nat)
    requires InOrder(lens, ls) && k < |ls|
    ensures 1 <= ls[k] <= 15 && CodeAt(lens, ls, k) >= 0
    ensures Place(ls, k) == CodeAt(lens, ls, k) * Unit(ls[k])
  {
    hide *;
    var l := ls[k];
    LengthFacts(lens, ls, k);
    CodeAtIs(lens, ls, k);
    PlaceAt(lens, ls, l, k);
    FirstCodeAt(lens, l);
    Spread(FirstCode(lens, l), k - Offset(lens, l), Unit(l));
  }

  /** All codes together take the share that the lengths say. */
  lemma PlaceEnd(lens: seq<nat>, ls: seq<nat>)
    requires InOrder(lens, ls) && LengthsOk(lens)
    ensures Place(ls, |ls|) == Kraft(lens)
  {
    hide *;
    InOrderSize(lens, ls);
    OffsetStep(lens, 15);
    PlaceAt(lens, ls, 15, |ls|);
    KraftStep(lens, 15);
    KraftIs(lens);
  }

  lemma InOrderSize(lens: seq<nat>, ls: seq<nat>)
    requires InOrder(lens, ls)
    ensures |ls| == Offset(lens, 16)
  {
  }
}
