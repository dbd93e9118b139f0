/** Steps through a listing of codes: the next code, the codes still to come, and how deep a group of them goes. */
module NextCodes {
  import opened Arithmetic
  import opened SetSums
  import opened Counting
  import opened BitReverse
  import opened DeflateCodes
  import opened CodePlaces

  /* ---- the next code, counted up from its last bit ---- */

  lemma RevAddBit(low: nat, j: nat)
    requires j < 15 && low < Pow2(j)
    ensures Rev(low + Pow2(j), 15) == Rev(low, 15) + Unit(j + 1)
  {
    hide *;
    RevSplit(low, 1, j, 15 - j);
    RevSplit(low, 0, j, 15 - j);
    RevZero(15 - j);
    RevStep(1, 15 - j);
    RevZero(14 - j);
    UnitIs(j + 1);
    NoUnits(Pow2(j));
    NoUnits(Pow2(14 - j));
  }

  /** One binary digit more of h. */
  lemma BitOf(h: nat, p: nat)
    requires p > 0
    ensures h % (2 * p) == h % p + (if h / p % 2 == 1 then p else 0)
  {
    var q, r := h / p, h % p;
    DivMod(h, p);
    var b := q % 2;
    assert q == 2 * (q / 2) + b;
    BitParts(q / 2, b, p);
    DivUnique(h, 2 * p, q / 2, b * p + r);
  }

  lemma BitParts(q: nat, b: nat, p: nat)
    requires b <= 1
    ensures (2 * q + b) * p == q * (2 * p) + b * p && b * p == if b == 1 then p else 0
  {
  }

  /** Bits j to len - 1 of the code are set; adding one turns them over. */
  ghost predicate Carrying(place: nat, len: nat, huff: nat, j: int) {
    -1 <= j < len <= 15 && place + Unit(len) == Rev(huff % Pow2(j + 1), 15) + Unit(j + 1)
  }

  lemma CarryStart(place: nat, len: nat, huff: nat)
    requires 1 <= len <= 15 && huff < Pow2(len) && Rev(huff, 15) == place
    ensures Carrying(place, len, huff, len - 1)
  {
    DivUnique(huff, Pow2(len), 0, huff);
  }

  lemma CarryingIs(place: nat, len: nat, huff: nat, j: int)
    requires -1 <= j
    ensures Pow2(j + 1) > 0
    ensures Carrying(place, len, huff, j)
        <==> j < len <= 15 && place + Unit(len) == Rev(huff % Pow2(j + 1), 15) + Unit(j + 1)
  {
  }

  lemma CarryOn(place: nat, len: nat, huff: nat, j: int)
    requires Carrying(place, len, huff, j) && j >= 0 && Pow2(j) > 0 && huff / Pow2(j) % 2 == 1
    ensures Carrying(place, len, huff, j - 1)
  {
    hide *;
    var p := Pow2(j);
    CarryingIs(place, len, huff, j);
    CarryingIs(place, len, huff, j - 1);
    RevStep(0, j + 1);
    BitOf(huff, p);
    Remainder(huff, p);
    CarryDown(place + Unit(len), huff % p, j);
  }

  lemma CarryDown(v: nat, low: nat, j: nat)
    requires j < 15 && low < Pow2(j) && v == Rev(low + Pow2(j), 15) + Unit(j + 1)
    ensures v == Rev(low, 15) + Unit(j)
  {
    hide *;
    UnitStep(j + 1);
    RevAddBit(low, j);
  }

  lemma CarryEnd(place: nat, len: nat, huff: nat, j: int)
    requires Carrying(place, len, huff, j) && j >= 0 && Pow2(j) > 0 && huff / Pow2(j) % 2 == 0
    ensures huff % Pow2(j) + Pow2(j) == Rev(place + Unit(len), 15)
  {
    hide *;
    CarryingIs(place, len, huff, j);
    RevStep(0, j + 1);
    BitOf(huff, Pow2(j));
    DivMod(huff, Pow2(j));
    CarrySet(place + Unit(len), huff % Pow2(j), j);
  }

  lemma CarrySet(v: nat, low: nat, j: nat)
    requires j < 15 && low < Pow2(j) && v == Rev(low, 15) + Unit(j + 1)
    ensures low + Pow2(j) == Rev(v, 15)
  {
    hide *;
    RevStep(0, j + 1);
    Pow2Grows(j + 1, 15);
    RevAddBit(low, j);
    RevRev(low + Pow2(j), 15);
  }

  lemma CarryOut(place: nat, len: nat, huff: nat)
    requires Carrying(place, len, huff, -1)
    ensures Rev(place + Unit(len), 15) == 0
  {
    hide *;
    CarryingIs(place, len, huff, -1);
    RevStep(1, 0);
    WholeRemainder(huff);
    RevZero(15);
    UnitIs(0);
    RevSplit(0, 1, 15, 0);
  }

  lemma WholeRemainder(x: nat)
    ensures x % 1 == 0 && 0 * 1 == 0
  {
  }

  /** The bit tested next, or 0 after the last. */
  ghost predicate BitAt(incr: nat, j: int) {
    incr == if j >= 0 then Pow2(j) else 0
  }

  lemma BitDown(incr: nat, j: int)
    requires BitAt(incr, j) && j >= 0
    ensures incr == Pow2(j) && BitAt(incr / 2, j - 1)
  {
  }

  lemma BitIs(incr: nat, j: int)
    requires BitAt(incr, j)
    ensures j >= 0 ==> Pow2(j) > 0
    ensures incr == (if j >= 0 then Pow2(j) else 0) && (incr > 0 <==> j >= 0)
  {
  }

  /** Counts a code up backwards, giving the next code of the same or a greater length. */
  method NextCode(huff: nat, len: nat, ghost place: nat) returns (next: nat)
    requires 1 <= len <= 15 && huff < Pow2(len) && Rev(huff, 15) == place
    ensures next == Rev(place + Unit(len), 15)
  {
    hide *;
    var incr: nat := Pow2(len - 1);
    ghost var j: int := len - 1;
    CarryStart(place, len, huff);
    BitFirst(j);
    while incr != 0 && huff / incr % 2 == 1
      invariant -1 <= j && Carrying(place, len, huff, j) && BitAt(incr, j)
      decreases j
    {
      BitIs(incr, j);
      CarryOn(place, len, huff, j);
      BitDown(incr, j);
      incr := incr / 2;
      j := j - 1;
    }
    BitIs(incr, j);
    if incr != 0 {
      DigitBelow(huff / incr);
      CarryEnd(place, len, huff, j);
      next := huff % incr + incr;
    } else {
      CarryOut(place, len, huff);
      next := 0;
    }
  }

  lemma BitFirst(j: int)
    requires j >= 0
    ensures BitAt(Pow2(j), j)
  {
  }

  lemma DigitBelow(x: nat)
    ensures x % 2 == 0 || x % 2 == 1
  {
  }

  /* ---- the codes still to come ---- */

  ghost function Max(a: int, b: int): int {
    if a < b then b else a
  }

  /** How many codes of length l come at k or later. */
  ghost function Remaining(lens: seq<nat>, k: nat, l: nat): int {
    Max(k, Offset(lens, l + 1)) - Max(k, Offset(lens, l))
  }

  ghost predicate CountsAre(lens: seq<nat>, k: nat, count: seq<int>) {
    |count| == 16 && forall l: nat :: 1 <= l <= 15 ==> count[l] == Remaining(lens, k, l)
  }

  lemma CountIs(lens: seq<nat>, k: nat, count: seq<int>, l: nat)
    requires CountsAre(lens, k, count) && 1 <= l <= 15
    ensures |count| == 16 && count[l] == Max(k, Offset(lens, l + 1)) - Max(k, Offset(lens, l))
  {
  }

  lemma CountsStart(lens: seq<nat>, count: seq<int>)
    requires |count| == 16 && forall l: nat :: 1 <= l <= 15 ==> count[l] == Count(lens, l)
    ensures CountsAre(lens, 0, count)
  {
    forall l: nat | 1 <= l <= 15
      ensures count[l] == Remaining(lens, 0, l)
    {
      OffsetStep(lens, l);
    }
  }

  /** Passing the code at k leaves one less of its length. */
  lemma CountDown(lens: seq<nat>, ls: seq<nat>, k: nat, count: seq<int>)
    requires InOrder(lens, ls) && k < |ls| && CountsAre(lens, k, count)
    ensures 1 <= ls[k] <= 15 && |count| == 16
    ensures CountsAre(lens, k + 1, count[ls[k] := count[ls[k]] - 1])
    ensures count[ls[k]] - 1 == Offset(lens, ls[k] + 1) - (k + 1)
  {
    LengthFacts(lens, ls, k);
    var c := count[ls[k] := count[ls[k]] - 1];
    forall l: nat | 1 <= l <= 15
      ensures c[l] == Remaining(lens, k + 1, l)
    {
      if l < ls[k] { OffsetGrows(lens, l + 1, ls[k]); }
      if l > ls[k] { OffsetGrows(lens, ls[k] + 1, l); }
      OffsetStep(lens, l);
    }
  }

  /** No code is longer than max, and one is as long. */
  ghost predicate Longest(lens: seq<nat>, max: nat) {
    1 <= max <= 15 && Offset(lens, max) < Offset(lens, max + 1) == Offset(lens, 16)
  }

  lemma LongestFacts(lens: seq<nat>, max: nat)
    requires Longest(lens, max)
    ensures 1 <= max <= 15 && Offset(lens, max) < Offset(lens, max + 1) == Offset(lens, 16)
  {
  }

  lemma AtMostLongest(lens: seq<nat>, ls: seq<nat>, max: nat, k: nat)
    requires InOrder(lens, ls) && Longest(lens, max) && k < |ls|
    ensures ls[k] <= max
  {
    LengthFacts(lens, ls, k);
    if max < ls[k] { OffsetGrows(lens, max + 1, ls[k]); }
  }

  /** Whether a code follows, and of which length. */
  lemma Following(lens: seq<nat>, ls: seq<nat>, max: nat, k: nat, left: int)
    requires InOrder(lens, ls) && Longest(lens, max) && k < |ls| && left == Offset(lens, ls[k] + 1) - (k + 1)
    ensures left >= 0
    ensures left == 0 && ls[k] == max ==> k + 1 == |ls|
    ensures left != 0 ==> k + 1 < |ls| && ls[k + 1] == ls[k]
    ensures left == 0 && ls[k] != max ==> k + 1 < |ls|
  {
    hide *;
    LengthFacts(lens, ls, k);
    LongestFacts(lens, max);
    AtMostLongest(lens, ls, max, k);
    if left != 0 {
      LengthIs(lens, ls, k + 1, ls[k]);
    } else if ls[k] != max {
      OffsetGrows(lens, ls[k] + 1, max);
    }
  }

  /* ---- how deep the codes of one cell go ---- */

  /** The codes from k on that share their first r bits with it are at most l long. */
  ghost predicate Deep(ls: seq<nat>, k: nat, r: nat, l: nat) {
    k < |ls| && forall i: nat :: k <= i < |ls| && Cell(ls, i, r) == Cell(ls, k, r) ==> ls[i] <= l
  }

  lemma DeepNext(ls: seq<nat>, k: nat, r: nat, l: nat)
    requires Deep(ls, k, r, l) && k + 1 < |ls| && Cell(ls, k + 1, r) == Cell(ls, k, r)
    ensures ls[k + 1] <= l && Deep(ls, k + 1, r, l)
  {
  }

  lemma DeepSelf(ls: seq<nat>, k: nat, r: nat, l: nat)
    requires Deep(ls, k, r, l)
    ensures k < |ls| && ls[k] <= l
  {
  }

  lemma DeepAll(lens: seq<nat>, ls: seq<nat>, k: nat, r: nat, max: nat)
    requires InOrder(lens, ls) && Longest(lens, max) && k < |ls|
    ensures Deep(ls, k, r, max)
  {
    forall i: nat | k <= i < |ls| && Cell(ls, i, r) == Cell(ls, k, r)
      ensures ls[i] <= max
    {
      AtMostLongest(lens, ls, max, i);
    }
  }

  /** The codes up to length l fill the cell that begins at k. */
  lemma DeepFilled(lens: seq<nat>, ls: seq<nat>, k: nat, r: nat, l: nat)
    requires Fitting(lens, ls) && k < |ls| && 1 <= l <= 15 && r <= 15 && Offset(lens, l + 1) <= |ls|
    requires Place(ls, Offset(lens, l + 1)) >= Place(ls, k) + Unit(r) && Offset(lens, l + 1) >= k
    ensures Deep(ls, k, r, l)
  {
    forall i: nat | k <= i < |ls| && Cell(ls, i, r) == Cell(ls, k, r)
      ensures ls[i] <= l
    {
      FilledStep(lens, ls, k, r, l, i);
    }
  }

  lemma FilledStep(lens: seq<nat>, ls: seq<nat>, k: nat, r: nat, l: nat, i: nat)
    requires Fitting(lens, ls) && k < |ls| && 1 <= l <= 15 && r <= 15 && Offset(lens, l + 1) <= |ls|
    requires Place(ls, Offset(lens, l + 1)) >= Place(ls, k) + Unit(r) && Offset(lens, l + 1) >= k
    requires k <= i < |ls| && Cell(ls, i, r) == Cell(ls, k, r)
    ensures ls[i] <= l
  {
    hide *;
    FittingParts(lens, ls);
    LengthFacts(lens, ls, i);
    if ls[i] > l {
      OffsetGrows(lens, l + 1, ls[i]);
      PlaceGrows(ls, Offset(lens, l + 1), i);
      UnitPositive(r);
      CellIs(ls, i, r);
      CellIs(ls, k, r);
      ApartCells(Place(ls, k), Place(ls, i), Unit(r));
    }
  }

  lemma ApartCells(a: nat, b: nat, u: nat)
    requires u > 0 && b >= a + u
    ensures b / u != a / u
  {
    DivMod(a, u);
    Spread(a / u, 1, u);
    QuotientAtLeast(b, u, a / u + 1);
  }

  /** The codes of length l from k on take this much of the code space. */
  lemma PlaceRun(lens: seq<nat>, ls: seq<nat>, k: nat, l: nat)
    requires InOrder(lens, ls) && 1 <= l <= 15 && k <= |ls|
    ensures 0 <= Max(k, Offset(lens, l)) <= Max(k, Offset(lens, l + 1)) <= |ls|
    ensures Place(ls, Max(k, Offset(lens, l + 1)))
            == Place(ls, Max(k, Offset(lens, l))) + Remaining(lens, k, l) * Unit(l)
  {
    InOrderSize(lens, ls);
    OffsetGrows(lens, l, l + 1);
    OffsetGrows(lens, l + 1, 16);
    if k < Offset(lens, l + 1) {
      var a: nat := Max(k, Offset(lens, l));
      PlaceAt(lens, ls, l, a);
      PlaceAt(lens, ls, l, Offset(lens, l + 1));
      Spread(a - Offset(lens, l), Offset(lens, l + 1) - a, Unit(l));
    }
  }

  /** left slots of length l stay free in the cell at k once all shorter codes are in. */
  ghost predicate Free(lens: seq<nat>, ls: seq<nat>, k: nat, r: nat, l: nat, left: int) {
    && InOrder(lens, ls) && k <= Max(k, Offset(lens, l)) <= |ls|
    && left * Unit(l) == Unit(r) - (Place(ls, Max(k, Offset(lens, l))) - Place(ls, k))
  }

  lemma FreeIs(lens: seq<nat>, ls: seq<nat>, k: nat, r: nat, l: nat, left: int)
    requires Free(lens, ls, k, r, l, left)
    ensures InOrder(lens, ls) && k <= Max(k, Offset(lens, l)) <= |ls|
    ensures left * Unit(l) == Unit(r) - (Place(ls, Max(k, Offset(lens, l))) - Place(ls, k))
  {
  }

  lemma FreeStart(lens: seq<nat>, ls: seq<nat>, k: nat, r: nat)
    requires InOrder(lens, ls) && k < |ls| && r <= ls[k] <= 15
    ensures Free(lens, ls, k, r, ls[k], Pow2(ls[k] - r))
  {
    LengthFacts(lens, ls, k);
    UnitDivides(r, ls[k]);
  }

  /** What is free of the cell after the codes of length l. */
  lemma FreeTaken(lens: seq<nat>, ls: seq<nat>, k: nat, r: nat, l: nat, left: int)
    requires Free(lens, ls, k, r, l, left) && 1 <= l <= 15
    ensures 0 <= Max(k, Offset(lens, l + 1)) <= |ls|
    ensures (left - Remaining(lens, k, l)) * Unit(l)
            == Unit(r) - (Place(ls, Max(k, Offset(lens, l + 1))) - Place(ls, k))
  {
    hide *;
    FreeIs(lens, ls, k, r, l, left);
    PlaceRun(lens, ls, k, l);
    Minus(left, Remaining(lens, k, l), Unit(l));
  }

  lemma Minus(a: int, b: int, u: int)
    ensures (a - b) * u == a * u - b * u
  {
  }

  lemma MaxIs(a: int, b: int)
    ensures Max(a, b) == if a < b then b else a
  {
  }

  lemma FreeNone(lens: seq<nat>, ls: seq<nat>, k: nat, r: nat, l: nat, left: int)
    requires Fitting(lens, ls) && Free(lens, ls, k, r, l, left) && 1 <= l <= 15 && r <= 15 && k < |ls|
    requires left > 0 && left - Remaining(lens, k, l) <= 0
    ensures Deep(ls, k, r, l)
  {
    hide *;
    FreeTaken(lens, ls, k, r, l, left);
    UnitPositive(l);
    Minus(0, left - Remaining(lens, k, l), Unit(l));
    Share2(Remaining(lens, k, l) - left, Unit(l));
    RemainingIs(lens, k, l);
    MaxIs(k, Offset(lens, l + 1));
    MaxIs(k, Offset(lens, l));
    OffsetGrows(lens, l, l + 1);
    DeepFilled(lens, ls, k, r, l);
  }

  lemma Share2(c: int, u: nat)
    requires c >= 0
    ensures c * u >= 0 && (0 - c) * u == 0 - c * u
  {
  }

  lemma RemainingIs(lens: seq<nat>, k: nat, l: nat)
    ensures Remaining(lens, k, l) == Max(k, Offset(lens, l + 1)) - Max(k, Offset(lens, l))
  {
  }

  lemma FreeOn(lens: seq<nat>, ls: seq<nat>, k: nat, r: nat, l: nat, left: int)
    requires Free(lens, ls, k, r, l, left) && 1 <= l < 15
    ensures Free(lens, ls, k, r, l + 1, 2 * (left - Remaining(lens, k, l)))
  {
    FreeTaken(lens, ls, k, r, l, left);
    UnitStep(l + 1);
    MaxIs(k, Offset(lens, l + 1));
    hide Remaining, Unit, Place;
    Twice(left - Remaining(lens, k, l), Unit(l + 1));
  }

  lemma Twice(a: int, u: int)
    ensures (2 * a) * u == a * (2 * u)
  {
  }

  /** The index bits of a table for the codes that share their first root bits with the one at k. */
  method SubTableBits(count: array<nat>, len: nat, root: nat, max: nat,
                      ghost lens: seq<nat>, ghost ls: seq<nat>, ghost k: nat)
    returns (curr: nat, ghost free: int)
    requires Fitting(lens, ls) && Longest(lens, max) && k < |ls| && CountsAre(lens, k, count[..])
    requires len == ls[k] && 1 <= root < len
    ensures len - root <= curr <= max - root && Deep(ls, k, root, root + curr)
    ensures free > 0 && Free(lens, ls, k, root, root + curr, free)
  {
    hide *;
    FittingParts(lens, ls);
    LengthFacts(lens, ls, k);
    LongestFacts(lens, max);
    AtMostLongest(lens, ls, max, k);
    DeepAll(lens, ls, k, root, max);
    FreeStart(lens, ls, k, root);
    PowPositive(len - root);
    curr := len - root;
    var left: int := Pow2(curr);
    free := left;
    while curr + root < max
      invariant len - root <= curr <= max - root
      invariant free == left > 0 && Free(lens, ls, k, root, curr + root, left)
      decreases max - curr
    {
      CountIs(lens, k, count[..], curr + root);
      RemainingIs(lens, k, curr + root);
      if left - count[curr + root] <= 0 {
        FreeNone(lens, ls, k, root, curr + root, left);
        return;
      }
      FreeOn(lens, ls, k, root, curr + root, left);
      left := left - count[curr + root];
      curr := curr + 1;
      left := 2 * left;
      free := left;
    }
  }

  lemma PowPositive(n: int)
    ensures Pow2(n) > 0
  {
  }
}
