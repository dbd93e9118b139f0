/** Which code the next bits of a stream begin with, told from where the bits lie in the code space. */
module CodePlaces {
  import opened Arithmetic
  import opened SetSums
  import opened BitReverse
  import opened DeflateCodes

  /** All codes fit the code space. */
  ghost predicate Fitting(lens: seq<nat>, ls: seq<nat>) {
    InOrder(lens, ls) && Place(ls, |ls|) <= 0x8000
  }

  lemma FittingParts(lens: seq<nat>, ls: seq<nat>)
    ensures Fitting(lens, ls) <==> InOrder(lens, ls) && Place(ls, |ls|) <= 0x8000
  {
  }

  /** The k-th code as the bits arrive, its first bit lowest. */
  ghost function Huff(ls: seq<nat>, k: nat): nat
    requires k <= |ls|
  {
    Rev(Place(ls, k), 15)
  }

  lemma HuffIs(ls: seq<nat>, k: nat)
    requires k <= |ls|
    ensures Huff(ls, k) == Rev(Place(ls, k), 15)
  {
  }

  /** The bits of h, lowest first, begin with the k-th code. */
  ghost predicate LeadsAt(ls: seq<nat>, k: nat, h: nat) {
    k < |ls| && h % Pow2(ls[k]) == Huff(ls, k)
  }

  lemma LeadsAtIs(ls: seq<nat>, k: nat, h: nat)
    requires k < |ls|
    ensures LeadsAt(ls, k, h) <==> h % Pow2(ls[k]) == Huff(ls, k)
  {
  }

  lemma UnitIs(l: nat)
    requires l <= 15
    ensures Unit(l) == Pow2(15 - l) && Pow2(l) * Unit(l) == 0x8000 && Pow2(15) == 0x8000
  {
    assert Pow2(15) == 0x8000;
    Pow2Add(l, 15 - l);
  }

  lemma PlaceRoom(lens: seq<nat>, ls: seq<nat>, k: nat)
    requires Fitting(lens, ls) && k < |ls|
    ensures Place(ls, k) + Unit(ls[k]) == Place(ls, k + 1) <= 0x8000
  {
    hide *;
    FittingParts(lens, ls);
    PlaceStep(ls, k);
    PlaceGrows(ls, k + 1, |ls|);
  }

  /** A code as number and as reversed bits. */
  lemma HuffOfCode(lens: seq<nat>, ls: seq<nat>, k: nat)
    requires Fitting(lens, ls) && k < |ls|
    ensures 1 <= ls[k] <= 15 && 0 <= CodeAt(lens, ls, k) < Pow2(ls[k])
    ensures Place(ls, k) == CodeAt(lens, ls, k) * Unit(ls[k])
    ensures Huff(ls, k) == Rev(CodeAt(lens, ls, k), ls[k]) < Pow2(ls[k])
  {
    hide *;
    FittingParts(lens, ls);
    PlaceOfCode(lens, ls, k);
    PlaceRoom(lens, ls, k);
    var c, l := CodeAt(lens, ls, k), ls[k];
    UnitIs(l);
    Spread(c, 1, Unit(l));
    Cancel(c + 1, Pow2(l), Unit(l));
    RevSplit(0, c, 15 - l, l);
    RevZero(15 - l);
    HuffIs(ls, k);
    RevBound(c, l);
    NoUnits(Pow2(l));
  }

  lemma QuotientIs(v: nat, c: nat, u: nat)
    requires u > 0
    ensures v / u == c <==> c * u <= v < c * u + u
  {
    if c * u <= v < c * u + u { DivUnique(v, u, c, v - c * u); }
    DivMod(v, u);
  }

  /** The bits begin with a code just when they lie in its share of the code space. */
  lemma LeadsPlace(lens: seq<nat>, ls: seq<nat>, k: nat, h: nat)
    requires Fitting(lens, ls) && k < |ls|
    ensures LeadsAt(ls, k, h) <==> Place(ls, k) <= Rev(h, 15) < Place(ls, k) + Unit(ls[k])
  {
    hide *;
    HuffOfCode(lens, ls, k);
    var c, l := CodeAt(lens, ls, k), ls[k];
    LeadsAtIs(ls, k, h);
    UnitIs(l);
    RevPrefix(h, l, 15);
    QuotientIs(Rev(h, 15), c, Unit(l));
    RevRev(c, l);
    RevRev(h % Pow2(l), l);
  }

  /** No bits begin with two codes. */
  lemma LeadsOnce(lens: seq<nat>, ls: seq<nat>, i: nat, k: nat, h: nat)
    requires Fitting(lens, ls) && LeadsAt(ls, i, h) && LeadsAt(ls, k, h)
    ensures i == k
  {
    hide *;
    LeadsIndex(ls, i, h);
    LeadsIndex(ls, k, h);
    LeadsPlace(lens, ls, i, h);
    LeadsPlace(lens, ls, k, h);
    PlaceRoom(lens, ls, i);
    PlaceRoom(lens, ls, k);
    if i < k { PlaceGrows(ls, i + 1, k); }
    if k < i { PlaceGrows(ls, k + 1, i); }
  }

  lemma LeadsIndex(ls: seq<nat>, k: nat, h: nat)
    requires LeadsAt(ls, k, h)
    ensures k < |ls|
  {
  }

  /** The code whose share holds v. */
  lemma {:induction false} ShareOf(ls: seq<nat>, n: nat, v: nat) returns (k: nat)
    requires n <= |ls| && v < Place(ls, n)
    ensures k < n && Place(ls, k) <= v < Place(ls, k + 1)
  {
    if Place(ls, n - 1) <= v {
      k := n - 1;
    } else {
      k := ShareOf(ls, n - 1, v);
    }
  }

  /** When the codes fill the code space, every stream begins with one. */
  lemma SomeLeads(lens: seq<nat>, ls: seq<nat>, h: nat) returns (k: nat)
    requires Fitting(lens, ls) && Place(ls, |ls|) == 0x8000
    ensures LeadsAt(ls, k, h)
  {
    hide *;
    RevBound(h, 15);
    UnitIs(15);
    k := ShareOf(ls, |ls|, Rev(h, 15));
    PlaceRoom(lens, ls, k);
    LeadsPlace(lens, ls, k, h);
  }

  /* ---- codes that share their first r bits ---- */

  ghost function Cell(ls: seq<nat>, k: nat, r: nat): nat
    requires k < |ls|
  {
    Quotient(Place(ls, k), Unit(r))
  }

  lemma CellIs(ls: seq<nat>, k: nat, r: nat)
    requires k < |ls|
    ensures Cell(ls, k, r) == Place(ls, k) / Unit(r)
  {
  }

  /** The first r bits of a code, as they arrive. */
  lemma CellOfHuff(lens: seq<nat>, ls: seq<nat>, k: nat, r: nat)
    requires Fitting(lens, ls) && k < |ls| && r <= 15
    ensures Huff(ls, k) % Pow2(r) < Pow2(r) && Rev(Huff(ls, k) % Pow2(r), r) == Cell(ls, k, r)
  {
    hide *;
    PlaceRoom(lens, ls, k);
    UnitIs(15);
    UnitIs(r);
    UnitPositive(ls[k]);
    RevRev(Place(ls, k), 15);
    HuffIs(ls, k);
    RevPrefix(Huff(ls, k), r, 15);
    CellIs(ls, k, r);
  }

  lemma UnitPositive(l: int)
    ensures Unit(l) > 0
  {
  }

  lemma SameCell(lens: seq<nat>, ls: seq<nat>, i: nat, k: nat, r: nat)
    requires Fitting(lens, ls) && i < |ls| && k < |ls| && r <= 15
    ensures Huff(ls, i) % Pow2(r) == Huff(ls, k) % Pow2(r) <==> Cell(ls, i, r) == Cell(ls, k, r)
  {
    hide *;
    CellOfHuff(lens, ls, i, r);
    CellOfHuff(lens, ls, k, r);
    RevRev(Huff(ls, i) % Pow2(r), r);
    RevRev(Huff(ls, k) % Pow2(r), r);
  }

  lemma CellGrows(ls: seq<nat>, i: nat, k: nat, r: nat)
    requires i <= k < |ls|
    ensures Cell(ls, i, r) <= Cell(ls, k, r)
  {
    hide *;
    PlaceGrows(ls, i, k);
    CellIs(ls, i, r);
    CellIs(ls, k, r);
    UnitPositive(r);
    QuotientGrows(Place(ls, i), Place(ls, k), Unit(r));
  }

  lemma QuotientGrows(a: nat, b: nat, u: nat)
    requires u > 0 && a <= b
    ensures a / u <= b / u
  {
    DivMod(a, u);
    DivMod(b, u);
    if b / u < a / u { ScaleUp2(b / u + 1, a / u, u); }
  }

  /** A larger share is a multiple of a smaller one. */
  lemma UnitDivides(r: nat, l: nat)
    requires r <= l <= 15
    ensures Unit(r) == Pow2(l - r) * Unit(l)
  {
    Pow2Add(l - r, 15 - l);
  }

  /** A code longer than r bits ends within its cell. */
  lemma EndsInCell(lens: seq<nat>, ls: seq<nat>, k: nat, r: nat)
    requires Fitting(lens, ls) && k < |ls| && r < ls[k]
    ensures Place(ls, k + 1) <= (Cell(ls, k, r) + 1) * Unit(r)
  {
    hide *;
    HuffOfCode(lens, ls, k);
    PlaceRoom(lens, ls, k);
    UnitDivides(r, ls[k]);
    UnitPositive(r);
    CellIs(ls, k, r);
    DivMod(Place(ls, k), Unit(r));
    Spread(Cell(ls, k, r), 1, Unit(r));
    NextMultiple(CodeAt(lens, ls, k), Cell(ls, k, r) + 1, Pow2(ls[k] - r), Unit(ls[k]));
  }

  lemma NextMultiple(c: nat, d: nat, p: nat, u: nat)
    requires c * u < d * (p * u)
    ensures c * u + u <= d * (p * u)
  {
    assert d * (p * u) == (d * p) * u;
    if d * p <= c { ScaleUp2(d * p, c, u); }
    ScaleUp2(c + 1, d * p, u);
    Spread(c, 1, u);
  }

  /** A code that starts a new cell starts at its beginning. */
  lemma StartsCell(lens: seq<nat>, ls: seq<nat>, k: nat, r: nat)
    requires Fitting(lens, ls) && k + 1 < |ls|
    requires r >= ls[k] || Cell(ls, k + 1, r) != Cell(ls, k, r)
    requires r <= 15
    ensures Place(ls, k + 1) == Cell(ls, k + 1, r) * Unit(r)
  {
    hide *;
    HuffOfCode(lens, ls, k);
    PlaceRoom(lens, ls, k);
    UnitPositive(r);
    CellIs(ls, k + 1, r);
    if r >= ls[k] {
      UnitDivides(ls[k], r);
      Spread(CodeAt(lens, ls, k), 1, Unit(ls[k]));
      MultipleOf(CodeAt(lens, ls, k) + 1, Pow2(r - ls[k]), Unit(r));
      NoUnits(Unit(ls[k]));
    } else {
      EndsInCell(lens, ls, k, r);
      CellGrows(ls, k, k + 1, r);
      DivMod(Place(ls, k + 1), Unit(r));
      ScaleUp2(Cell(ls, k, r) + 1, Cell(ls, k + 1, r), Unit(r));
    }
  }

  lemma MultipleOf(a: nat, p: nat, u: nat)
    requires u > 0
    ensures a * (p * u) == (a * (p * u)) / u * u
  {
    assert a * (p * u) == (a * p) * u;
    DivUnique((a * p) * u, u, a * p, 0);
  }
}
