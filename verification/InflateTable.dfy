/** The two-level decoding tables of inflate, built from code lengths. */
module InflateTable {
  import opened Arithmetic
  import opened SetSums
  import opened Counting
  import opened BitReverse
  import opened DeflateCodes
  import opened CodePlaces
  import opened NextCodes
  import opened TableLayout
  import opened SymbolSort

  /* ---- the space the tables take ---- */

  /** The greatest length of a code from k on with the same first r bits. */
  ghost function Depth(ls: seq<nat>, r: nat, k: nat): nat
    requires k < |ls|
    decreases |ls| - k
  {
    if k + 1 < |ls| && Cell(ls, k + 1, r) == Cell(ls, k, r) then Depth(ls, r, k + 1) else ls[k]
  }

  /** The code at k is longer than r bits and the first with its first r bits. */
  ghost predicate Opens(ls: seq<nat>, r: nat, k: nat)
    requires k < |ls|
  {
    ls[k] > r && (k == 0 || Cell(ls, k, r) != Cell(ls, k - 1, r))
  }

  /** The entries of the root table and of a second table for every r bits that longer codes begin with. */
  ghost function Space(ls: seq<nat>, r: nat, k: nat): nat
    requires k <= |ls|
  {
    if k == 0 then Pow2(r)
    else Space(ls, r, k - 1) + if Opens(ls, r, k - 1) then Pow2(Depth(ls, r, k - 1) - r) else 0
  }

  lemma SpaceStep(ls: seq<nat>, r: nat, k: nat)
    requires k < |ls|
    ensures Space(ls, r, 0) == Pow2(r)
    ensures Space(ls, r, k + 1) == Space(ls, r, k) + if Opens(ls, r, k) then Pow2(Depth(ls, r, k) - r) else 0
  {
  }

  lemma {:induction false} SpaceGrows(ls: seq<nat>, r: nat, i: nat, k: nat)
    requires i <= k <= |ls|
    ensures Space(ls, r, i) <= Space(ls, r, k)
    decreases k
  {
    if i < k { SpaceGrows(ls, r, i, k - 1); }
  }

  lemma OpensIs(ls: seq<nat>, r: nat, k: nat)
    requires k < |ls|
    ensures Opens(ls, r, k) <==> ls[k] > r && (k == 0 || Cell(ls, k, r) != Cell(ls, k - 1, r))
  {
  }

  lemma {:induction false} DepthAtMost(ls: seq<nat>, r: nat, k: nat, l: nat)
    requires Deep(ls, k, r, l)
    ensures k < |ls| && Depth(ls, r, k) <= l
    decreases |ls| - k
  {
    DeepSelf(ls, k, r, l);
    if k + 1 < |ls| && Cell(ls, k + 1, r) == Cell(ls, k, r) {
      DeepNext(ls, k, r, l);
      DepthAtMost(ls, r, k + 1, l);
    }
  }

  lemma {:induction false} DepthAtLeast(lens: seq<nat>, ls: seq<nat>, r: nat, k: nat, i: nat)
    requires InOrder(lens, ls) && k <= i < |ls| && Cell(ls, i, r) == Cell(ls, k, r)
    ensures Depth(ls, r, k) >= ls[i]
    decreases |ls| - k
  {
    if k < i {
      CellGrows(ls, k, k + 1, r);
      CellGrows(ls, k + 1, i, r);
      DepthAtLeast(lens, ls, r, k + 1, i);
    } else if k + 1 < |ls| && Cell(ls, k + 1, r) == Cell(ls, k, r) {
      DepthAtLeast(lens, ls, r, k + 1, k + 1);
      LengthsGrow(lens, ls, k, k + 1);
    }
  }

  /** While a cell is not full, a code of at least length l is still to come in it. */
  lemma DeepEnough(lens: seq<nat>, ls: seq<nat>, k: nat, r: nat, l: nat, left: int)
    requires Fitting(lens, ls) && Place(ls, |ls|) == 0x8000 && k < |ls| && r <= 15 && 1 <= l <= 15
    requires Place(ls, k) == Cell(ls, k, r) * Unit(r) && Free(lens, ls, k, r, l, left) && left > 0
    ensures Depth(ls, r, k) >= l
  {
    hide *;
    FreeIs(lens, ls, k, r, l, left);
    FittingParts(lens, ls);
    var m: nat := Max(k, Offset(lens, l));
    MaxIs(k, Offset(lens, l));
    UnitPositive(l);
    UnitPositive(r);
    Positive(left, Unit(l));
    PlaceRoom(lens, ls, k);
    UnitPositive(ls[k]);
    CellEnds(Cell(ls, k, r), r);
    PlaceGrows(ls, k, m);
    if m < |ls| {
      CellIs(ls, m, r);
      DivUnique(Place(ls, m), Unit(r), Cell(ls, k, r), Place(ls, m) - Place(ls, k));
      DepthAtLeast(lens, ls, r, k, m);
      LengthFacts(lens, ls, m);
      if ls[m] < l { OffsetGrows(lens, ls[m] + 1, l); }
    }
  }

  lemma CellEnds(c: nat, r: nat)
    requires r <= 15 && c * Unit(r) < 0x8000
    ensures c * Unit(r) + Unit(r) <= 0x8000
  {
    UnitIs(r);
    var u := Unit(r);
    hide *;
    if Pow2(r) <= c { ScaleUp2(Pow2(r), c, u); }
    ScaleUp2(c + 1, Pow2(r), u);
    Spread(c, 1, u);
  }

  /** The look-ahead finds exactly the bits the second table needs. */
  lemma DepthIs(lens: seq<nat>, ls: seq<nat>, k: nat, r: nat, curr: nat, left: int)
    requires Fitting(lens, ls) && Place(ls, |ls|) == 0x8000 && k < |ls| && 1 <= r <= 15 && r + curr <= 15
    requires Place(ls, k) == Cell(ls, k, r) * Unit(r) && Free(lens, ls, k, r, r + curr, left) && left > 0
    requires Deep(ls, k, r, r + curr)
    ensures Depth(ls, r, k) == r + curr
  {
    hide *;
    DeepEnough(lens, ls, k, r, r + curr, left);
    DepthAtMost(ls, r, k, r + curr);
  }

  /* ---- making the tables ---- */

  /** How many entries the caller has set aside. */
  function Room(ct: CodeType, bits: nat): (r: nat) {
    match ct
    case CODES => Pow2(bits)
    case LENS => 852
    case DISTS => 592
  }

  /** Writes an entry at every 2^d-th index of the table at next, from hd on. */
  method Replicate(table: array<Code>, at: nat, next: nat, curr: nat, d: nat, hd: nat, here: Code)
    requires at <= table.Length && at + next + Pow2(curr) <= table.Length && d <= curr && hd < Pow2(d)
    modifies table
    ensures table[..at] == old(table[..at])
    ensures Pow2(d) > 0 && Copied(old(table[at..]), table[at..], next, Pow2(curr), Pow2(d), hd, here, 0)
  {
    hide *;
    ghost var first, t := table[..at], table[at..];
    ghost var u := t;
    ghost var m := Pow2(curr - d);
    Pow2Add(curr - d, d);
    PowPositive(curr - d);
    PowPositive(d);
    CopyNone(t, next, Pow2(curr), Pow2(d), hd, here);
    var incr := Pow2(d);
    var fill := Pow2(curr);
    while true
      invariant m > 0 && fill == m * incr <= Pow2(curr)
      invariant first == table[..at] && u == table[at..]
      invariant Copied(t, u, next, Pow2(curr), incr, hd, here, fill)
      decreases m
    {
      CopyMore(t, u, next, Pow2(curr), incr, hd, here, m);
      Minus(m, 1, incr);
      NoUnits(incr);
      fill := fill - incr;
      table[at + next + hd + fill] := here;
      u := u[next + hd + fill := here];
      m := m - 1;
      assert table[..at] == first;
      if fill == 0 {
        break;
      }
      NotNone(m, incr);
    }
  }

  lemma NotNone(m: nat, p: nat)
    requires m * p != 0
    ensures m > 0
  {
  }

  /** The tables with the first k codes filled in, and room for the next. */
  ghost predicate Building(t: seq<Code>, y: Layout, lens: seq<nat>, ls: seq<nat>, ws: seq<nat>, ct: CodeType, k: nat,
                           used: nat)
  {
    && Fitting(lens, ls) && LayoutOk(t, y) && Placed(y, ls, k) && GoodUpTo(t, y, ls, ws, ct, k)
    && used == y.next + Pow2(y.curr) && k < |ls| && used == Space(ls, y.root, k + 1)
  }

  lemma BuildingParts(t: seq<Code>, y: Layout, lens: seq<nat>, ls: seq<nat>, ws: seq<nat>, ct: CodeType, k: nat,
                      used: nat)
    ensures Building(t, y, lens, ls, ws, ct, k, used)
        <==> && Fitting(lens, ls) && LayoutOk(t, y) && Placed(y, ls, k) && GoodUpTo(t, y, ls, ws, ct, k)
             && used == y.next + Pow2(y.curr) && k < |ls| && used == Space(ls, y.root, k + 1)
  {
  }

  /** All of k's codes are in. */
  ghost predicate Built(t: seq<Code>, y: Layout, lens: seq<nat>, ls: seq<nat>, ws: seq<nat>, ct: CodeType, k: nat,
                        used: nat)
  {
    && Fitting(lens, ls) && LayoutOk(t, y) && 0 < k <= |ls| && Placed(y, ls, k - 1) && GoodUpTo(t, y, ls, ws, ct, k)
    && used == y.next + Pow2(y.curr) && used == Space(ls, y.root, k)
  }

  lemma BuiltParts(t: seq<Code>, y: Layout, lens: seq<nat>, ls: seq<nat>, ws: seq<nat>, ct: CodeType, k: nat, used: nat)
    ensures Built(t, y, lens, ls, ws, ct, k, used)
        <==> && Fitting(lens, ls) && LayoutOk(t, y) && 0 < k <= |ls| && Placed(y, ls, k - 1)
             && GoodUpTo(t, y, ls, ws, ct, k)
             && used == y.next + Pow2(y.curr) && used == Space(ls, y.root, k)
  {
  }

  /** The code at k fits the table now filled. */
  lemma FillFits(t: seq<Code>, y: Layout, lens: seq<nat>, ls: seq<nat>, ws: seq<nat>, ct: CodeType, k: nat, used: nat)
    requires Building(t, y, lens, ls, ws, ct, k, used)
    ensures k < |ls| && Drop(y) <= ls[k] <= Drop(y) + y.curr && 1 <= ls[k] <= 15 && ls[k] - Drop(y) >= 1
    ensures FirstIndex(y, Huff(ls, k)) < Pow2(ls[k] - Drop(y)) && Huff(ls, k) < Pow2(ls[k])
    ensures y.next + Pow2(y.curr) <= |t|
  {
    hide *;
    BuildingParts(t, y, lens, ls, ws, ct, k, used);
    LayoutParts(t, y);
    HuffOfCode(lens, ls, k);
    DropIs(y);
    if y.low < 0 { PlacedRoot(y, ls, k); } else { PlacedSub(y, ls, k); }
    Pow2Add(ls[k] - Drop(y), Drop(y));
    FirstIndexIs(y, Huff(ls, k));
    QuotientBound(Huff(ls, k), Pow2(Drop(y)), Pow2(ls[k] - Drop(y)));
  }

  lemma FirstIndexIs(y: Layout, huff: nat)
    ensures Pow2(Drop(y)) > 0 && FirstIndex(y, huff) == huff / Pow2(Drop(y))
  {
  }

  lemma BuiltOne(t: seq<Code>, u: seq<Code>, y: Layout, lens: seq<nat>, ls: seq<nat>, ws: seq<nat>, ct: CodeType,
                 k: nat, used: nat)
    requires Building(t, y, lens, ls, ws, ct, k, used)
    requires |ws| == |ls| && k < |ls| && ws[k] < Alphabet(ct) && Drop(y) <= ls[k] <= 15 && Pow2(ls[k] - Drop(y)) > 0
    requires Copied(t, u, y.next, Pow2(y.curr), Pow2(ls[k] - Drop(y)), FirstIndex(y, Huff(ls, k)),
                    SymbolEntry(ct, ws[k], ls[k] - Drop(y)), 0)
    ensures Built(u, y, lens, ls, ws, ct, k + 1, used)
  {
    hide *;
    BuildingParts(t, y, lens, ls, ws, ct, k, used);
    BuiltParts(u, y, lens, ls, ws, ct, k + 1, used);
    FilledIs(t, u, y, ls[k], Huff(ls, k), SymbolEntry(ct, ws[k], ls[k] - Drop(y)));
    FillGood(t, u, y, lens, ls, ws, k, ct);
  }

  lemma FilledIs(t: seq<Code>, u: seq<Code>, y: Layout, len: nat, huff: nat, e: Code)
    requires Drop(y) <= len
    ensures Pow2(len - Drop(y)) > 0
    ensures Filled(t, u, y, len, huff, e)
        <==> Copied(t, u, y.next, Pow2(y.curr), Pow2(len - Drop(y)), FirstIndex(y, huff), e, 0)
  {
  }

  /** The next code goes into the same table. */
  lemma BuildOn(t: seq<Code>, y: Layout, lens: seq<nat>, ls: seq<nat>, ws: seq<nat>, ct: CodeType, k: nat, used: nat)
    requires Built(t, y, lens, ls, ws, ct, k, used) && k < |ls|
    requires ls[k] <= y.root || Huff(ls, k) % Pow2(y.root) == y.low
    ensures Building(t, y, lens, ls, ws, ct, k, used)
  {
    hide *;
    BuiltParts(t, y, lens, ls, ws, ct, k, used);
    BuildingParts(t, y, lens, ls, ws, ct, k, used);
    LayoutParts(t, y);
    FittingParts(lens, ls);
    LengthsGrow(lens, ls, k - 1, k);
    PowPositive(y.root);
    if y.low >= 0 { PlacedSub(y, ls, k - 1); }
    PlacedNext(y, lens, ls, k - 1);
    SpaceStep(ls, y.root, k);
    OpensIs(ls, y.root, k);
    if y.low >= 0 { SameCell(lens, ls, k - 1, k, y.root); }
  }

  /** The next code needs a table of its own. */
  lemma OpensNow(t: seq<Code>, y: Layout, lens: seq<nat>, ls: seq<nat>, ws: seq<nat>, ct: CodeType, k: nat, used: nat)
    requires Built(t, y, lens, ls, ws, ct, k, used) && k < |ls|
    requires y.root < ls[k] && Huff(ls, k) % Pow2(y.root) != y.low
    ensures LayoutOk(t, y) && OpensCell(y, lens, ls, k) && Opens(ls, y.root, k)
    ensures 1 <= y.root <= 15 && Place(ls, k) == Cell(ls, k, y.root) * Unit(y.root)
  {
    BuiltParts(t, y, lens, ls, ws, ct, k, used);
    LayoutParts(t, y);
    hide *;
    PowPositive(y.root);
    OpensMade(y, lens, ls, k);
    OpensIs(ls, y.root, k);
    if y.low < 0 {
      PlacedRoot(y, ls, k - 1);
      NewCell(lens, ls, k - 1, y.root);
    } else {
      PlacedSub(y, ls, k - 1);
      SameCell(lens, ls, k - 1, k, y.root);
    }
    StartsCell(lens, ls, k - 1, y.root);
  }

  lemma OpensMade(y: Layout, lens: seq<nat>, ls: seq<nat>, k: nat)
    requires Fitting(lens, ls) && 0 < k < |ls| && Placed(y, ls, k - 1) && y.root < ls[k]
    requires Huff(ls, k) % Pow2(y.root) != y.low
    ensures OpensCell(y, lens, ls, k)
  {
  }

  lemma NewCell(lens: seq<nat>, ls: seq<nat>, k: nat, r: nat)
    requires Fitting(lens, ls) && k + 1 < |ls| && ls[k] <= r <= 15
    ensures Cell(ls, k, r) != Cell(ls, k + 1, r)
  {
    hide *;
    HuffOfCode(lens, ls, k);
    PlaceRoom(lens, ls, k);
    UnitIs(r);
    UnitIs(ls[k]);
    Pow2Grows(15 - r, 15 - ls[k]);
    CellIs(ls, k, r);
    CellIs(ls, k + 1, r);
    UnitPositive(r);
    ApartCells(Place(ls, k), Place(ls, k + 1), Unit(r));
  }

  /** With its link set, the new table takes the next code. */
  lemma BuildNew(t: seq<Code>, y: Layout, z: Layout, lens: seq<nat>, ls: seq<nat>, ws: seq<nat>, ct: CodeType, k: nat,
                 used: nat)
    requires Built(t, y, lens, ls, ws, ct, k, used) && k < |ls|
    requires y.root < ls[k] && Huff(ls, k) % Pow2(y.root) != y.low
    requires z == Layout(y.root, used, z.curr, Huff(ls, k) % Pow2(y.root))
    requires 1 <= z.curr <= 15 && used + Pow2(z.curr) <= |t| && used <= 0xffff
    requires Deep(ls, k, y.root, y.root + z.curr) && Depth(ls, y.root, k) == y.root + z.curr
    ensures 0 <= z.low < |t| && z.curr < 256 && z.root < 256 && z.next <= 0xffff
    ensures Building(t[z.low := Code(z.curr, z.root, z.next)], z, lens, ls, ws, ct, k, used + Pow2(z.curr))
  {
    hide *;
    OpensNow(t, y, lens, ls, ws, ct, k, used);
    BuiltParts(t, y, lens, ls, ws, ct, k, used);
    FollowsMade(t, y, z, ls, k);
    LinkGood(t, y, z, lens, ls, ws, k, ct);
    SpaceStep(ls, y.root, k);
    PlacedNew(z, ls, k);
    BuildingParts(t[z.low := Code(z.curr, z.root, z.next)], z, lens, ls, ws, ct, k, used + Pow2(z.curr));
  }

  lemma FollowsMade(t: seq<Code>, y: Layout, z: Layout, ls: seq<nat>, k: nat)
    requires k < |ls| && z.root == y.root && z.next == y.next + Pow2(y.curr) <= 0xffff
    requires 1 <= z.curr <= 15 && z.next + Pow2(z.curr) <= |t| && z.low == Huff(ls, k) % Pow2(y.root)
    ensures Follows(t, y, z, ls, k)
  {
  }

  lemma PlacedNew(z: Layout, ls: seq<nat>, k: nat)
    requires k < |ls| && z.low >= 0 && Huff(ls, k) % Pow2(z.root) == z.low && ls[k] > z.root
    requires Deep(ls, k, z.root, z.root + z.curr)
    ensures Placed(z, ls, k)
  {
  }

  /** The root table stands ready for the first code. */
  lemma BuildStart(t: seq<Code>, root: nat, lens: seq<nat>, ls: seq<nat>, ws: seq<nat>, ct: CodeType)
    requires Fitting(lens, ls) && |ws| == |ls| > 0 && ls[0] <= root && 1 <= root <= 15 && Pow2(root) <= |t|
    ensures Building(t, Layout(root, 0, root, -1), lens, ls, ws, ct, 0, Pow2(root))
  {
    GoodNone(t, Layout(root, 0, root, -1), ls, ws, ct);
    SpaceStep(ls, root, 0);
    OpensIs(ls, root, 0);
  }

  lemma ListedFacts(lens: seq<nat>, ws: seq<nat>, k: nat)
    requires Listing(lens, ws) && k < |ws|
    ensures |Listed(lens, ws)| == |ws| && ws[k] < |lens| && lens[ws[k]] == Listed(lens, ws)[k]
  {
    assert ListedAt(lens, ws, k);
  }

  lemma SubFacts(t: seq<Code>, y: Layout, lens: seq<nat>, ls: seq<nat>, ws: seq<nat>, ct: CodeType, root: nat, max: nat,
                 k: nat, used: nat)
    requires Built(t, y, lens, ls, ws, ct, k, used) && k < |ls| && root < ls[k] && root == y.root >= 1
    requires Longest(lens, max) && (Place(ls, |ls|) == 0x8000 || max == 1) && (ct == CODES ==> max <= root)
    ensures ct != CODES && Place(ls, |ls|) == 0x8000 && Room(ct, root) <= 852
    ensures Fitting(lens, ls) && used == y.next + Pow2(y.curr) == Space(ls, root, k) && LayoutOk(t, y)
    ensures 1 <= max <= 15
  {
    BuiltParts(t, y, lens, ls, ws, ct, k, used);
    AtMostLongest(lens, ls, max, k);
    LongestFacts(lens, max);
  }

  /** Starts a second table at next for the code at k, and links the root table to it. */
  method OpenTable(ct: CodeType, table: array<Code>, at: nat, count: array<nat>, len: nat, root: nat, max: nat,
                   huff: nat, next: nat, ghost lens: seq<nat>, ghost ls: seq<nat>, ghost ws: seq<nat>, ghost k: nat,
                   ghost y: Layout)
    returns (ret: int, curr: nat, low: nat)
    requires at + Room(ct, root) <= table.Length && root == y.root >= 1
    requires Built(table[at..], y, lens, ls, ws, ct, k, next) && k < |ls|
    requires len == ls[k] > root && huff == Huff(ls, k) && huff % Pow2(root) != y.low
    requires Longest(lens, max) && CountsAre(lens, k, count[..]) && (Place(ls, |ls|) == 0x8000 || max == 1)
    requires ct == CODES ==> max <= root
    modifies table
    ensures table[..at] == old(table[..at]) && ct != CODES
    ensures ret == 0 || ret == 1
    ensures ret == 1 ==> Space(ls, root, k + 1) > Room(ct, root)
    ensures ret == 0 ==>
              && next + Pow2(curr) <= Room(ct, root)
              && Building(table[at..], Layout(root, next, curr, low), lens, ls, ws, ct, k, next + Pow2(curr))
  {
    hide *;
    ghost var t, first := table[at..], table[..at];
    OpensNow(t, y, lens, ls, ws, ct, k, next);
    OpensParts(y, lens, ls, k);
    SubFacts(t, y, lens, ls, ws, ct, root, max, k, next);
    ghost var free;
    curr, free := SubTableBits(count, len, root, max, lens, ls, k);
    DepthIs(lens, ls, k, root, curr, free);
    SpaceStep(ls, root, k);
    low := huff % Pow2(root);
    ret := 0;
    if next + Pow2(curr) > Room(ct, root) {
      return 1, curr, low;
    }
    BuildNew(t, y, Layout(root, next, curr, low), lens, ls, ws, ct, k, next);
    table[at + low] := Code(curr, root, next);
    assert table[at..] == t[low := Code(curr, root, next)];
    assert table[..at] == first;
  }

  /** Fills in the tables code by code; 1 when they outgrow the room set aside. */
  method BuildTables(ct: CodeType, lens: array<nat>, start: nat, codes: nat, table: array<Code>, at: nat,
                     work: array<nat>, count: array<nat>, root: nat, min: nat, max: nat,
                     ghost ls: seq<nat>, ghost ws: seq<nat>)
    returns (ret: int, used: nat, huff: nat, next: nat, left: nat, ghost y: Layout)
    requires start + codes <= lens.Length && codes <= work.Length && codes <= Alphabet(ct)
    requires work != lens && count != lens && count != work && count.Length == 16
    requires var ln: seq<nat> := lens[start..start + codes];
             && Listing(ln, ws) && ls == Listed(ln, ws) && Fitting(ln, ls) && |ws| <= codes && ws == work[..|ws|]
             && Longest(ln, max) && Shortest(ln, min) && min <= root <= max && CountsAre(ln, 0, count[..])
             && (Place(ls, |ls|) == 0x8000 || max == 1)
    requires ct == CODES ==> max <= root
    requires at + Room(ct, root) <= table.Length
    modifies table, count
    ensures table[..at] == old(table[..at])
    ensures ret == 0 || ret == 1
    ensures ret == 1 <==> ct != CODES && Space(ls, root, |ls|) > Room(ct, root)
    ensures ret == 0 ==>
              && at <= table.Length && y.root == root
              && Built(table[at..], y, lens[start..start + codes], ls, ws, ct, |ls|, used)
              && huff == Huff(ls, |ls|) && next == y.next && left == ls[|ls| - 1] - Drop(y)
  {
    hide *;
    ghost var ln: seq<nat> := lens[start..start + codes];
    ghost var first, t, c := table[..at], table[at..], count[..];
    ret, used, huff, next, left := 0, Pow2(root), 0, 0, 0;
    y := Layout(root, 0, root, -1);
    StartFacts(ct, ln, ls, ws, root, min, max);
    SpaceStep(ls, root, 0);
    SpaceGrows(ls, root, 0, |ls|);
    if ct != CODES && used > Room(ct, root) {
      ret := 1;
      return;
    }
    BuildStart(t, root, ln, ls, ws, ct);
    DropIs(y);
    var sym: nat, len: nat, curr: nat, drop: nat, low: int := 0, min, root, 0, -1;
    while true
      invariant ln == lens[start..start + codes] && ws == work[..|ws|]
      invariant first == table[..at] && t == table[at..] && c == count[..]
      invariant y == Layout(root, next, curr, low) && drop == Drop(y) && Building(t, y, ln, ls, ws, ct, sym, used)
      invariant sym < |ls| && len == ls[sym] && huff == Huff(ls, sym) && CountsAre(ln, sym, c)
      invariant ct != CODES ==> used <= Room(ct, root)
      decreases |ls| - sym
    {
      FillFits(t, y, ln, ls, ws, ct, sym, used);
      FirstIndexIs(y, huff);
      ListedFacts(ln, ws, sym);
      var here := SymbolEntry(ct, work[sym], len - drop);
      Replicate(table, at, next, curr, len - drop, huff / Pow2(drop), here);
      BuiltOne(t, table[at..], y, ln, ls, ws, ct, sym, used);
      t := table[at..];
      StepFacts(ln, ls, max, sym, c);
      huff := NextCode(huff, len, Place(ls, sym));
      count[len] := count[len] - 1;
      c := c[len := c[len] - 1];
      sym := sym + 1;
      if count[len] == 0 {
        if len == max {
          break;
        }
        ListedFacts(ln, ws, sym);
        assert lens[start + work[sym]] == ln[ws[sym]];
        len := lens[start + work[sym]];
      }
      BuiltParts(t, y, ln, ls, ws, ct, sym, used);
      if len > root && huff % Pow2(root) != low {
        drop := root;
        next := next + Pow2(curr);
        ret, curr, low := OpenTable(ct, table, at, count, len, root, max, huff, next, ln, ls, ws, sym, y);
        SpaceGrows(ls, root, sym + 1, |ls|);
        if ret != 0 {
          return;
        }
        used := used + Pow2(curr);
        t := table[at..];
        y := Layout(root, next, curr, low);
        DropIs(y);
      } else {
        BuildOn(t, y, ln, ls, ws, ct, sym, used);
      }
    }
    BuiltParts(t, y, ln, ls, ws, ct, |ls|, used);
    left := len - drop;
  }

  lemma StartFacts(ct: CodeType, lens: seq<nat>, ls: seq<nat>, ws: seq<nat>, root: nat, min: nat, max: nat)
    requires Listing(lens, ws) && ls == Listed(lens, ws) && Fitting(lens, ls)
    requires Longest(lens, max) && Shortest(lens, min) && min <= root <= max
    ensures |ws| == |ls| > 0 && ls[0] == min && 1 <= root <= 15 && Huff(ls, 0) == 0 && Pow2(root) > 0
    ensures ct != CODES ==> Room(ct, root) <= 852
    ensures ct == CODES ==> Room(ct, root) == Pow2(root)
  {
    LengthIs(lens, ls, 0, min);
    RevZero(15);
    LongestFacts(lens, max);
    FittingParts(lens, ls);
    InOrderSize(lens, ls);
    OffsetGrows(lens, min + 1, 16);
  }

  /** From one code to the next. */
  lemma StepFacts(lens: seq<nat>, ls: seq<nat>, max: nat, k: nat, count: seq<int>)
    requires Fitting(lens, ls) && Longest(lens, max) && k < |ls| && CountsAre(lens, k, count)
    ensures |count| == 16 && 1 <= ls[k] <= 15 && Huff(ls, k) < Pow2(ls[k]) && Rev(Huff(ls, k), 15) == Place(ls, k)
    ensures Rev(Place(ls, k) + Unit(ls[k]), 15) == Huff(ls, k + 1)
    ensures CountsAre(lens, k + 1, count[ls[k] := count[ls[k]] - 1]) && count[ls[k]] >= 1
    ensures count[ls[k]] == 1 && ls[k] == max ==> k + 1 == |ls|
    ensures count[ls[k]] != 1 ==> k + 1 < |ls| && ls[k + 1] == ls[k]
    ensures count[ls[k]] == 1 && ls[k] != max ==> k + 1 < |ls|
  {
    hide *;
    FittingParts(lens, ls);
    HuffOfCode(lens, ls, k);
    HuffIs(ls, k);
    HuffIs(ls, k + 1);
    PlaceRoom(lens, ls, k);
    UnitIs(15);
    UnitPositive(ls[k]);
    RevRev(Place(ls, k), 15);
    CountDown(lens, ls, k, count);
    Following(lens, ls, max, k, count[ls[k]] - 1);
  }

  /* ---- what the tables are for ---- */

  ghost predicate NoneLeads(lens: seq<nat>, h: nat) {
    forall s: nat :: !Leads(lens, s, h)
  }

  /** Whatever the bits, they begin with the code of some symbol. */
  ghost predicate Complete(lens: seq<nat>) {
    forall h: nat :: !NoneLeads(lens, h)
  }

  /** The bits of a code that its last table uses up. */
  function LastBits(len: nat, root: nat): nat {
    if len <= root then len else len - root
  }

  /** The bits h, which begin with the code of s, find the entry of s and use up that code. */
  ghost predicate Reaches(t: seq<Code>, root: nat, lens: seq<nat>, ct: CodeType, s: nat, h: nat) {
    && s < |lens| <= Alphabet(ct) && lens[s] <= 15
    && Finds(t, root, h, SymbolEntry(ct, s, LastBits(lens[s], root)), lens[s])
  }

  /** A link comes after all the bits that index the root table. */
  ghost predicate LinkWhole(t: seq<Code>, root: nat, h: nat) {
    h % Pow2(root) < |t| && (IsLink(t[h % Pow2(root)]) ==> t[h % Pow2(root)].bits == root)
  }

  /** The tables take every string of bits to the symbol it begins with, or to the entry for no symbol. That no symbol
      begins the bits shows in the first of them. */
  ghost predicate TablesFor(t: seq<Code>, root: nat, lens: seq<nat>, ct: CodeType) {
    && 1 <= root <= 15
    && (forall s: nat, h: nat :: Leads(lens, s, h) ==> Reaches(t, root, lens, ct, s, h))
    && (forall h: nat :: NoneLeads(lens, h) ==> Finds(t, root, h, InvalidEntry(), 1))
    && (forall h: nat, g: nat :: NoneLeads(lens, h) && g % 2 == h % 2 ==> NoneLeads(lens, g))
    && (forall h: nat :: LinkWhole(t, root, h))
  }

  lemma GoodFinds(t: seq<Code>, y: Layout, h: nat, ct: CodeType, sym: nat, len: nat)
    requires Good(t, y, h, ct, sym, len)
    ensures sym < Alphabet(ct) && len <= 15 && Finds(t, y.root, h, SymbolEntry(ct, sym, LastBits(len, y.root)), len)
  {
  }

  /** A symbol's own code and its place in the listing say the same. */
  lemma LeadsListed(lens: seq<nat>, ws: seq<nat>, ls: seq<nat>, k: nat, h: nat)
    requires Listing(lens, ws) && ls == Listed(lens, ws) && Fitting(lens, ls) && k < |ws|
    ensures |ls| == |ws| && ws[k] < |lens| && ls[k] == lens[ws[k]] > 0
    ensures Leads(lens, ws[k], h) <==> LeadsAt(ls, k, h)
  {
    hide *;
    ListedFacts(lens, ws, k);
    CodeListed(lens, ws, ls, k);
    HuffOfCode(lens, ls, k);
    LeadsAtIs(ls, k, h);
    LeadsIs(lens, ws[k], h);
  }

  lemma CodeListed(lens: seq<nat>, ws: seq<nat>, ls: seq<nat>, k: nat)
    requires Listing(lens, ws) && ls == Listed(lens, ws) && k < |ws|
    ensures |ls| == |ws| && ws[k] < |lens| && CodeAt(lens, ls, k) == CodeOf(lens, ws[k])
  {
    assert ListedAt(lens, ws, k);
  }

  lemma LeadsIs(lens: seq<nat>, s: nat, h: nat)
    requires s < |lens|
    ensures Leads(lens, s, h) <==> lens[s] > 0 && h % Pow2(lens[s]) == Rev(CodeOf(lens, s), lens[s])
  {
  }

  lemma SymbolListed(lens: seq<nat>, ws: seq<nat>, s: nat)
    requires Listing(lens, ws) && s < |lens| && lens[s] > 0
    ensures Rank(lens, s) < |ws| && ws[Rank(lens, s)] == s
  {
    assert FoundAt(lens, ws, s);
  }

  lemma LeadsSymbol(lens: seq<nat>, s: nat, h: nat)
    requires Leads(lens, s, h)
    ensures s < |lens| && lens[s] > 0
  {
  }

  lemma BuiltReaches(t: seq<Code>, y: Layout, lens: seq<nat>, ls: seq<nat>, ws: seq<nat>, ct: CodeType, used: nat,
                     s: nat, h: nat)
    requires Listing(lens, ws) && ls == Listed(lens, ws) && |lens| <= Alphabet(ct)
    requires Built(t, y, lens, ls, ws, ct, |ls|, used) && Leads(lens, s, h)
    ensures Reaches(t, y.root, lens, ct, s, h)
  {
    hide *;
    BuiltParts(t, y, lens, ls, ws, ct, |ls|, used);
    LeadsSymbol(lens, s, h);
    SymbolListed(lens, ws, s);
    var k := Rank(lens, s);
    LeadsListed(lens, ws, ls, k, h);
    GoodAt(t, y, ls, ws, ct, |ls|, k, h);
    GoodFinds(t, y, h, ct, s, lens[s]);
    ReachesIs(t, y.root, lens, ct, s, h);
  }

  lemma ReachesIs(t: seq<Code>, root: nat, lens: seq<nat>, ct: CodeType, s: nat, h: nat)
    requires s < |lens| <= Alphabet(ct) && lens[s] <= 15
    ensures LastBits(lens[s], root) <= 15
    ensures Reaches(t, root, lens, ct, s, h)
        <==> Finds(t, root, h, SymbolEntry(ct, s, LastBits(lens[s], root)), lens[s])
  {
  }

  lemma SomeSymbolLeads(lens: seq<nat>, ws: seq<nat>, ls: seq<nat>, h: nat)
    requires Listing(lens, ws) && ls == Listed(lens, ws) && Fitting(lens, ls) && Place(ls, |ls|) == 0x8000
    ensures !NoneLeads(lens, h)
  {
    var k := SomeLeads(lens, ls, h);
    LeadsListed(lens, ws, ls, k, h);
  }

  lemma AllLead(lens: seq<nat>, ws: seq<nat>, ls: seq<nat>)
    requires Listing(lens, ws) && ls == Listed(lens, ws) && Fitting(lens, ls) && Place(ls, |ls|) == 0x8000
    ensures Complete(lens)
  {
    hide *;
    forall h: nat
      ensures !NoneLeads(lens, h)
    {
      SomeSymbolLeads(lens, ws, ls, h);
    }
    CompleteIs(lens);
  }

  lemma CompleteIs(lens: seq<nat>)
    requires forall h: nat :: !NoneLeads(lens, h)
    ensures Complete(lens)
  {
  }

  /** A code that fills the code space. */
  lemma CompleteTables(t: seq<Code>, y: Layout, lens: seq<nat>, ls: seq<nat>, ws: seq<nat>, ct: CodeType, used: nat)
    requires Listing(lens, ws) && ls == Listed(lens, ws) && |lens| <= Alphabet(ct)
    requires Built(t, y, lens, ls, ws, ct, |ls|, used) && Place(ls, |ls|) == 0x8000
    ensures TablesFor(t, y.root, lens, ct)
  {
    BuiltParts(t, y, lens, ls, ws, ct, |ls|, used);
    forall s: nat, h: nat | Leads(lens, s, h)
      ensures Reaches(t, y.root, lens, ct, s, h)
    {
      BuiltReaches(t, y, lens, ls, ws, ct, used, s, h);
    }
    LayoutParts(t, y);
    forall h: nat
      ensures !NoneLeads(lens, h) && LinkWhole(t, y.root, h)
    {
      SomeSymbolLeads(lens, ws, ls, h);
      LinkOfCode(t, y, lens, ls, ws, ct, used, h);
    }
  }

  lemma LinkOfCode(t: seq<Code>, y: Layout, lens: seq<nat>, ls: seq<nat>, ws: seq<nat>, ct: CodeType, used: nat, h: nat)
    requires Built(t, y, lens, ls, ws, ct, |ls|, used) && Place(ls, |ls|) == 0x8000
    ensures LinkWhole(t, y.root, h)
  {
    BuiltParts(t, y, lens, ls, ws, ct, |ls|, used);
    hide *;
    var k := SomeLeads(lens, ls, h);
    LeadsIndex(ls, k, h);
    GoodAt(t, y, ls, ws, ct, |ls|, k, h);
    WholeLink(t, y, h, ct, ws[k], ls[k]);
  }

  lemma WholeLink(t: seq<Code>, y: Layout, h: nat, ct: CodeType, sym: nat, len: nat)
    requires Good(t, y, h, ct, sym, len)
    ensures LinkWhole(t, y.root, h)
  {
  }

  /* ---- a single code of one bit ---- */

  lemma LoneFacts(t: seq<Code>, y: Layout, lens: seq<nat>, ls: seq<nat>, ws: seq<nat>, ct: CodeType, used: nat)
    requires Built(t, y, lens, ls, ws, ct, |ls|, used) && Place(ls, |ls|) < 0x8000 && Longest(lens, 1) && y.root == 1
    ensures |ls| == 1 && ls[0] == 1 && Huff(ls, 0) == 0 && Huff(ls, 1) == 1 && y == Layout(1, 0, 1, y.low)
    ensures y.low < 0 && |t| >= 2 && Fitting(lens, ls)
  {
    hide *;
    BuiltParts(t, y, lens, ls, ws, ct, |ls|, used);
    LayoutParts(t, y);
    FittingParts(lens, ls);
    HuffOfCode(lens, ls, 0);
    AtMostLongest(lens, ls, 1, 0);
    AtMostLongest(lens, ls, 1, |ls| - 1);
    PlaceStep(ls, 0);
    UnitIs(1);
    RevStep(0, 1);
    RevStep(0, 0);
    if |ls| > 1 {
      HuffOfCode(lens, ls, 1);
      AtMostLongest(lens, ls, 1, 1);
      PlaceStep(ls, 1);
      PlaceGrows(ls, 2, |ls|);
    }
    if y.low >= 0 { PlacedSub(y, ls, |ls| - 1); }
    HuffIs(ls, 0);
    HuffIs(ls, 1);
    RevZero(15);
    HalfSpace();
  }

  lemma HalfSpace()
    ensures Rev(0x4000, 15) == 1 && Pow2(1) == 2 && Unit(1) == 0x4000
  {
    hide *;
    SmallPowersOf2();
    Pow2Add(7, 7);
    UnitIs(1);
    RevSplit(0, 1, 14, 1);
    RevStep(1, 1);
    RevStep(0, 0);
    RevZero(14);
    assert 0 + Pow2(14) * 1 == 0x4000 && 14 + 1 == 15;
  }

  lemma SmallPowersOf2()
    ensures Pow2(0) == 1 && Pow2(1) == 2 && Pow2(7) == 128
  {
  }

  /** The one code is the bit 0. */
  lemma LoneLeads(lens: seq<nat>, ws: seq<nat>, ls: seq<nat>, h: nat)
    requires Listing(lens, ws) && ls == Listed(lens, ws) && Fitting(lens, ls)
    requires |ls| == 1 && ls[0] == 1 && Huff(ls, 0) == 0
    ensures Pow2(1) == 2 && (NoneLeads(lens, h) <==> h % 2 == 1)
  {
    HalfSpace();
    hide Rev, Huff, Place, Offset, FirstCode, CodeAt, Count, Pow2, Listing, Listed, Leads, LeadsAt, Fitting, CodeOf;
    LeadsListed(lens, ws, ls, 0, h);
    LeadsAtIs(ls, 0, h);
    DigitBelow(h);
    forall s: nat | Leads(lens, s, h)
      ensures s == ws[0]
    {
      LeadsSymbol(lens, s, h);
      SymbolListed(lens, ws, s);
    }
  }

  lemma LoneReaches(t: seq<Code>, y: Layout, lens: seq<nat>, ls: seq<nat>, ws: seq<nat>, ct: CodeType, used: nat,
                    s: nat, h: nat)
    requires Listing(lens, ws) && ls == Listed(lens, ws) && |lens| <= Alphabet(ct)
    requires Built(t, y, lens, ls, ws, ct, |ls|, used) && Place(ls, |ls|) < 0x8000 && Longest(lens, 1) && y.root == 1
    requires Leads(lens, s, h)
    ensures |t| >= 2 && Reaches(t[1 := InvalidEntry()], 1, lens, ct, s, h)
  {
    hide *;
    LoneFacts(t, y, lens, ls, ws, ct, used);
    var u := t[1 := InvalidEntry()];
    BuiltParts(t, y, lens, ls, ws, ct, |ls|, used);
    LeadsSymbol(lens, s, h);
    SymbolListed(lens, ws, s);
    LeadsListed(lens, ws, ls, 0, h);
    GoodAt(t, y, ls, ws, ct, |ls|, 0, h);
    LeadsAtIs(ls, 0, h);
    HalfSpace();
    GoodRoot(t, y, h, ct, s, 1);
    GoodRoot(u, y, h, ct, s, 1);
    GoodFinds(u, y, h, ct, s, 1);
    ReachesIs(u, 1, lens, ct, s, h);
  }

  lemma InvalidFound(t: seq<Code>, h: nat)
    requires |t| >= 2 && t[1] == InvalidEntry() && h % 2 == 1 && Pow2(1) == 2
    ensures Finds(t, 1, h, InvalidEntry(), 1)
  {
  }

  lemma LoneReachAll(t: seq<Code>, y: Layout, lens: seq<nat>, ls: seq<nat>, ws: seq<nat>, ct: CodeType, used: nat)
    requires Listing(lens, ws) && ls == Listed(lens, ws) && |lens| <= Alphabet(ct)
    requires Built(t, y, lens, ls, ws, ct, |ls|, used) && Place(ls, |ls|) < 0x8000 && Longest(lens, 1) && y.root == 1
    ensures |t| >= 2
    ensures forall s: nat, h: nat :: Leads(lens, s, h) ==> Reaches(t[1 := InvalidEntry()], 1, lens, ct, s, h)
  {
    hide *;
    LoneFacts(t, y, lens, ls, ws, ct, used);
    var u := t[1 := InvalidEntry()];
    forall s: nat, h: nat | Leads(lens, s, h)
      ensures Reaches(u, 1, lens, ct, s, h)
    {
      LoneReaches(t, y, lens, ls, ws, ct, used, s, h);
    }
  }

  lemma LoneNone(t: seq<Code>, lens: seq<nat>, ls: seq<nat>, ws: seq<nat>)
    requires Listing(lens, ws) && ls == Listed(lens, ws) && Fitting(lens, ls)
    requires |ls| == 1 && ls[0] == 1 && Huff(ls, 0) == 0 && |t| >= 2 && t[1] == InvalidEntry()
    ensures forall h: nat :: NoneLeads(lens, h) ==> Finds(t, 1, h, InvalidEntry(), 1)
    ensures forall h: nat, g: nat :: NoneLeads(lens, h) && g % 2 == h % 2 ==> NoneLeads(lens, g)
  {
    hide *;
    forall h: nat | NoneLeads(lens, h)
      ensures Finds(t, 1, h, InvalidEntry(), 1)
    {
      LoneLeads(lens, ws, ls, h);
      InvalidFound(t, h);
    }
    forall h: nat, g: nat | NoneLeads(lens, h) && g % 2 == h % 2
      ensures NoneLeads(lens, g)
    {
      LoneLeads(lens, ws, ls, h);
      LoneLeads(lens, ws, ls, g);
    }
  }

  lemma LoneTables(t: seq<Code>, y: Layout, lens: seq<nat>, ls: seq<nat>, ws: seq<nat>, ct: CodeType, used: nat)
    requires Listing(lens, ws) && ls == Listed(lens, ws) && |lens| <= Alphabet(ct)
    requires Built(t, y, lens, ls, ws, ct, |ls|, used) && Place(ls, |ls|) < 0x8000 && Longest(lens, 1) && y.root == 1
    ensures |t| >= 2 && TablesFor(t[1 := InvalidEntry()], 1, lens, ct)
  {
    hide Leads, Reaches, Built, Place, Longest, Finds, Listing, NoneLeads, LinkWhole, InvalidEntry;
    LoneFacts(t, y, lens, ls, ws, ct, used);
    LoneReachAll(t, y, lens, ls, ws, ct, used);
    var u := t[1 := InvalidEntry()];
    LoneNone(u, lens, ls, ws);
    forall h: nat
      ensures LinkWhole(u, 1, h)
    {
      LoneLink(t, y, lens, ls, ws, ct, used, h);
    }
  }

  lemma LoneLink(t: seq<Code>, y: Layout, lens: seq<nat>, ls: seq<nat>, ws: seq<nat>, ct: CodeType, used: nat, h: nat)
    requires Built(t, y, lens, ls, ws, ct, |ls|, used) && Place(ls, |ls|) < 0x8000 && Longest(lens, 1) && y.root == 1
    ensures |t| >= 2 && LinkWhole(t[1 := InvalidEntry()], 1, h)
  {
    hide *;
    LoneFacts(t, y, lens, ls, ws, ct, used);
    BuiltParts(t, y, lens, ls, ws, ct, |ls|, used);
    var u := t[1 := InvalidEntry()];
    HalfSpace();
    LinkWholeIs(u, h);
    if h % 2 == 0 {
      LeadsAtIs(ls, 0, h);
      GoodAt(t, y, ls, ws, ct, |ls|, 0, h);
      GoodRoot(t, y, h, ct, ws[0], 1);
    }
  }

  lemma LinkWholeIs(t: seq<Code>, h: nat)
    requires Pow2(1) == 2 && |t| >= 2
    ensures !IsLink(t[h % 2]) ==> LinkWhole(t, 1, h)
  {
  }

  /* ---- only the entries made matter ---- */

  lemma GoodCut(t: seq<Code>, y: Layout, h: nat, ct: CodeType, sym: nat, len: nat)
    requires LayoutOk(t, y) && Good(t, y, h, ct, sym, len)
    ensures y.next + Pow2(y.curr) <= |t| && Good(t[..y.next + Pow2(y.curr)], y, h, ct, sym, len)
  {
    hide *;
    LayoutParts(t, y);
    PowPositive(y.root);
    DivMod(h, Pow2(y.root));
    var j, u := h % Pow2(y.root), t[..y.next + Pow2(y.curr)];
    assert j < |u|;
    assert u[j] == t[j];
    if len <= y.root {
      GoodRoot(t, y, h, ct, sym, len);
      GoodRoot(u, y, h, ct, sym, len);
    } else {
      GoodSub(t, y, h, ct, sym, len);
      GoodSub(u, y, h, ct, sym, len);
      SecondIs(t[j], h);
      assert u[SecondIndex(t[j], h)] == t[SecondIndex(t[j], h)];
    }
  }

  lemma LayoutCut(t: seq<Code>, y: Layout)
    requires LayoutOk(t, y)
    ensures y.next + Pow2(y.curr) <= |t| && LayoutOk(t[..y.next + Pow2(y.curr)], y)
  {
    hide *;
    LayoutParts(t, y);
    LayoutMade(t[..y.next + Pow2(y.curr)], y);
  }

  /** The tables stand by themselves: no bits lead to an entry behind them. */
  lemma BuiltCut(t: seq<Code>, y: Layout, lens: seq<nat>, ls: seq<nat>, ws: seq<nat>, ct: CodeType, k: nat, used: nat)
    requires Built(t, y, lens, ls, ws, ct, k, used)
    ensures used <= |t| && Built(t[..used], y, lens, ls, ws, ct, k, used)
  {
    hide *;
    BuiltParts(t, y, lens, ls, ws, ct, k, used);
    LayoutCut(t, y);
    GoodUpToCut(t, y, ls, ws, ct, k);
    BuiltParts(t[..used], y, lens, ls, ws, ct, k, used);
  }

  lemma LayoutPartsOnly(t: seq<Code>, y: Layout)
    requires LayoutOk(t, y)
    ensures y.next + Pow2(y.curr) <= |t|
  {
    LayoutParts(t, y);
  }

  lemma GoodUpToCut(t: seq<Code>, y: Layout, ls: seq<nat>, ws: seq<nat>, ct: CodeType, k: nat)
    requires LayoutOk(t, y) && GoodUpTo(t, y, ls, ws, ct, k)
    ensures y.next + Pow2(y.curr) <= |t| && GoodUpTo(t[..y.next + Pow2(y.curr)], y, ls, ws, ct, k)
  {
    LayoutPartsOnly(t, y);
    hide Good, LayoutOk, LeadsAt, Pow2;
    var u := t[..y.next + Pow2(y.curr)];
    forall i: nat, h: nat | i < k && LeadsAt(ls, i, h)
      ensures Good(u, y, h, ct, ws[i], ls[i])
    {
      GoodAt(t, y, ls, ws, ct, k, i, h);
      GoodCut(t, y, h, ct, ws[i], ls[i]);
    }
  }

  lemma FindsMore(t: seq<Code>, u: seq<Code>, root: nat, h: nat, e: Code, n: nat)
    requires Finds(t, root, h, e, n)
    ensures Finds(t + u, root, h, e, n)
  {
  }

  /** What lies behind the tables does not matter. */
  lemma TablesMore(t: seq<Code>, u: seq<Code>, root: nat, lens: seq<nat>, ct: CodeType)
    requires TablesFor(t, root, lens, ct)
    ensures TablesFor(t + u, root, lens, ct)
  {
    hide Finds, Leads, NoneLeads, LinkWhole;
    forall s: nat, h: nat | Leads(lens, s, h)
      ensures Reaches(t + u, root, lens, ct, s, h)
    {
      assert Reaches(t, root, lens, ct, s, h);
      FindsMore(t, u, root, h, SymbolEntry(ct, s, LastBits(lens[s], root)), lens[s]);
    }
    forall h: nat | NoneLeads(lens, h)
      ensures Finds(t + u, root, h, InvalidEntry(), 1)
    {
      FindsMore(t, u, root, h, InvalidEntry(), 1);
    }
    forall h: nat
      ensures LinkWhole(t + u, root, h)
    {
      LinkWholeMore(t, u, root, h);
    }
  }

  lemma LinkWholeMore(t: seq<Code>, u: seq<Code>, root: nat, h: nat)
    requires LinkWhole(t, root, h)
    ensures LinkWhole(t + u, root, h)
  {
  }

  /** Without codes longer than the root index there is only the root table. */
  lemma {:induction false} SpaceFlat(ls: seq<nat>, r: nat, k: nat)
    requires k <= |ls| && forall i :: 0 <= i < k ==> ls[i] <= r
    ensures Space(ls, r, k) == Pow2(r)
  {
    if k > 0 { SpaceFlat(ls, r, k - 1); }
  }

  /** Tables that were made do not take more than the room set aside. */
  lemma SpaceInRoom(ct: CodeType, lens: seq<nat>, ls: seq<nat>, root: nat, max: nat)
    requires Fitting(lens, ls) && Longest(lens, max) && (ct == CODES ==> max <= root)
    requires ct != CODES ==> Space(ls, root, |ls|) <= Room(ct, root)
    ensures Space(ls, root, |ls|) <= Room(ct, root)
  {
    hide Fitting, Longest, Space;
    FittingParts(lens, ls);
    if ct == CODES {
      forall i | 0 <= i < |ls|
        ensures ls[i] <= root
      {
        AtMostLongest(lens, ls, max, i);
      }
      SpaceFlat(ls, root, |ls|);
    }
  }

  /* ---- the whole builder ---- */

  ghost predicate SomeCode(lens: seq<nat>) {
    exists s: nat :: s < |lens| && lens[s] > 0
  }

  ghost predicate SomeLonger(lens: seq<nat>) {
    exists s: nat :: s < |lens| && lens[s] > 1
  }

  /** Lengths that are no code: too many for the code space, or too few unless one code of one bit is allowed. */
  ghost predicate Refused(ct: CodeType, lens: seq<nat>) {
    && SomeCode(lens)
    && (Kraft(lens) > 0x8000 || (Kraft(lens) < 0x8000 && (ct == CODES || SomeLonger(lens))))
  }

  lemma SomeCodeIs(lens: seq<nat>)
    requires LengthsOk(lens)
    ensures SomeCode(lens) <==> Offset(lens, 16) != 0
  {
    if SomeCode(lens) {
      var s: nat :| s < |lens| && lens[s] > 0;
      RankWithin(lens, s);
    }
    if Offset(lens, 16) != 0 {
      var l := LengthOf(lens, 0, 16);
      OffsetStep(lens, l);
      assert lens[..|lens|] == lens;
      var s := Occurrence(lens, l, 0, |lens|);
    }
  }

  lemma SomeLongerIs(lens: seq<nat>, max: nat)
    requires LengthsOk(lens) && Longest(lens, max)
    ensures SomeLonger(lens) <==> max != 1
  {
    LongestFacts(lens, max);
    if SomeLonger(lens) {
      var s: nat :| s < |lens| && lens[s] > 1;
      RankWithin(lens, s);
      OffsetGrows(lens, 2, lens[s]);
    }
    if max != 1 {
      OffsetStep(lens, max);
      assert lens[..|lens|] == lens;
      var s := Occurrence(lens, max, 0, |lens|);
    }
  }

  /** The index bits of the root table: as asked for, but within the lengths in use. */
  ghost function RootBits(bits: nat, ls: seq<nat>): nat {
    if ls == [] then 1
    else if bits > ls[|ls| - 1] then ls[|ls| - 1]
    else if bits < ls[0] then ls[0] else bits
  }

  /** The tables outgrow the room set aside for them. */
  ghost predicate TooLarge(ct: CodeType, bits: nat, ls: seq<nat>) {
    ct != CODES && ls != [] && Space(ls, RootBits(bits, ls), |ls|) > Room(ct, bits)
  }

  ghost predicate AllWithin(lens: seq<nat>, most: nat) {
    forall s :: 0 <= s < |lens| ==> lens[s] <= most
  }

  /** The tables for a code outgrow the room set aside for them. */
  ghost predicate Overflows(ct: CodeType, bits: nat, lens: seq<nat>) {
    exists ls :: InOrder(lens, ls) && TooLarge(ct, bits, ls)
  }

  lemma OverflowsIs(ct: CodeType, bits: nat, lens: seq<nat>, ls: seq<nat>)
    requires InOrder(lens, ls)
    ensures Overflows(ct, bits, lens) <==> TooLarge(ct, bits, ls)
  {
    if Overflows(ct, bits, lens) {
      var ms :| InOrder(lens, ms) && TooLarge(ct, bits, ms);
      OrderUnique(lens, ls, ms);
    }
  }

  lemma OverflowsNot(ct: CodeType, bits: nat, lens: seq<nat>)
    requires Offset(lens, 16) == 0
    ensures !Overflows(ct, bits, lens)
  {
    forall ms | InOrder(lens, ms)
      ensures !TooLarge(ct, bits, ms)
    {
      InOrderSize(lens, ms);
    }
  }

  lemma OrderUnique(lens: seq<nat>, ls: seq<nat>, ms: seq<nat>)
    requires InOrder(lens, ls) && InOrder(lens, ms)
    ensures ls == ms
  {
    forall k: nat | k < |ls|
      ensures ls[k] == ms[k]
    {
      LengthFacts(lens, ms, k);
      LengthIs(lens, ls, k, ms[k]);
    }
  }

  /** The ends of the listing, and the bits of the root table. */
  lemma RootFacts(lens: seq<nat>, ls: seq<nat>, bits: nat, min: nat, max: nat, root: nat)
    requires InOrder(lens, ls) && Shortest(lens, min) && Longest(lens, max) && min <= max
    requires root == if bits > max then max else if bits < min then min else bits
    ensures ls != [] && ls[0] == min && ls[|ls| - 1] == max && root == RootBits(bits, ls) && min <= root <= max
  {
    LongestFacts(lens, max);
    InOrderSize(lens, ls);
    LengthIs(lens, ls, 0, min);
    LengthIs(lens, ls, |ls| - 1, max);
  }

  lemma FittingIs(lens: seq<nat>, ws: seq<nat>)
    requires LengthsOk(lens) && Listing(lens, ws)
    ensures InOrder(lens, Listed(lens, ws)) && Place(Listed(lens, ws), |Listed(lens, ws)|) == Kraft(lens)
    ensures Kraft(lens) <= 0x8000 ==> Fitting(lens, Listed(lens, ws))
  {
    ListedInOrder(lens, ws);
    PlaceEnd(lens, Listed(lens, ws));
  }

  /** No bits find a symbol when no symbol has a code. */
  lemma EmptyTables(t: seq<Code>, lens: seq<nat>, ct: CodeType)
    requires !SomeCode(lens) && |t| >= 2 && t[0] == t[1] == InvalidEntry()
    ensures TablesFor(t, 1, lens, ct)
  {
    HalfSpace();
    forall s: nat, h: nat
      ensures !Leads(lens, s, h)
    {
      if Leads(lens, s, h) { LeadsSymbol(lens, s, h); }
    }
  }

  lemma CountsMade(lens: seq<nat>, count: seq<int>)
    requires |count| == 16 && forall l: nat :: l < 16 ==> count[l] == Count(lens, l)
    ensures CountsFrom(lens, count)
  {
  }

  lemma CountsReady(lens: seq<nat>, count: seq<int>)
    requires CountsFrom(lens, count)
    ensures |count| == 16 && CountsAre(lens, 0, count)
  {
    CountsStart(lens, count);
  }

  lemma RefusedIs(ct: CodeType, lens: seq<nat>)
    ensures Refused(ct, lens)
        <==> && SomeCode(lens)
             && (Kraft(lens) > 0x8000 || (Kraft(lens) < 0x8000 && (ct == CODES || SomeLonger(lens))))
  {
  }

  lemma CompleteEnd(ls: seq<nat>)
    requires Place(ls, |ls|) == 0x8000
    ensures Huff(ls, |ls|) == 0
  {
    assert Pow2(15) == 0x8000;
    RevSplit(0, 1, 15, 0);
    RevZero(15);
    RevZero(0);
    RevStep(1, 0);
  }

  lemma LoneEntry(y: Layout, ls: seq<nat>)
    requires ls == [1] && y.low < 0
    ensures ls[|ls| - 1] - Drop(y) == 1 && InvalidEntry() == Code(64, 1, 0)
  {
  }

  /** Fills in the tables; what is left of an incomplete code finds no symbol. */
  method FillTables(ct: CodeType, lens: array<nat>, start: nat, codes: nat, table: array<Code>, at: nat,
                    work: array<nat>, count: array<nat>, root: nat, min: nat, max: nat,
                    ghost ls: seq<nat>, ghost ws: seq<nat>)
    returns (ret: int, used: nat)
    requires start + codes <= lens.Length && codes <= work.Length && codes <= Alphabet(ct)
    requires work != lens && count != lens && count != work && count.Length == 16
    requires var ln: seq<nat> := lens[start..start + codes];
             && Listing(ln, ws) && ls == Listed(ln, ws) && Fitting(ln, ls) && |ws| <= codes && ws == work[..|ws|]
             && Longest(ln, max) && Shortest(ln, min) && min <= root <= max && CountsAre(ln, 0, count[..])
             && (Place(ls, |ls|) == 0x8000 || max == 1)
    requires ct == CODES ==> max <= root
    requires at + Room(ct, root) <= table.Length
    modifies table, count
    ensures table[..at] == old(table[..at]) && at <= table.Length
    ensures ret == 0 || ret == 1
    ensures ret == 1 <==> ct != CODES && Space(ls, root, |ls|) > Room(ct, root)
    ensures ret == 0 ==>
              && used == Space(ls, root, |ls|) <= Room(ct, root) && at + used <= table.Length
              && TablesFor(table[at..at + used], root, lens[start..start + codes], ct)
  {
    hide *;
    ghost var ln: seq<nat> := lens[start..start + codes];
    ghost var first := table[..at];
    var huff, next, left;
    ghost var y;
    ret, used, huff, next, left, y :=
      BuildTables(ct, lens, start, codes, table, at, work, count, root, min, max, ls, ws);
    if ret != 0 {
      return;
    }
    BuiltCut(table[at..], y, ln, ls, ws, ct, |ls|, used);
    ghost var t := table[at..at + used];
    assert table[at..][..used] == t;
    BuiltParts(t, y, ln, ls, ws, ct, |ls|, used);
    FittingParts(ln, ls);
    SpaceInRoom(ct, ln, ls, root, max);
    if Place(ls, |ls|) == 0x8000 {
      CompleteEnd(ls);
      CompleteTables(t, y, ln, ls, ws, ct, used);
    } else {
      StartFacts(ct, ln, ls, ws, root, min, max);
      LoneFacts(t, y, ln, ls, ws, ct, used);
      LoneEntry(y, ls);
      LoneTables(t, y, ln, ls, ws, ct, used);
    }
    if huff != 0 {
      table[at + next + huff] := Code(64, left, 0);
      assert table[at..at + used] == t[1 := Code(64, left, 0)];
      assert table[..at] == first;
    }
  }

  /** What the caller is told about the size of the tables. */
  ghost predicate Sized(ct: CodeType, lens: seq<nat>, ls: seq<nat>, bits: nat, at: nat, ret: int, next: nat, root: nat)
  {
    && (ret == 1 <==> !Refused(ct, lens) && TooLarge(ct, bits, ls))
    && (ret == 0 ==> root == RootBits(bits, ls))
    && (ret == 0 ==> next == at + if ls == [] then 2 else Space(ls, RootBits(bits, ls), |ls|))
  }

  ghost predicate SizesTold(ct: CodeType, lens: seq<nat>, bits: nat, at: nat, ret: int, next: nat, root: nat) {
    forall ls :: InOrder(lens, ls) ==> Sized(ct, lens, ls, bits, at, ret, next, root)
  }

  lemma SizedAll(ct: CodeType, lens: seq<nat>, ls: seq<nat>, bits: nat, at: nat, ret: int, next: nat, root: nat)
    requires InOrder(lens, ls) && Sized(ct, lens, ls, bits, at, ret, next, root)
    ensures SizesTold(ct, lens, bits, at, ret, next, root)
  {
    forall ms | InOrder(lens, ms)
      ensures Sized(ct, lens, ms, bits, at, ret, next, root)
    {
      OrderUnique(lens, ls, ms);
    }
  }

  lemma SizedRefused(ct: CodeType, lens: seq<nat>, bits: nat, at: nat, next: nat, root: nat)
    requires Refused(ct, lens)
    ensures SizesTold(ct, lens, bits, at, -1, next, root)
  {
  }

  lemma SizedEmpty(ct: CodeType, lens: seq<nat>, bits: nat, at: nat)
    requires Offset(lens, 16) == 0
    ensures SizesTold(ct, lens, bits, at, 0, at + 2, 1)
  {
    forall ls | InOrder(lens, ls)
      ensures Sized(ct, lens, ls, bits, at, 0, at + 2, 1)
    {
      InOrderSize(lens, ls);
    }
  }

  lemma SizedMade(ct: CodeType, lens: seq<nat>, ls: seq<nat>, bits: nat, at: nat, ret: int, used: nat, root: nat)
    requires !Refused(ct, lens) && ls != [] && root == RootBits(bits, ls)
    requires ret == 1 <==> ct != CODES && Space(ls, root, |ls|) > Room(ct, root)
    requires ret == 0 ==> used == Space(ls, root, |ls|)
    ensures Sized(ct, lens, ls, bits, at, ret, at + used, root)
  {
  }

  lemma NothingCoded(lens: seq<nat>, ct: CodeType)
    requires LengthsOk(lens) && !SomeCode(lens)
    ensures Offset(lens, 16) == 0 && AllWithin(lens, 1)
  {
    SomeCodeIs(lens);
    forall s | 0 <= s < |lens|
      ensures lens[s] <= 1
    {
      assert lens[s] == 0;
    }
  }

  lemma TooLargeIs(ct: CodeType, bits: nat, ls: seq<nat>)
    requires ls != []
    ensures TooLarge(ct, bits, ls) <==> ct != CODES && Space(ls, RootBits(bits, ls), |ls|) > Room(ct, bits)
    ensures ct != CODES ==> forall r :: Room(ct, r) == Room(ct, bits)
  {
  }

  lemma LongestBounds(lens: seq<nat>, max: nat)
    requires LengthsOk(lens) && Longest(lens, max)
    ensures AllWithin(lens, max)
  {
    LongestFacts(lens, max);
    forall s | 0 <= s < |lens|
      ensures lens[s] <= max
    {
      if lens[s] > max {
        RankWithin(lens, s);
        OffsetGrows(lens, max + 1, lens[s]);
      }
    }
  }

  lemma AllowedBits(ct: CodeType, lens: seq<nat>, max: nat, bits: nat)
    requires Longest(lens, max) && ct == CODES && forall s :: 0 <= s < |lens| ==> lens[s] <= bits
    ensures max <= bits
  {
    LongestFacts(lens, max);
    OffsetStep(lens, max);
    assert lens[..|lens|] == lens;
    var s := Occurrence(lens, max, 0, |lens|);
  }

  lemma RoomFacts(ct: CodeType, bits: nat, root: nat)
    requires ct == CODES ==> 1 <= root <= bits
    ensures Room(ct, root) <= Room(ct, bits) && Pow2(1) == 2
    ensures ct == CODES || root == 0 || bits == 0 || Room(ct, bits) >= 2
  {
    if ct == CODES { Pow2Grows(root, bits); }
  }

  lemma RoomForTwo(ct: CodeType, bits: nat)
    requires ct == CODES ==> bits >= 1
    ensures Room(ct, bits) >= 2
  {
    if ct == CODES { Pow2Grows(1, bits); }
  }

  /** Builds the decoding tables for a code given by its lengths: 0 and where the tables end, -1 for no code,
      1 when the tables outgrow their room. */
  method InflateTable(ct: CodeType, lens: array<nat>, start: nat, codes: nat, table: array<Code>, at: nat, bits: nat,
                      work: array<nat>)
    returns (ret: int, next: nat, root: nat)
    requires start + codes <= lens.Length && codes <= work.Length && codes <= Alphabet(ct) && work != lens
    requires LengthsOk(lens[start..start + codes])
    requires ct == CODES ==> bits >= 1 && forall s :: start <= s < start + codes ==> lens[s] <= bits
    requires at + Room(ct, bits) <= table.Length
    modifies table, work
    ensures table[..at] == old(table[..at]) && at <= table.Length
    ensures ret == 0 || ret == 1 || ret == -1
    ensures ret == -1 <==> Refused(ct, lens[start..start + codes])
    ensures SizesTold(ct, lens[start..start + codes], bits, at, ret, next, root)
    ensures ret == 1 <==> !Refused(ct, lens[start..start + codes]) && Overflows(ct, bits, lens[start..start + codes])
    ensures ret == 0 && ct == CODES ==> AllWithin(lens[start..start + codes], root)
    ensures ret == 0 && ct == CODES && SomeCode(lens[start..start + codes]) ==> Complete(lens[start..start + codes])
    ensures ret == 0 ==>
              && at <= next <= at + Room(ct, bits) && next <= table.Length
              && TablesFor(table[at..next], root, lens[start..start + codes], ct)
  {
    hide *;
    ghost var ln: seq<nat> := lens[start..start + codes];
    ghost var first := table[..at];
    var count := CountLengths(lens, start, codes);
    CountsMade(ln, count[..]);
    var max := FindMax(count, ln);
    SomeCodeIs(ln);
    RefusedIs(ct, ln);
    if max == 0 {
      RoomForTwo(ct, bits);
      table[at] := InvalidEntry();
      table[at + 1] := InvalidEntry();
      EmptyTables(table[at..at + 2], ln, ct);
      NothingCoded(ln, ct);
      OverflowsNot(ct, bits, ln);
      SizedEmpty(ct, ln, bits, at);
      assert table[..at] == first;
      return 0, at + 2, 1;
    }
    root := if bits > max then max else bits;
    var min := FindMin(count, max, ln);
    if root < min {
      root := min;
    }
    next := at;
    var left := CheckLengths(count, ln);
    SomeLongerIs(ln, max);
    if left < 0 {
      SizedRefused(ct, ln, bits, at, next, root);
      return -1, next, root;
    }
    if left > 0 && (ct == CODES || max != 1) {
      SizedRefused(ct, ln, bits, at, next, root);
      return -1, next, root;
    }
    SortSymbols(lens, start, codes, count, work);
    ghost var ws: seq<nat> := work[..Offset(ln, 16)];
    ghost var ls := Listed(ln, ws);
    assert ln == lens[start..start + codes];
    FittingIs(ln, ws);
    InOrderSize(ln, ls);
    if ct == CODES { AllLead(ln, ws, ls); }
    CountsReady(ln, count[..]);
    RootFacts(ln, ls, bits, min, max, root);
    if ct == CODES { AllowedBits(ct, ln, max, bits); }
    RoomFacts(ct, bits, root);
    var used;
    ret, used := FillTables(ct, lens, start, codes, table, at, work, count, root, min, max, ls, ws);
    TooLargeIs(ct, bits, ls);
    OverflowsIs(ct, bits, ln, ls);
    LongestBounds(ln, max);
    SizedMade(ct, ln, ls, bits, at, ret, used, root);
    SizedAll(ct, ln, ls, bits, at, ret, at + used, root);
    next := at + used;
  }
}
