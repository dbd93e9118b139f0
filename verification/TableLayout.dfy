/** The entries of inflate's decoding tables, and what filling in one code changes. */
module TableLayout {
  import opened Arithmetic
  import opened MachineInts
  import opened SetSums
  import opened DeflateCodes
  import opened CodePlaces
  import opened NextCodes

  /** An entry: what to do, how many bits it uses up, and a value. */
  datatype Code = Code(op: Byte, bits: Byte, val: UInt16)

  datatype CodeType = CODES | LENS | DISTS

  const LBASE: seq<UInt16> := [
    3, 4, 5, 6, 7, 8, 9, 10, 11, 13, 15, 17, 19, 23, 27, 31,
    35, 43, 51, 59, 67, 83, 99, 115, 131, 163, 195, 227, 258, 0, 0]

  const LEXT: seq<Byte> := [
    16, 16, 16, 16, 16, 16, 16, 16, 17, 17, 17, 17, 18, 18, 18, 18,
    19, 19, 19, 19, 20, 20, 20, 20, 21, 21, 21, 21, 16, 72, 78]

  const DBASE: seq<UInt16> := [
    1, 2, 3, 4, 5, 7, 9, 13, 17, 25, 33, 49, 65, 97, 129, 193,
    257, 385, 513, 769, 1025, 1537, 2049, 3073, 4097, 6145,
    8193, 12289, 16385, 24577, 0, 0]

  const DEXT: seq<Byte> := [
    16, 16, 16, 16, 17, 17, 18, 18, 19, 19, 20, 20, 21, 21, 22, 22,
    23, 23, 24, 24, 25, 25, 26, 26, 27, 27, 28, 28, 29, 29, 64, 64]

  /** How many symbols a code of this type may have. */
  function Alphabet(ct: CodeType): nat {
    match ct
    case CODES => 19
    case LENS => 288
    case DISTS => 32
  }

  /** The entry for symbol sym, with bits of its code still to use up. */
  function SymbolEntry(ct: CodeType, sym: nat, bits: Byte): (r: Code)
    requires sym < Alphabet(ct)
    ensures r.bits == bits && !IsLink(r)
  {
    match ct
    case CODES => Code(0, bits, sym)
    case LENS =>
      if sym < 256 then Code(0, bits, sym)
      else if sym > 256 then LengthEntry(sym - 257, bits)
      else Code(96, bits, 0)
    case DISTS => DistEntry(sym, bits)
  }

  function LengthEntry(k: nat, bits: Byte): (r: Code)
    requires k < 31
    ensures r.bits == bits && r.op >= 16
  {
    Code(LEXT[k], bits, LBASE[k])
  }

  function DistEntry(k: nat, bits: Byte): (r: Code)
    requires k < 32
    ensures r.bits == bits && r.op >= 16
  {
    Code(DEXT[k], bits, DBASE[k])
  }

  /** The entry for bits that begin with no code. */
  function InvalidEntry(): (r: Code)
    ensures r.bits == 1 && !IsLink(r)
  {
    Code(64, 1, 0)
  }

  /** The entry leads to a second table. */
  predicate IsLink(c: Code) {
    0 < c.op < 16
  }

  /** The bits h find entry e in the table t, using up n of them. */
  ghost predicate Finds(t: seq<Code>, root: nat, h: nat, e: Code, n: nat) {
    && h % Pow2(root) < |t|
    && var a := t[h % Pow2(root)];
       if IsLink(a) then
         && SecondIndex(a, h) < |t|
         && e == t[SecondIndex(a, h)] && n == a.bits + e.bits
       else e == a && n == a.bits
  }

  function SecondIndex(a: Code, h: nat): nat {
    a.val + Quotient(h, Pow2(a.bits)) % Pow2(a.op)
  }

  /* ---- a table half made ---- */

  /** The root table has root index bits; the table now filled lies at next, with curr of them, for index low. */
  datatype Layout = Layout(root: nat, next: nat, curr: nat, low: int)

  ghost predicate LayoutOk(t: seq<Code>, y: Layout) {
    && 1 <= y.root <= 15 && 1 <= y.curr <= 15 && y.next + Pow2(y.curr) <= |t|
    && if y.low < 0 then y.next == 0 && y.curr == y.root
       else && y.low < Pow2(y.root) <= y.next <= 0xffff
            && t[y.low] == Code(y.curr, y.root, y.next)
  }

  /** The bits h, which begin with a code of len bits for sym, find its entry. */
  ghost predicate Good(t: seq<Code>, y: Layout, h: nat, ct: CodeType, sym: nat, len: nat) {
    && sym < Alphabet(ct) && len <= 15 && 0 <= h % Pow2(y.root) < |t|
    && var a := t[h % Pow2(y.root)];
       if len <= y.root then a == SymbolEntry(ct, sym, len)
       else && IsLink(a) && a.bits == y.root <= len && Pow2(y.root) <= a.val
            && (if h % Pow2(y.root) == y.low then a.val == y.next && a.op == y.curr else a.val + Pow2(a.op) <= y.next)
            && SecondIndex(a, h) < |t| && t[SecondIndex(a, h)] == SymbolEntry(ct, sym, len - y.root)
  }

  /** All bits that begin with one of the first k codes find its entry. */
  ghost predicate GoodUpTo(t: seq<Code>, y: Layout, ls: seq<nat>, ws: seq<nat>, ct: CodeType, k: nat) {
    |ws| == |ls| && forall i: nat, h: nat :: i < k && LeadsAt(ls, i, h) ==> Good(t, y, h, ct, ws[i], ls[i])
  }

  /** The code at k has its place in the table now filled. */
  ghost predicate Placed(y: Layout, ls: seq<nat>, k: nat) {
    && k < |ls|
    && if y.low < 0 then ls[k] <= y.root
       else && Huff(ls, k) % Pow2(y.root) == y.low && ls[k] > y.root
            && Deep(ls, k, y.root, y.root + y.curr)
  }

  function Drop(y: Layout): nat {
    if y.low < 0 then 0 else y.root
  }

  /** The first index, in the table now filled, of a code huff. */
  function FirstIndex(y: Layout, huff: nat): nat {
    Quotient(huff, Pow2(Drop(y)))
  }

  /** Index x takes the entry of a code huff of len bits. */
  ghost predicate InFill(y: Layout, len: nat, huff: nat, x: nat)
    requires Drop(y) <= len
  {
    Copy(y.next, Pow2(y.curr), Pow2(len - Drop(y)), FirstIndex(y, huff), 0, x)
  }

  /** u is t with entry e at all indices of the code. */
  ghost predicate Filled(t: seq<Code>, u: seq<Code>, y: Layout, len: nat, huff: nat, e: Code)
    requires Drop(y) <= len
  {
    Copied(t, u, y.next, Pow2(y.curr), Pow2(len - Drop(y)), FirstIndex(y, huff), e, 0)
  }

  /** Every p-th index of a table of size entries, from hd on, starting at a given one. */
  ghost predicate Copy(next: nat, size: nat, p: nat, hd: nat, from: nat, x: nat)
    requires p > 0
  {
    next + from <= x < next + size && (x - next) % p == hd
  }

  ghost predicate Copied(t: seq<Code>, u: seq<Code>, next: nat, size: nat, p: nat, hd: nat, e: Code, from: nat)
    requires p > 0
  {
    |u| == |t| && forall x: nat :: x < |t| ==> u[x] == if Copy(next, size, p, hd, from, x) then e else t[x]
  }

  /* ---- low bits of low bits ---- */

  lemma ModMod(h: nat, l: nat, r: nat)
    requires l <= r
    ensures h % Pow2(r) % Pow2(l) == h % Pow2(l)
  {
    var p, q := Pow2(l), Pow2(r - l);
    Pow2Add(r - l, l);
    hide *;
    NestedMod(h, p, q);
  }

  lemma NestedMod(h: nat, p: nat, q: nat)
    requires p > 0 && q > 0 && q * p > 0
    ensures h % (q * p) % p == h % p
  {
    var a, b := h / (q * p), h % (q * p);
    DivMod(h, q * p);
    DivMod(b, p);
    assert a * (q * p) == (a * q) * p;
    Spread(a * q, b / p, p);
    DivUnique(h, p, a * q + b / p, b % p);
  }

  /** The low bits of h, split. */
  lemma ModSplit(h: nat, r: nat, d: nat)
    ensures h % Pow2(r + d) == h % Pow2(r) + h / Pow2(r) % Pow2(d) * Pow2(r)
    ensures h % Pow2(r + d) / Pow2(r) == h / Pow2(r) % Pow2(d)
  {
    var p, q := Pow2(r), Pow2(d);
    Pow2Add(r, d);
    hide *;
    SplitMod(h, p, q);
  }

  lemma SplitMod(h: nat, p: nat, q: nat)
    requires p > 0 && q > 0 && p * q > 0
    ensures h % (p * q) == h % p + h / p % q * p
    ensures h % (p * q) / p == h / p % q
  {
    var a, b := h / p, h % p;
    DivMod(h, p);
    DivMod(a, q);
    var c, d := a / q, a % q;
    assert a * p == (c * q) * p + d * p by { Spread(c * q, d, p); }
    assert (c * q) * p == c * (p * q);
    assert (d + 1) * p <= q * p by { ScaleUp2(d + 1, q, p); }
    Spread(d, 1, p);
    DivUnique(h, p * q, c, d * p + b);
    DivUnique(d * p + b, p, d, b);
  }

  /* ---- filling in one code ---- */

  lemma FillIs(t: seq<Code>, u: seq<Code>, y: Layout, len: nat, huff: nat, e: Code, x: nat)
    requires Drop(y) <= len && Filled(t, u, y, len, huff, e) && x < |t|
    ensures |u| == |t| && u[x] == if InFill(y, len, huff, x) then e else t[x]
  {
  }

  lemma InFillIs(y: Layout, len: nat, huff: nat, x: nat)
    requires Drop(y) <= len
    ensures Pow2(len - Drop(y)) > 0 && Pow2(Drop(y)) > 0
    ensures InFill(y, len, huff, x)
        <==> y.next <= x < y.next + Pow2(y.curr) && (x - y.next) % Pow2(len - Drop(y)) == huff / Pow2(Drop(y))
  {
  }

  lemma DropIs(y: Layout)
    ensures Drop(y) == if y.low < 0 then 0 else y.root
  {
  }

  lemma LayoutParts(t: seq<Code>, y: Layout)
    requires LayoutOk(t, y)
    ensures 1 <= y.root <= 15 && 1 <= y.curr <= 15 && y.next + Pow2(y.curr) <= |t|
    ensures y.low < 0 ==> y.next == 0 && y.curr == y.root
    ensures y.low >= 0 ==> y.low < Pow2(y.root) <= y.next <= 0xffff && t[y.low] == Code(y.curr, y.root, y.next)
  {
  }

  /** An index of the root table takes the entry just when the bits begin with the code. */
  lemma RootFill(y: Layout, ls: seq<nat>, k: nat, h: nat)
    requires y.low < 0 && y.next == 0 && y.curr == y.root && k < |ls| && ls[k] <= y.root
    ensures Drop(y) == 0 && (InFill(y, ls[k], Huff(ls, k), h % Pow2(y.root)) <==> LeadsAt(ls, k, h))
  {
    hide *;
    DropIs(y);
    InFillIs(y, ls[k], Huff(ls, k), h % Pow2(y.root));
    ModMod(h, ls[k], y.root);
    LeadsAtIs(ls, k, h);
    PowFacts();
    DivMod(h, Pow2(y.root));
    ByOne(Huff(ls, k));
  }

  lemma PowFacts()
    ensures Pow2(0) == 1
  {
  }

  lemma ByOne(x: nat)
    ensures x / 1 == x
  {
  }

  /** Likewise for a second table. */
  lemma SubFill(y: Layout, ls: seq<nat>, k: nat, h: nat)
    requires y.low >= 0 && k < |ls| && y.root <= ls[k] <= y.root + y.curr
    requires Huff(ls, k) % Pow2(y.root) == y.low && h % Pow2(y.root) == y.low
    requires Huff(ls, k) < Pow2(ls[k])
    ensures Drop(y) == y.root && Pow2(y.curr) > 0
    ensures InFill(y, ls[k], Huff(ls, k), y.next + h / Pow2(y.root) % Pow2(y.curr)) <==> LeadsAt(ls, k, h)
  {
    hide *;
    var d := ls[k] - y.root;
    var z := h / Pow2(y.root);
    DropIs(y);
    PowPositive(y.curr);
    InFillIs(y, ls[k], Huff(ls, k), y.next + z % Pow2(y.curr));
    ModMod(z, d, y.curr);
    DivMod(z, Pow2(y.curr));
    LeadsAtIs(ls, k, h);
    ModSplit(h, y.root, d);
    DivMod(Huff(ls, k), Pow2(y.root));
  }

  lemma GoodRoot(t: seq<Code>, y: Layout, h: nat, ct: CodeType, sym: nat, len: nat)
    requires len <= y.root
    ensures Good(t, y, h, ct, sym, len)
        <==> && sym < Alphabet(ct) && len <= 15 && 0 <= h % Pow2(y.root) < |t|
             && t[h % Pow2(y.root)] == SymbolEntry(ct, sym, len)
  {
  }

  lemma GoodSub(t: seq<Code>, y: Layout, h: nat, ct: CodeType, sym: nat, len: nat)
    requires len > y.root
    ensures Good(t, y, h, ct, sym, len)
        <==> && sym < Alphabet(ct) && len <= 15 && 0 <= h % Pow2(y.root) < |t|
             && var a := t[h % Pow2(y.root)];
                && IsLink(a) && a.bits == y.root <= len && Pow2(y.root) <= a.val
                && (if h % Pow2(y.root) == y.low then a.val == y.next && a.op == y.curr
                    else a.val + Pow2(a.op) <= y.next)
                && SecondIndex(a, h) < |t| && t[SecondIndex(a, h)] == SymbolEntry(ct, sym, len - y.root)
  {
  }

  lemma SecondIs(a: Code, h: nat)
    ensures Pow2(a.bits) > 0 && Pow2(a.op) > 0 && SecondIndex(a, h) == a.val + h / Pow2(a.bits) % Pow2(a.op)
    ensures a.val <= SecondIndex(a, h) < a.val + Pow2(a.op)
  {
    var z := Quotient(h, Pow2(a.bits));
    SecondSum(a, h, z);
    hide *;
    PowPositive(a.op);
    Remainder(z, Pow2(a.op));
  }

  lemma SecondSum(a: Code, h: nat, z: nat)
    requires z == Quotient(h, Pow2(a.bits))
    ensures Pow2(a.bits) > 0 && z == h / Pow2(a.bits) && Pow2(a.op) > 0 && SecondIndex(a, h) == a.val + z % Pow2(a.op)
  {
  }

  ghost predicate Ordered(lens: seq<nat>, ls: seq<nat>, i: nat, k: nat) {
    Fitting(lens, ls) && i < k < |ls|
  }

  lemma OrderedIs(lens: seq<nat>, ls: seq<nat>, i: nat, k: nat)
    requires Ordered(lens, ls, i, k)
    ensures Fitting(lens, ls) && i < k < |ls| && ls[i] <= ls[k]
  {
    LengthsGrow(lens, ls, i, k);
  }

  lemma PlacedRoot(y: Layout, ls: seq<nat>, k: nat)
    requires Placed(y, ls, k) && y.low < 0
    ensures k < |ls| && ls[k] <= y.root
  {
  }

  lemma PlacedSub(y: Layout, ls: seq<nat>, k: nat)
    requires Placed(y, ls, k) && y.low >= 0
    ensures k < |ls| && Huff(ls, k) % Pow2(y.root) == y.low && y.root < ls[k] <= y.root + y.curr
  {
    DeepSelf(ls, k, y.root, y.root + y.curr);
  }

  /** Filling in a code leaves the entries of the others. */
  lemma FillKeeps(t: seq<Code>, u: seq<Code>, y: Layout, lens: seq<nat>, ls: seq<nat>, k: nat, e: Code,
                  i: nat, h: nat, ct: CodeType, sym: nat)
    requires LayoutOk(t, y) && Ordered(lens, ls, i, k) && Placed(y, ls, k) && LeadsAt(ls, i, h)
    requires Drop(y) <= ls[k] && Filled(t, u, y, ls[k], Huff(ls, k), e)
    requires Good(t, y, h, ct, sym, ls[i])
    ensures Good(u, y, h, ct, sym, ls[i])
  {
    hide *;
    LayoutParts(t, y);
    OrderedIs(lens, ls, i, k);
    HuffOfCode(lens, ls, k);
    if LeadsAt(ls, k, h) { LeadsOnce(lens, ls, i, k, h); }
    var j := h % Pow2(y.root);
    if ls[i] <= y.root {
      GoodRoot(t, y, h, ct, sym, ls[i]);
      GoodRoot(u, y, h, ct, sym, ls[i]);
      FillIs(t, u, y, ls[k], Huff(ls, k), e, j);
      if y.low < 0 {
        PlacedRoot(y, ls, k);
        RootFill(y, ls, k, h);
      } else {
        InFillIs(y, ls[k], Huff(ls, k), j);
        DivMod(h, Pow2(y.root));
      }
    } else {
      KeepsSub(t, u, y, lens, ls, k, e, i, h, ct, sym);
    }
  }

  lemma KeepsSub(t: seq<Code>, u: seq<Code>, y: Layout, lens: seq<nat>, ls: seq<nat>, k: nat, e: Code,
                 i: nat, h: nat, ct: CodeType, sym: nat)
    requires LayoutOk(t, y) && Ordered(lens, ls, i, k) && Placed(y, ls, k) && !LeadsAt(ls, k, h)
    requires Drop(y) <= ls[k] && Filled(t, u, y, ls[k], Huff(ls, k), e)
    requires ls[i] > y.root && Good(t, y, h, ct, sym, ls[i])
    ensures Good(u, y, h, ct, sym, ls[i])
  {
    hide *;
    LayoutParts(t, y);
    OrderedIs(lens, ls, i, k);
    HuffOfCode(lens, ls, k);
    GoodSub(t, y, h, ct, sym, ls[i]);
    GoodSub(u, y, h, ct, sym, ls[i]);
    var j := h % Pow2(y.root);
    var a := t[j];
    DivMod(h, Pow2(y.root));
    SecondIs(a, h);
    if y.low < 0 {
      PlacedRoot(y, ls, k);
    } else {
      PlacedSub(y, ls, k);
      FillIs(t, u, y, ls[k], Huff(ls, k), e, j);
      FillIs(t, u, y, ls[k], Huff(ls, k), e, SecondIndex(a, h));
      InFillIs(y, ls[k], Huff(ls, k), j);
      InFillIs(y, ls[k], Huff(ls, k), SecondIndex(a, h));
      if j == y.low { SubFill(y, ls, k, h); }
    }
  }

  /** The code filled in finds its entry. */
  lemma FillGives(t: seq<Code>, u: seq<Code>, y: Layout, lens: seq<nat>, ls: seq<nat>, k: nat,
                  h: nat, ct: CodeType, sym: nat)
    requires LayoutOk(t, y) && Fitting(lens, ls) && Placed(y, ls, k) && LeadsAt(ls, k, h)
    requires sym < Alphabet(ct) && k < |ls| && Drop(y) <= ls[k] <= 15
    requires Filled(t, u, y, ls[k], Huff(ls, k), SymbolEntry(ct, sym, ls[k] - Drop(y)))
    ensures Good(u, y, h, ct, sym, ls[k])
  {
    hide *;
    var e := SymbolEntry(ct, sym, ls[k] - Drop(y));
    LayoutParts(t, y);
    HuffOfCode(lens, ls, k);
    DropIs(y);
    var j := h % Pow2(y.root);
    DivMod(h, Pow2(y.root));
    if y.low < 0 {
      PlacedRoot(y, ls, k);
      RootFill(y, ls, k, h);
      FillIs(t, u, y, ls[k], Huff(ls, k), e, j);
      GoodRoot(u, y, h, ct, sym, ls[k]);
    } else {
      PlacedSub(y, ls, k);
      LeadsLow(ls, k, h, y.root);
      SubFill(y, ls, k, h);
      FillIs(t, u, y, ls[k], Huff(ls, k), e, j);
      InFillIs(y, ls[k], Huff(ls, k), j);
      LinkIs(y.curr);
      SecondIs(u[j], h);
      FillIs(t, u, y, ls[k], Huff(ls, k), e, SecondIndex(u[j], h));
      GoodSub(u, y, h, ct, sym, ls[k]);
    }
  }

  lemma LinkIs(c: nat)
    requires 1 <= c <= 15
    ensures forall b: Byte, v: UInt16 :: IsLink(Code(c, b, v))
  {
  }

  lemma LeadsLow(ls: seq<nat>, k: nat, h: nat, r: nat)
    requires LeadsAt(ls, k, h) && k < |ls| && r <= ls[k]
    ensures h % Pow2(r) == Huff(ls, k) % Pow2(r)
  {
    ModMod(h, r, ls[k]);
  }

  /* ---- starting a second table ---- */

  /** The code at k is the first of its cell, and longer than the root index. */
  ghost predicate OpensCell(y: Layout, lens: seq<nat>, ls: seq<nat>, k: nat) {
    && Fitting(lens, ls) && 0 < k < |ls| && Placed(y, ls, k - 1) && y.root < ls[k]
    && Huff(ls, k) % Pow2(y.root) != y.low
  }

  lemma OpensParts(y: Layout, lens: seq<nat>, ls: seq<nat>, k: nat)
    requires OpensCell(y, lens, ls, k)
    ensures Fitting(lens, ls) && 0 < k < |ls| && Placed(y, ls, k - 1) && y.root < ls[k]
    ensures Huff(ls, k) % Pow2(y.root) != y.low
  {
  }

  /** No earlier code leads to the entry that the new table's link takes. */
  lemma LinkIsNew(t: seq<Code>, y: Layout, lens: seq<nat>, ls: seq<nat>, k: nat, i: nat, h: nat)
    requires LayoutOk(t, y) && OpensCell(y, lens, ls, k) && i < k && LeadsAt(ls, i, h)
    ensures k < |ls| && h % Pow2(y.root) != Huff(ls, k) % Pow2(y.root)
  {
    hide *;
    LayoutParts(t, y);
    OpensParts(y, lens, ls, k);
    FittingParts(lens, ls);
    LengthsGrow(lens, ls, i, k - 1);
    HuffOfCode(lens, ls, k);
    PowPositive(y.root);
    if y.low < 0 { PlacedRoot(y, ls, k - 1); } else { PlacedSub(y, ls, k - 1); }
    if h % Pow2(y.root) == Huff(ls, k) % Pow2(y.root) {
      if ls[i] <= y.root {
        ModMod(h, ls[i], y.root);
        ModMod(Huff(ls, k), ls[i], y.root);
        LeadsAtIs(ls, i, h);
        LeadsAtIs(ls, i, Huff(ls, k));
        LeadsAtIs(ls, k, Huff(ls, k));
        DivUnique(Huff(ls, k), Pow2(ls[k]), 0, Huff(ls, k));
        LeadsOnce(lens, ls, i, k, Huff(ls, k));
      } else {
        LeadsLow(ls, i, h, y.root);
        SameCell(lens, ls, i, k, y.root);
        SameCell(lens, ls, k - 1, k, y.root);
        CellGrows(ls, i, k - 1, y.root);
        CellGrows(ls, k - 1, k, y.root);
      }
    }
  }

  /** The new table lies behind the one just filled. */
  ghost predicate Follows(t: seq<Code>, y: Layout, z: Layout, ls: seq<nat>, k: nat) {
    && k < |ls| && z.root == y.root && z.next == y.next + Pow2(y.curr) <= 0xffff
    && 1 <= z.curr <= 15 && z.next + Pow2(z.curr) <= |t| && z.low == Huff(ls, k) % Pow2(y.root)
  }

  lemma FollowsParts(t: seq<Code>, y: Layout, z: Layout, ls: seq<nat>, k: nat)
    requires Follows(t, y, z, ls, k) && LayoutOk(t, y)
    ensures k < |ls| && z.root == y.root && z.next == y.next + Pow2(y.curr) <= 0xffff
    ensures 1 <= z.curr <= 15 && z.next + Pow2(z.curr) <= |t|
    ensures 0 <= z.low == Huff(ls, k) % Pow2(y.root) < Pow2(y.root) <= z.next && z.low < |t|
  {
    PowPositive(y.root);
    DivMod(Huff(ls, k), Pow2(y.root));
  }

  lemma LinkLayout(t: seq<Code>, y: Layout, z: Layout, ls: seq<nat>, k: nat)
    requires LayoutOk(t, y) && Follows(t, y, z, ls, k)
    ensures 0 <= z.low < |t| && z.curr < 256 && z.root < 256 && z.next <= 0xffff
    ensures LayoutOk(t[z.low := Code(z.curr, z.root, z.next)], z)
  {
    FollowsParts(t, y, z, ls, k);
  }

  lemma LinkKeeps(t: seq<Code>, u: seq<Code>, y: Layout, z: Layout, lens: seq<nat>, ls: seq<nat>, k: nat,
                  i: nat, h: nat, ct: CodeType, sym: nat)
    requires LayoutOk(t, y) && OpensCell(y, lens, ls, k) && Follows(t, y, z, ls, k)
    requires i < k && LeadsAt(ls, i, h) && k < |ls| && Good(t, y, h, ct, sym, ls[i])
    requires |u| == |t| && forall x: nat :: x < |t| && x != z.low ==> u[x] == t[x]
    ensures Good(u, z, h, ct, sym, ls[i])
  {
    hide *;
    LayoutParts(t, y);
    FollowsParts(t, y, z, ls, k);
    LinkIsNew(t, y, lens, ls, k, i, h);
    var j := h % Pow2(y.root);
    PowPositive(y.root);
    if ls[i] <= y.root {
      GoodRoot(t, y, h, ct, sym, ls[i]);
      GoodRoot(u, z, h, ct, sym, ls[i]);
    } else {
      GoodSub(t, y, h, ct, sym, ls[i]);
      GoodSub(u, z, h, ct, sym, ls[i]);
      SecondIs(t[j], h);
    }
  }

  /* ---- all codes at once ---- */

  lemma GoodAt(t: seq<Code>, y: Layout, ls: seq<nat>, ws: seq<nat>, ct: CodeType, k: nat, i: nat, h: nat)
    requires GoodUpTo(t, y, ls, ws, ct, k) && i < k && LeadsAt(ls, i, h)
    ensures |ws| == |ls| && i < |ls| && Good(t, y, h, ct, ws[i], ls[i])
  {
    LeadsIndex(ls, i, h);
  }

  lemma GoodNone(t: seq<Code>, y: Layout, ls: seq<nat>, ws: seq<nat>, ct: CodeType)
    requires |ws| == |ls|
    ensures GoodUpTo(t, y, ls, ws, ct, 0)
  {
  }

  lemma FillGood(t: seq<Code>, u: seq<Code>, y: Layout, lens: seq<nat>, ls: seq<nat>, ws: seq<nat>, k: nat,
                 ct: CodeType)
    requires LayoutOk(t, y) && Fitting(lens, ls) && Placed(y, ls, k) && GoodUpTo(t, y, ls, ws, ct, k)
    requires |ws| == |ls| && k < |ls| && ws[k] < Alphabet(ct) && Drop(y) <= ls[k] <= 15
    requires Filled(t, u, y, ls[k], Huff(ls, k), SymbolEntry(ct, ws[k], ls[k] - Drop(y)))
    ensures LayoutOk(u, y) && GoodUpTo(u, y, ls, ws, ct, k + 1)
  {
    var e := SymbolEntry(ct, ws[k], ls[k] - Drop(y));
    FillLayout(t, u, y, ls, k, e);
    forall i: nat, h: nat | i < k + 1 && LeadsAt(ls, i, h)
      ensures Good(u, y, h, ct, ws[i], ls[i])
    {
      if i == k {
        FillGives(t, u, y, lens, ls, k, h, ct, ws[k]);
      } else {
        GoodAt(t, y, ls, ws, ct, k, i, h);
        FillKeeps(t, u, y, lens, ls, k, e, i, h, ct, ws[i]);
      }
    }
  }

  lemma FillLayout(t: seq<Code>, u: seq<Code>, y: Layout, ls: seq<nat>, k: nat, e: Code)
    requires LayoutOk(t, y) && k < |ls| && Drop(y) <= ls[k]
    requires Filled(t, u, y, ls[k], Huff(ls, k), e)
    ensures LayoutOk(u, y)
  {
    hide *;
    LayoutParts(t, y);
    FillSize(t, u, y, ls[k], Huff(ls, k), e);
    if y.low >= 0 {
      FillIs(t, u, y, ls[k], Huff(ls, k), e, y.low);
      InFillIs(y, ls[k], Huff(ls, k), y.low);
    }
    LayoutMade(u, y);
  }

  lemma FillSize(t: seq<Code>, u: seq<Code>, y: Layout, len: nat, huff: nat, e: Code)
    requires Drop(y) <= len && Filled(t, u, y, len, huff, e)
    ensures |u| == |t|
  {
  }

  lemma LayoutMade(t: seq<Code>, y: Layout)
    requires 1 <= y.root <= 15 && 1 <= y.curr <= 15 && y.next + Pow2(y.curr) <= |t|
    requires y.low < 0 ==> y.next == 0 && y.curr == y.root
    requires y.low >= 0 ==> y.low < Pow2(y.root) <= y.next <= 0xffff && t[y.low] == Code(y.curr, y.root, y.next)
    ensures LayoutOk(t, y)
  {
  }

  lemma LinkGood(t: seq<Code>, y: Layout, z: Layout, lens: seq<nat>, ls: seq<nat>, ws: seq<nat>, k: nat, ct: CodeType)
    requires LayoutOk(t, y) && OpensCell(y, lens, ls, k) && Follows(t, y, z, ls, k) && GoodUpTo(t, y, ls, ws, ct, k)
    ensures 0 <= z.low < |t| && z.curr < 256 && z.root < 256 && z.next <= 0xffff
    ensures LayoutOk(t[z.low := Code(z.curr, z.root, z.next)], z)
    ensures GoodUpTo(t[z.low := Code(z.curr, z.root, z.next)], z, ls, ws, ct, k)
  {
    LinkLayout(t, y, z, ls, k);
    var u := t[z.low := Code(z.curr, z.root, z.next)];
    forall i: nat, h: nat | i < k && LeadsAt(ls, i, h)
      ensures Good(u, z, h, ct, ws[i], ls[i])
    {
      GoodAt(t, y, ls, ws, ct, k, i, h);
      LinkKeeps(t, u, y, z, lens, ls, k, i, h, ct, ws[i]);
    }
  }

  /** Staying in the same table for the next code. */
  lemma PlacedNext(y: Layout, lens: seq<nat>, ls: seq<nat>, k: nat)
    requires Fitting(lens, ls) && Placed(y, ls, k) && k + 1 < |ls| && 1 <= y.root <= 15
    requires ls[k + 1] <= y.root || Huff(ls, k + 1) % Pow2(y.root) == y.low
    ensures y.low < 0 || ls[k + 1] > y.root ==> Placed(y, ls, k + 1)
  {
    LengthsGrow(lens, ls, k, k + 1);
    if y.low >= 0 {
      SameCell(lens, ls, k, k + 1, y.root);
      if ls[k + 1] > y.root { DeepNext(ls, k, y.root, y.root + y.curr); }
    }
  }

  /* ---- writing the copies of an entry ---- */

  lemma CopyNone(t: seq<Code>, next: nat, size: nat, p: nat, hd: nat, e: Code)
    requires p > 0
    ensures Copied(t, t, next, size, p, hd, e, size)
  {
  }

  lemma CopyCase(next: nat, size: nat, p: nat, hd: nat, m: nat, x: nat)
    requires p > 0 && m > 0 && m * p <= size && hd < p
    ensures m * p - p >= 0
    ensures Copy(next, size, p, hd, m * p - p, x)
        <==> x == next + hd + (m * p - p) || Copy(next, size, p, hd, m * p, x)
  {
    Spread(m - 1, 1, p);
    Share(m - 1, p);
    if next + m * p - p <= x < next + m * p {
      DivUnique(x - next, p, m - 1, x - next - (m - 1) * p);
    }
  }

  lemma CopyMore(t: seq<Code>, u: seq<Code>, next: nat, size: nat, p: nat, hd: nat, e: Code, m: nat)
    requires p > 0 && m > 0 && m * p <= size && hd < p && next + size <= |t|
    requires Copied(t, u, next, size, p, hd, e, m * p)
    ensures m * p - p >= 0 && next + hd + (m * p - p) < |t| == |u|
    ensures Copied(t, u[next + hd + (m * p - p) := e], next, size, p, hd, e, m * p - p)
  {
    CopyCase(next, size, p, hd, m, 0);
    var w := u[next + hd + (m * p - p) := e];
    forall x: nat | x < |t|
      ensures w[x] == if Copy(next, size, p, hd, m * p - p, x) then e else t[x]
    {
      CopyCase(next, size, p, hd, m, x);
    }
  }
}
