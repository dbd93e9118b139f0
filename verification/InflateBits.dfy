/** The bits inflate has taken in but not yet used, and looking up codes in them. */
module InflateBits {
  import opened Arithmetic
  import opened MachineInts
  import opened SetSums
  import opened DeflateCodes
  import opened TableLayout
  import opened InflateTable

  /* ---- bytes as one number, the first lowest ---- */

  ghost function Little(s: seq<Byte>): nat {
    if s == [] then 0 else s[0] + 0x100 * Little(s[1..])
  }

  /** All bits to come: those held, and the bytes after them. */
  ghost function Upcoming(hold: nat, bits: nat, rest: seq<Byte>): nat {
    hold + Pow2(bits) * Little(rest)
  }

  lemma UpcomingIs(hold: nat, bits: nat, rest: seq<Byte>)
    ensures Pow2(bits) * Little(rest) >= 0
    ensures Upcoming(hold, bits, rest) == hold + Pow2(bits) * Little(rest)
    ensures rest == [] ==> Upcoming(hold, bits, rest) == hold
  {
    Share(Pow2(bits), Little(rest));
  }

  lemma LittleStep(s: seq<Byte>)
    requires s != []
    ensures Little(s) == s[0] + 0x100 * Little(s[1..])
  {
  }

  lemma EightMore(bits: nat)
    ensures Pow2(bits + 8) == Pow2(bits) * 0x100
  {
    assert Pow2(8) == 0x100;
    Pow2Add(bits, 8);
  }

  /** Taking in a byte changes none of the bits to come. */
  lemma PullKeeps(hold: nat, bits: nat, rest: seq<Byte>)
    requires rest != [] && hold < Pow2(bits)
    ensures 0 <= hold + rest[0] * Pow2(bits) < Pow2(bits + 8)
    ensures Upcoming(hold + rest[0] * Pow2(bits), bits + 8, rest[1..]) == Upcoming(hold, bits, rest)
  {
    hide *;
    LittleStep(rest);
    EightMore(bits);
    UpcomingIs(hold, bits, rest);
    PullNumbers(hold, rest[0], Little(rest[1..]), Pow2(bits));
    UpcomingIs(hold + rest[0] * Pow2(bits), bits + 8, rest[1..]);
  }

  lemma PullNumbers(hold: nat, b: nat, l: nat, p: nat)
    requires hold < p && b < 0x100
    ensures 0 <= hold + b * p < p * 0x100
    ensures hold + b * p + (p * 0x100) * l == hold + p * (b + 0x100 * l)
  {
    ScaleUp2(b + 1, 0x100, p);
    Spread(b, 1, p);
    assert p * (b + 0x100 * l) == p * b + p * (0x100 * l);
    assert (p * 0x100) * l == p * (0x100 * l);
  }

  /** Using up n of the bits held. */
  lemma DropKeeps(hold: nat, bits: nat, rest: seq<Byte>, n: nat)
    requires n <= bits && hold < Pow2(bits)
    ensures Pow2(n) > 0 && 0 <= hold / Pow2(n) < Pow2(bits - n)
    ensures Upcoming(hold / Pow2(n), bits - n, rest) == Upcoming(hold, bits, rest) / Pow2(n)
    ensures Upcoming(hold, bits, rest) % Pow2(n) == hold % Pow2(n)
  {
    var p, q := Pow2(n), Pow2(bits - n);
    Pow2Add(n, bits - n);
    assert Pow2(bits) == p * q;
    hide *;
    UpcomingIs(hold, bits, rest);
    DropNumbers(hold, Little(rest), p, q);
    UpcomingIs(hold / p, bits - n, rest);
  }

  lemma DropNumbers(hold: nat, l: nat, p: nat, q: nat)
    requires p > 0 && hold < p * q
    ensures 0 <= hold / p < q
    ensures hold / p + q * l == (hold + (p * q) * l) / p && (hold + (p * q) * l) % p == hold % p
  {
    QuotientBound(hold, p, q);
    DivMod(hold, p);
    assert (p * q) * l == (q * l) * p;
    Spread(hold / p, q * l, p);
    DivUnique(hold + (p * q) * l, p, hold / p + q * l, hold % p);
  }

  /* ---- an entry settled by the bits held ---- */

  lemma FindsIs(t: seq<Code>, root: nat, h: nat, e: Code, n: nat)
    ensures Pow2(root) > 0 && 0 <= h % Pow2(root)
    ensures Finds(t, root, h, e, n)
        <==> && h % Pow2(root) < |t|
             && var a := t[h % Pow2(root)];
                if IsLink(a) then
                  SecondIndex(a, h) < |t| && e == t[SecondIndex(a, h)] && n == a.bits + e.bits
                else e == a && n == a.bits
  {
    DivMod(h, Pow2(root));
  }

  /** The bits find one entry. */
  lemma FindsOnce(t: seq<Code>, root: nat, h: nat, e: Code, n: nat, f: Code, m: nat)
    requires Finds(t, root, h, e, n) && Finds(t, root, h, f, m)
    ensures e == f && n == m
  {
  }

  lemma LeadsSame(lens: seq<nat>, s: nat, g: nat, h: nat, b: nat)
    requires Leads(lens, s, g) && lens[s] <= b && g % Pow2(b) == h % Pow2(b)
    ensures Leads(lens, s, h)
  {
    LeadsSymbol(lens, s, g);
    LeadsIs(lens, s, g);
    LeadsIs(lens, s, h);
    hide *;
    ModMod(g, lens[s], b);
    ModMod(h, lens[s], b);
  }

  lemma TablesGive(t: seq<Code>, root: nat, lens: seq<nat>, ct: CodeType, s: nat, h: nat)
    requires TablesFor(t, root, lens, ct) && Leads(lens, s, h)
    ensures s < |lens| <= Alphabet(ct) && 1 <= lens[s] <= 15
    ensures Finds(t, root, h, SymbolEntry(ct, s, LastBits(lens[s], root)), lens[s])
  {
    assert Reaches(t, root, lens, ct, s, h);
    LeadsSymbol(lens, s, h);
  }

  lemma TablesFind(t: seq<Code>, root: nat, lens: seq<nat>, ct: CodeType, h: nat) returns (e: Code, n: nat)
    requires TablesFor(t, root, lens, ct)
    ensures Finds(t, root, h, e, n) && 1 <= n <= 15
  {
    if NoneLeads(lens, h) {
      e, n := InvalidEntry(), 1;
    } else {
      var s: nat :| Leads(lens, s, h);
      TablesGive(t, root, lens, ct, s, h);
      e, n := SymbolEntry(ct, s, LastBits(lens[s], root)), lens[s];
    }
  }

  lemma NoneSame(t: seq<Code>, root: nat, lens: seq<nat>, ct: CodeType, g: nat, h: nat)
    requires TablesFor(t, root, lens, ct) && NoneLeads(lens, g) && g % 2 == h % 2
    ensures Finds(t, root, h, InvalidEntry(), 1)
  {
  }

  /** What the first b bits settle, later bits do not change. */
  lemma Settled(t: seq<Code>, root: nat, lens: seq<nat>, ct: CodeType, g: nat, h: nat, b: nat, e: Code, n: nat)
    requires TablesFor(t, root, lens, ct) && Finds(t, root, g, e, n) && n <= b && g % Pow2(b) == h % Pow2(b)
    ensures Finds(t, root, h, e, n)
  {
    if NoneLeads(lens, g) {
      NoneSame(t, root, lens, ct, g, g);
      FindsOnce(t, root, g, e, n, InvalidEntry(), 1);
      LowestSame(g, h, b);
      NoneSame(t, root, lens, ct, g, h);
    } else {
      var s: nat :| Leads(lens, s, g);
      TablesGive(t, root, lens, ct, s, g);
      FindsOnce(t, root, g, e, n, SymbolEntry(ct, s, LastBits(lens[s], root)), lens[s]);
      LeadsSame(lens, s, g, h, b);
      TablesGive(t, root, lens, ct, s, h);
    }
  }

  lemma LowestSame(g: nat, h: nat, b: nat)
    requires b >= 1 && g % Pow2(b) == h % Pow2(b)
    ensures g % 2 == h % 2
  {
    assert Pow2(1) == 2;
    ModMod(g, 1, b);
    ModMod(h, 1, b);
  }

  lemma TableLinks(t: seq<Code>, root: nat, lens: seq<nat>, ct: CodeType, h: nat)
    requires TablesFor(t, root, lens, ct)
    ensures 1 <= root <= 15 && Pow2(root) > 0 && 0 <= h % Pow2(root) < |t|
    ensures IsLink(t[h % Pow2(root)]) ==> t[h % Pow2(root)].bits == root
  {
    DivMod(h, Pow2(root));
    assert LinkWhole(t, root, h);
  }

  /* ---- reading the tables by the bits held ---- */

  /** Behind a link the entry of the second table. */
  lemma SecondFinds(t: seq<Code>, root: nat, lens: seq<nat>, ct: CodeType, g: nat)
    requires TablesFor(t, root, lens, ct) && g % Pow2(root) < |t| && IsLink(t[g % Pow2(root)])
    ensures var a := t[g % Pow2(root)];
            && a.bits == root && SecondIndex(a, g) < |t|
            && Finds(t, root, g, t[SecondIndex(a, g)], root + t[SecondIndex(a, g)].bits)
  {
    TableLinks(t, root, lens, ct, g);
    var e, n := TablesFind(t, root, lens, ct, g);
  }

  lemma SecondBits(a: Code, g: nat)
    ensures Pow2(a.bits) > 0 && Pow2(a.bits + a.op) > 0
    ensures a.val + g % Pow2(a.bits + a.op) / Pow2(a.bits) == SecondIndex(a, g)
  {
    ModSplit(g, a.bits, a.op);
    SecondIs(a, g);
  }

  /** Where a lookup by the bits held stands: they agree with all bits to come. */
  ghost predicate Agree(hold: nat, bits: nat, h: nat) {
    hold < Pow2(bits) && h % Pow2(bits) == hold
  }

  lemma AgreeOf(hold: nat, bits: nat, rest: seq<Byte>)
    requires hold < Pow2(bits)
    ensures Agree(hold, bits, Upcoming(hold, bits, rest))
  {
    DropKeeps(hold, bits, rest, bits);
    DivUnique(hold, Pow2(bits), 0, hold);
  }

  lemma AgreeBelow(hold: nat, bits: nat, h: nat, n: nat)
    requires Agree(hold, bits, h) && n <= bits
    ensures Pow2(n) > 0 && hold % Pow2(n) == h % Pow2(n)
  {
    ModMod(h, n, bits);
  }

  /** The entry found is that of all the bits to come. */
  lemma FoundAhead(t: seq<Code>, root: nat, lens: seq<nat>, ct: CodeType, hold: nat, bits: nat, h: nat, e: Code, n: nat)
    requires TablesFor(t, root, lens, ct) && Agree(hold, bits, h) && Finds(t, root, hold, e, n) && n <= bits
    ensures Finds(t, root, h, e, n)
  {
    hide *;
    AgreeBelow(hold, bits, h, bits);
    Settled(t, root, lens, ct, hold, h, bits, e, n);
  }

  /** a is the entry of the root table for the bits g. */
  ghost predicate AtRoot(t: seq<Code>, root: nat, g: nat, a: Code) {
    0 <= g % Pow2(root) < |t| && a == t[g % Pow2(root)]
  }

  /** b is the entry of the table that a links to. */
  ghost predicate AtSecond(t: seq<Code>, a: Code, g: nat, b: Code) {
    SecondIndex(a, g) < |t| && b == t[SecondIndex(a, g)]
  }

  lemma RootEntry(t: seq<Code>, root: nat, lens: seq<nat>, ct: CodeType, g: nat)
    requires TablesFor(t, root, lens, ct)
    ensures 1 <= root <= 15 && Pow2(root) > 0 && 0 <= g % Pow2(root) < |t|
    ensures AtRoot(t, root, g, t[g % Pow2(root)]) && t[g % Pow2(root)].bits <= 15
  {
    TableLinks(t, root, lens, ct, g);
    var e, n := TablesFind(t, root, lens, ct, g);
    FindsIs(t, root, g, e, n);
  }

  lemma SecondEntry(t: seq<Code>, root: nat, lens: seq<nat>, ct: CodeType, g: nat, a: Code)
    requires TablesFor(t, root, lens, ct) && AtRoot(t, root, g, a) && IsLink(a)
    ensures a.bits == root <= 15 && SecondIndex(a, g) < |t|
    ensures AtSecond(t, a, g, t[SecondIndex(a, g)]) && root + t[SecondIndex(a, g)].bits <= 15
    ensures Pow2(a.bits) > 0 && Pow2(a.bits + a.op) > 0
    ensures a.val + g % Pow2(a.bits + a.op) / Pow2(a.bits) == SecondIndex(a, g)
  {
    SecondBits(a, g);
    SecondFinds(t, root, lens, ct, g);
    RootEntry(t, root, lens, ct, g);
    var e, n := TablesFind(t, root, lens, ct, g);
    FindsOnce(t, root, g, e, n, t[SecondIndex(a, g)], root + t[SecondIndex(a, g)].bits);
  }

  lemma FoundFirst(t: seq<Code>, root: nat, g: nat, a: Code)
    requires AtRoot(t, root, g, a) && !IsLink(a)
    ensures Finds(t, root, g, a, a.bits)
  {
  }

  lemma FoundSecond(t: seq<Code>, root: nat, g: nat, a: Code, b: Code)
    requires AtRoot(t, root, g, a) && IsLink(a) && AtSecond(t, a, g, b)
    ensures Finds(t, root, g, b, a.bits + b.bits)
  {
  }

  /** A root table indexed by as many bits as the longest code has needs no second one. */
  lemma NoLink(t: seq<Code>, root: nat, lens: seq<nat>, ct: CodeType, g: nat, a: Code)
    requires TablesFor(t, root, lens, ct) && AllWithin(lens, root) && AtRoot(t, root, g, a)
    ensures !IsLink(a)
  {
    TableLinks(t, root, lens, ct, g);
    if NoneLeads(lens, g) {
      FindsIs(t, root, g, InvalidEntry(), 1);
    } else {
      var s: nat :| Leads(lens, s, g);
      TablesGive(t, root, lens, ct, s, g);
      FindsIs(t, root, g, SymbolEntry(ct, s, LastBits(lens[s], root)), lens[s]);
    }
  }

  lemma RootStays(t: seq<Code>, root: nat, g: nat, h: nat, a: Code)
    requires AtRoot(t, root, g, a) && g % Pow2(root) == h % Pow2(root)
    ensures AtRoot(t, root, h, a)
  {
  }

  /** When the bits held do not yet show the entry they seem to find, the code to come is longer than they are. */
  lemma LongerThanHeld(t: seq<Code>, root: nat, lens: seq<nat>, ct: CodeType, hold: nat, bits: nat, h: nat,
                       e: Code, n: nat, f: Code, m: nat)
    requires TablesFor(t, root, lens, ct) && Agree(hold, bits, h)
    requires Finds(t, root, h, e, n) && Finds(t, root, hold, f, m) && m > bits
    ensures n > bits
  {
    hide *;
    if n <= bits {
      AgreeBelow(hold, bits, h, bits);
      Settled(t, root, lens, ct, h, hold, bits, e, n);
      FindsOnce(t, root, hold, e, n, f, m);
    }
  }

  lemma RootTooLong(t: seq<Code>, root: nat, lens: seq<nat>, ct: CodeType, hold: nat, bits: nat, h: nat,
                    e: Code, n: nat, a: Code)
    requires TablesFor(t, root, lens, ct) && Agree(hold, bits, h) && Finds(t, root, h, e, n)
    requires AtRoot(t, root, hold, a) && a.bits > bits
    ensures n > bits
  {
    hide *;
    if IsLink(a) {
      SecondEntry(t, root, lens, ct, hold, a);
      FoundSecond(t, root, hold, a, t[SecondIndex(a, hold)]);
      LongerThanHeld(t, root, lens, ct, hold, bits, h, e, n, t[SecondIndex(a, hold)],
                     a.bits + t[SecondIndex(a, hold)].bits);
    } else {
      FoundFirst(t, root, hold, a);
      LongerThanHeld(t, root, lens, ct, hold, bits, h, e, n, a, a.bits);
    }
  }
}
