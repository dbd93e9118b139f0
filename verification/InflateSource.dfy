/** The state of inflateBack: the bits it has taken in, and looking up codes in them. */
module InflateSource {
  import opened Arithmetic
  import opened MachineInts
  import opened SetSums
  import opened BitStream
  import opened NextCodes
  import opened TableLayout
  import opened InflateTable
  import opened InflateBits

  ghost predicate NoneEmpty(pieces: seq<seq<Byte>>) {
    forall k :: 0 <= k < |pieces| ==> pieces[k] != []
  }

  class BitSource {
    var hold: nat                // bits taken in but not used up
    var bits: nat                // how many there are
    var piece: seq<Byte>         // the bytes the last call of in() handed over
    var next: nat                // how many of them are taken in
    var later: seq<seq<Byte>>    // what further calls will hand over

    ghost predicate Valid()
      reads this
    {
      hold < Pow2(bits) && next <= |piece| && NoneEmpty(later)
    }

    /** The bytes not yet taken in. */
    ghost function Rest(): seq<Byte>
      requires Valid()
      reads this
    {
      piece[next..] + Join(later)
    }

    /** All bits to come. */
    ghost function Ahead(): nat
      requires Valid()
      reads this
    {
      Upcoming(hold, bits, Rest())
    }

    /** How many bits are to come. */
    ghost function Avail(): nat
      requires Valid()
      reads this
    {
      bits + 8 * |Rest()|
    }

    lemma ValidIs()
      ensures Valid() <==> hold < Pow2(bits) && next <= |piece| && NoneEmpty(later)
    {
    }

    lemma Parts()
      requires Valid()
      ensures hold < Pow2(bits) && next <= |piece| && NoneEmpty(later)
      ensures Rest() == piece[next..] + Join(later)
      ensures Ahead() == Upcoming(hold, bits, Rest()) && Avail() == bits + 8 * |Rest()|
    {
    }

    lemma Held()
      requires Valid()
      ensures Agree(hold, bits, Ahead()) && hold < Pow2(bits) && bits <= Avail()
    {
      AgreeOf(hold, bits, Rest());
    }

    /** Starts with no bits held and the pieces that in() will hand over. */
    constructor (pieces: seq<seq<Byte>>)
      requires NoneEmpty(pieces)
      ensures Valid() && Ahead() == Little(Join(pieces)) && Avail() == 8 * |Join(pieces)| && bits == 0
    {
      hold, bits, piece, next, later := 0, 0, [], 0, pieces;
      new;
      assert Pow2(0) == 1;
      assert piece[0..] + Join(pieces) == Join(pieces);
    }

    /** Makes the next byte present; false when in() has no more. */
    method Pull() returns (ok: bool)
      requires Valid()
      modifies `piece, `next, `later
      ensures Valid() && Rest() == old(Rest()) && Ahead() == old(Ahead()) && Avail() == old(Avail())
      ensures ok <==> Rest() != []
      ensures ok ==> next < |piece|
    {
      if next == |piece| {
        assert piece[next..] == [];
        if later == [] {
          JoinNone();
          return false;
        }
        JoinNext(later);
        piece, next := later[0], 0;
        later := later[1..];
      }
      ok := true;
    }

    /** Takes in the byte at hand. */
    method TakeByte()
      requires Valid() && next < |piece|
      modifies `hold, `bits, `next
      ensures Valid() && Ahead() == old(Ahead()) && Avail() == old(Avail())
      ensures bits == old(bits) + 8 && next == old(next) + 1 && |Rest()| < |old(Rest())|
    {
      PullKeeps(hold, bits, Rest());
      assert Rest()[1..] == piece[next + 1..] + Join(later);
      hold := hold + piece[next] * Pow2(bits);
      next := next + 1;
      bits := bits + 8;
    }

    /** With no bits held, the bits to come are those of the bytes to come. */
    lemma NoneHeld()
      requires Valid() && bits == 0
      ensures Ahead() == Little(Rest()) && Avail() == 8 * |Rest()|
    {
      assert Pow2(0) == 1;
    }

    /** Takes in a byte, if there is one. */
    method PullByte() returns (ok: bool)
      requires Valid()
      modifies this
      ensures Valid() && Ahead() == old(Ahead()) && Avail() == old(Avail())
      ensures ok ==> bits == old(bits) + 8 && |Rest()| < |old(Rest())|
      ensures !ok ==> bits == old(bits) && hold == old(hold) && Avail() == bits && Ahead() == hold
    {
      ok := Pull();
      if ok {
        TakeByte();
      } else {
        UpcomingIs(hold, bits, []);
      }
    }

    /** Uses up n of the bits held. */
    method DropBits(n: nat)
      requires Valid() && n <= bits
      modifies `hold, `bits
      ensures Valid() && Pow2(n) > 0 && Ahead() == old(Ahead()) / Pow2(n)
      ensures Avail() == old(Avail()) - n && bits == old(bits) - n && hold == old(hold) / Pow2(n)
    {
      DropKeeps(hold, bits, Rest(), n);
      hold := hold / Pow2(n);
      bits := bits - n;
    }

    /** Makes n bits present, if there are as many. */
    method NeedBits(n: nat) returns (ok: bool)
      requires Valid()
      modifies this
      ensures Valid() && Ahead() == old(Ahead()) && Avail() == old(Avail())
      ensures ok <==> n <= Avail()
      ensures ok ==> n <= bits
      ensures bits == old(bits) || bits < n + 8
    {
      hide *;
      Parts();
      ok := true;
      while bits < n
        invariant Valid() && Ahead() == old(Ahead()) && Avail() == old(Avail()) && bits <= Avail()
        invariant bits == old(bits) || bits < n + 8
        decreases |Rest()|
      {
        ok := PullByte();
        Parts();
        if !ok {
          return;
        }
      }
    }

    /** The next n bits as a number, used up. */
    method TakeBits(n: nat) returns (ok: bool, v: nat)
      requires Valid()
      modifies this
      ensures Valid() && Pow2(n) > 0 && (ok <==> n <= old(Avail()))
      ensures ok ==> v == old(Ahead()) % Pow2(n) && Ahead() == old(Ahead()) / Pow2(n) && Avail() == old(Avail()) - n
      ensures ok && old(bits) < 8 ==> bits < 8
      ensures Avail() <= old(Avail())
    {
      hide *;
      PowPositive(n);
      v := 0;
      ok := NeedBits(n);
      if ok {
        Parts();
        DropKeeps(hold, bits, Rest(), n);
        v := hold % Pow2(n);
        DropBits(n);
      }
    }

    /** The entry of the root table for the next bits; false when the input ends before its bits are all held. */
    method LookupRoot(table: array<Code>, at: nat, root: nat, ghost lens: seq<nat>, ghost ct: CodeType,
                      ghost e: Code, ghost n: nat)
      returns (ok: bool, here: Code)
      requires Valid() && at <= table.Length && TablesFor(table[at..], root, lens, ct)
      requires Finds(table[at..], root, Ahead(), e, n)
      modifies this
      ensures Valid() && Ahead() == old(Ahead()) && Avail() == old(Avail())
      ensures AtRoot(table[at..], root, hold, here)
      ensures ok <==> here.bits <= bits
      ensures !ok ==> Avail() == bits && Ahead() == hold
      ensures bits == old(bits) || bits < n + 8
    {
      hide *;
      ghost var t, h := table[at..], Ahead();
      RootEntry(t, root, lens, ct, hold);
      here := table[at + hold % Pow2(root)];
      ok := true;
      while here.bits > bits
        invariant Valid() && Ahead() == h && Avail() == old(Avail())
        invariant t == table[at..] && AtRoot(t, root, hold, here) && ok
        invariant bits == old(bits) || bits < n + 8
        decreases |Rest()|
      {
        Held();
        RootTooLong(t, root, lens, ct, hold, bits, h, e, n, here);
        ok := PullByte();
        if !ok {
          return;
        }
        RootEntry(t, root, lens, ct, hold);
        here := table[at + hold % Pow2(root)];
      }
    }

    /** The entry of the table that last links to. */
    method LookupSecond(table: array<Code>, at: nat, root: nat, last: Code, ghost lens: seq<nat>, ghost ct: CodeType,
                        ghost e: Code, ghost n: nat)
      returns (ok: bool, here: Code)
      requires Valid() && at <= table.Length && TablesFor(table[at..], root, lens, ct)
      requires Finds(table[at..], root, Ahead(), e, n)
      requires AtRoot(table[at..], root, hold, last) && IsLink(last) && last.bits <= bits
      modifies this
      ensures Valid() && Ahead() == old(Ahead()) && Avail() == old(Avail())
      ensures AtRoot(table[at..], root, hold, last) && AtSecond(table[at..], last, hold, here)
      ensures ok <==> last.bits + here.bits <= bits
      ensures last.bits <= bits
      ensures !ok ==> Avail() == bits && Ahead() == hold
      ensures bits == old(bits) || bits < n + 8
    {
      hide *;
      ghost var t, h := table[at..], Ahead();
      SecondEntry(t, root, lens, ct, hold, last);
      here := table[at + last.val + hold % Pow2(last.bits + last.op) / Pow2(last.bits)];
      ok := true;
      while last.bits + here.bits > bits
        invariant Valid() && Ahead() == h && Avail() == old(Avail())
        invariant t == table[at..] && AtRoot(t, root, hold, last) && AtSecond(t, last, hold, here)
        invariant last.bits == root <= bits && ok
        invariant bits == old(bits) || bits < n + 8
        decreases |Rest()|
      {
        Held();
        AgreeBelow(hold, bits, h, root);
        ghost var g := hold;
        FoundSecond(t, root, hold, last, here);
        LongerThanHeld(t, root, lens, ct, hold, bits, h, e, n, here, last.bits + here.bits);
        ok := PullByte();
        if !ok {
          return;
        }
        Held();
        AgreeBelow(hold, bits, h, root);
        RootStays(t, root, g, hold, last);
        SecondEntry(t, root, lens, ct, hold, last);
        here := table[at + last.val + hold % Pow2(last.bits + last.op) / Pow2(last.bits)];
      }
    }

    /** Takes n bytes of the piece at hand, no bits being held. */
    method TakePiece(n: nat)
      requires Valid() && bits == 0 && next + n <= |piece|
      modifies `next
      ensures Valid() && n <= |old(Rest())| && Rest() == old(Rest())[n..]
      ensures old(piece[next..next + n]) == old(Rest())[..n] && next == old(next) + n
    {
      next := next + n;
    }

    /** The next n bits as a number, all of them held and not used up. */
    method Low(n: nat) returns (v: nat)
      requires Valid() && n <= bits
      ensures Pow2(n) > 0 && v == Ahead() % Pow2(n)
    {
      hide *;
      Parts();
      DropKeeps(hold, bits, Rest(), n);
      v := hold % Pow2(n);
    }

    /** Looks up the next code in a root table without links. Bytes are taken in only as long as the entry found asks
        for more bits than are held; no bits are used up. */
    method Peek(table: array<Code>, at: nat, root: nat, ghost lens: seq<nat>, ghost ct: CodeType)
      returns (ok: bool, here: Code, ghost e: Code, ghost n: nat)
      requires Valid() && at <= table.Length && TablesFor(table[at..], root, lens, ct) && AllWithin(lens, root)
      modifies this
      ensures Valid() && Ahead() == old(Ahead()) && Avail() == old(Avail())
      ensures Finds(table[at..], root, Ahead(), e, n) && n >= 1 && (ok <==> n <= Avail())
      ensures ok ==> here == e && n == here.bits <= bits
      ensures bits == old(bits) || bits < n + 8
    {
      hide *;
      ghost var t, h := table[at..], Ahead();
      e, n := TablesFind(t, root, lens, ct, h);
      ok, here := LookupRoot(table, at, root, lens, ct, e, n);
      Held();
      if ok {
        NoLink(t, root, lens, ct, hold, here);
        FoundFirst(t, root, hold, here);
        FoundAhead(t, root, lens, ct, hold, bits, h, here, here.bits);
        FindsOnce(t, root, h, e, n, here, here.bits);
      } else {
        RootTooLong(t, root, lens, ct, hold, bits, h, e, n, here);
      }
    }

    /** Looks up the next code and uses it up: first in the root table, then, behind a link, in a second one. Bytes are
        taken in only as long as the entry found asks for more bits than are held. */
    method Lookup(table: array<Code>, at: nat, root: nat, ghost lens: seq<nat>, ghost ct: CodeType)
      returns (ok: bool, here: Code, ghost e: Code, ghost n: nat)
      requires Valid() && at <= table.Length && TablesFor(table[at..], root, lens, ct)
      modifies this
      ensures Valid() && Finds(table[at..], root, old(Ahead()), e, n) && Pow2(n) > 0
      ensures n >= 1 && Avail() <= old(Avail()) && (ok <==> n <= old(Avail()))
      ensures ok ==> here == e && Ahead() == old(Ahead()) / Pow2(n) && Avail() == old(Avail()) - n
      ensures ok && old(bits) < 8 ==> bits < 8
    {
      hide *;
      ghost var t, h := table[at..], Ahead();
      e, n := TablesFind(t, root, lens, ct, h);
      PowPositive(n);
      ok, here := LookupRoot(table, at, root, lens, ct, e, n);
      Held();
      if ok && IsLink(here) {
        var last := here;
        ok, here := LookupSecond(table, at, root, last, lens, ct, e, n);
        Held();
        FoundSecond(t, root, hold, last, here);
        if ok {
          FoundAhead(t, root, lens, ct, hold, bits, h, here, last.bits + here.bits);
          FindsOnce(t, root, h, e, n, here, last.bits + here.bits);
          DropBits(last.bits);
          DropBits(here.bits);
          TwoDrops(h, last.bits, here.bits);
        } else {
          FindsOnce(t, root, h, e, n, here, last.bits + here.bits);
        }
      } else if ok {
        FoundFirst(t, root, hold, here);
        FoundAhead(t, root, lens, ct, hold, bits, h, here, here.bits);
        FindsOnce(t, root, h, e, n, here, here.bits);
        DropBits(here.bits);
      } else {
        RootTooLong(t, root, lens, ct, hold, bits, h, e, n, here);
      }
    }

    /** Looks up and uses up the next code without a test, 15 bits being held. */
    method LookupFast(table: array<Code>, at: nat, root: nat, ghost lens: seq<nat>, ghost ct: CodeType)
      returns (here: Code, ghost n: nat)
      requires Valid() && at <= table.Length && TablesFor(table[at..], root, lens, ct) && bits >= 15
      modifies `hold, `bits
      ensures Valid() && Finds(table[at..], root, old(Ahead()), here, n) && Pow2(n) > 0 && n <= 15
      ensures Ahead() == old(Ahead()) / Pow2(n) && Avail() == old(Avail()) - n && bits == old(bits) - n
    {
      hide *;
      ghost var t, h, g := table[at..], Ahead(), hold;
      Held();
      RootEntry(t, root, lens, ct, hold);
      here := table[at + hold % Pow2(root)];
      DropBits(here.bits);
      n := here.bits;
      if IsLink(here) {
        var last := here;
        SecondEntry(t, root, lens, ct, g, last);
        SecondIs(last, g);
        here := table[at + last.val + hold % Pow2(last.op)];
        FoundSecond(t, root, g, last, here);
        n := last.bits + here.bits;
        DropBits(here.bits);
        TwoDrops(h, last.bits, here.bits);
      } else {
        FoundFirst(t, root, g, here);
      }
      FoundAhead(t, root, lens, ct, g, old(bits), h, here, n);
    }
  }

  lemma TwoDrops(h: nat, a: nat, b: nat)
    ensures Pow2(a) > 0 && Pow2(b) > 0 && Pow2(a + b) > 0 && 0 <= h / Pow2(a)
    ensures h / Pow2(a) / Pow2(b) == h / Pow2(a + b)
  {
    Pow2Add(a, b);
    var p, q := Pow2(a), Pow2(b);
    hide *;
    DivTwice(h, p, q);
  }

  lemma DivTwice(h: nat, p: nat, q: nat)
    requires p > 0 && q > 0 && p * q > 0
    ensures 0 <= h / p && h / p / q == h / (p * q)
  {
    var a, b := h / p, h % p;
    DivMod(h, p);
    DivMod(a, q);
    var c, d := a / q, a % q;
    assert a * p == (c * q) * p + d * p by { Spread(c * q, d, p); }
    assert (c * q) * p == c * (p * q);
    ScaleUp2(d + 1, q, p);
    Spread(d, 1, p);
    DivUnique(h, p * q, c, d * p + b);
  }
}
