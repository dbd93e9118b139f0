/** The SMALL form of undoing the block sort: 20-bit links, reversed in place along one cycle. */
module BwtSmall {
  import opened MachineInts
  import opened Permutations
  import opened Counting
  import opened Bwt
  import opened BwtDecode

  /* ---- 20-bit links: 16 bits in ll16 and 4 in a nibble of ll4 ---- */

  function Nibble(v: Byte, i: nat): nat {
    if i % 2 == 0 then v % 16 else v / 16
  }

  function WithNibble(v: Byte, i: nat, n: nat): (r: Byte)
    requires n < 16
    ensures Nibble(r, i) == n && Nibble(r, i + 1) == Nibble(v, i + 1)
  {
    if i % 2 == 0 then v - v % 16 + n else v % 16 + 16 * n
  }

  function LinkOf(low: UInt16, nibbles: Byte, i: nat): nat {
    low + 0x1_0000 * Nibble(nibbles, i)
  }

  ghost function SmallLinks(s16: seq<UInt16>, s4: seq<Byte>, n: nat): (r: seq<nat>)
    requires n <= |s16| && n <= 2 * |s4|
    ensures |r| == n
  {
    seq(n, i requires 0 <= i < n => LinkOf(s16[i], s4[i / 2], i))
  }

  lemma SmallLinksUpdate(s16: seq<UInt16>, s4: seq<Byte>, n: nat, i: nat, v: nat)
    requires i < n <= |s16| && n <= 2 * |s4| && v < 0x10_0000
    ensures SmallLinks(s16[i := v % 0x1_0000], s4[i / 2 := WithNibble(s4[i / 2], i, v / 0x1_0000)], n) ==
      SmallLinks(s16, s4, n)[i := v]
  {
    var t16, t4 := s16[i := v % 0x1_0000], s4[i / 2 := WithNibble(s4[i / 2], i, v / 0x1_0000)];
    var a, b := SmallLinks(t16, t4, n), SmallLinks(s16, s4, n)[i := v];
    forall j | 0 <= j < n ensures a[j] == b[j] {
      if j != i && j / 2 == i / 2 { assert j == i + 1 || j + 1 == i; }
    }
  }

  method GetLink(ll16: array<UInt16>, ll4: array<Byte>, i: nat, ghost n: nat) returns (r: nat)
    requires i < n <= ll16.Length && n <= 2 * ll4.Length
    ensures r == SmallLinks(ll16[..], ll4[..], n)[i]
  {
    r := LinkOf(ll16[i], ll4[i / 2], i);
  }

  method SetLink(ll16: array<UInt16>, ll4: array<Byte>, i: nat, v: nat, ghost n: nat)
    requires i < n <= ll16.Length && n <= 2 * ll4.Length && v < 0x10_0000
    modifies ll16, ll4
    ensures SmallLinks(ll16[..], ll4[..], n) == old(SmallLinks(ll16[..], ll4[..], n))[i := v]
    ensures ll16[..] == old(ll16[..])[i := v % 0x1_0000]
  {
    hide *;
    ghost var s16, s4 := ll16[..], ll4[..];
    SmallLinksUpdate(s16, s4, n, i, v);
    var low: UInt16 := v % 0x1_0000;
    ll16[i] := low;
    ll4[i / 2] := WithNibble(ll4[i / 2], i, v / 0x1_0000);
    assert ll16[..] == s16[i := low];
    assert ll4[..] == s4[i / 2 := WithNibble(s4[i / 2], i, v / 0x1_0000)];
  }

  /* ---- the slot of every row, written over the bytes ---- */

  ghost predicate SlotsSoFar(last: seq<Byte>, s16: seq<UInt16>, links: seq<nat>, i: nat) {
    && i <= |last| == |links| <= |s16|
    && (forall r :: 0 <= r < i ==> links[r] == Slot(last, r))
    && (forall r :: i <= r < |last| ==> s16[r] == last[r])
  }

  lemma SlotsSoFarStart(last: seq<Byte>, s16: seq<UInt16>, links: seq<nat>)
    requires |last| == |links| <= |s16| && forall j :: 0 <= j < |last| ==> s16[j] == last[j]
    ensures SlotsSoFar(last, s16, links, 0)
  {
  }

  lemma SlotsSoFarEnd(last: seq<Byte>, s16: seq<UInt16>, links: seq<nat>)
    requires SlotsSoFar(last, s16, links, |last|)
    ensures links == Slots(last)
  {
  }

  lemma SlotsSoFarStep(last: seq<Byte>, s16: seq<UInt16>, links: seq<nat>, i: nat)
    requires SlotsSoFar(last, s16, links, i) && i < |last| < 0x10_0000
    ensures s16[i] % 256 == last[i] && Slot(last, i) < 0x10_0000
    ensures SlotsSoFar(last, s16[i := Slot(last, i) % 0x1_0000], links[i := Slot(last, i)], i + 1)
  {
  }

  method BuildSlots(ll16: array<UInt16>, ll4: array<Byte>, cftabCopy: array<int>, nblock: nat, ghost last: seq<Byte>)
    requires nblock == |last| <= ll16.Length && nblock <= 2 * ll4.Length && nblock < 0x10_0000
    requires AreStarts(last, cftabCopy[..])
    requires forall j :: 0 <= j < nblock ==> ll16[j] == last[j]
    modifies ll16, ll4, cftabCopy
    ensures SmallLinks(ll16[..], ll4[..], nblock) == Slots(last)
  {
    hide *;
    NextSlotsStart(last, cftabCopy[..]);
    SlotsSoFarStart(last, ll16[..], SmallLinks(ll16[..], ll4[..], nblock));
    for i := 0 to nblock
      invariant SlotsSoFar(last, ll16[..], SmallLinks(ll16[..], ll4[..], nblock), i)
      invariant NextSlots(last, cftabCopy[..], i)
    {
      ghost var c := cftabCopy[..];
      NextSlotsStep(last, c, i);
      SlotsSoFarStep(last, ll16[..], SmallLinks(ll16[..], ll4[..], nblock), i);
      var uc := ll16[i] % 256;
      SetLink(ll16, ll4, i, cftabCopy[uc], nblock);
      assert cftabCopy[..] == c;
      cftabCopy[uc] := cftabCopy[uc] + 1;
      assert cftabCopy[..] == c[last[i] := c[last[i]] + 1];
    }
    SlotsSoFarEnd(last, ll16[..], SmallLinks(ll16[..], ll4[..], nblock));
  }

  /* ---- cycles of a permutation ---- */

  lemma {:induction false} RowsCancel(f: seq<nat>, n: nat, o: nat, a: nat, b: nat)
    requires IsPermutation(f, n) && o < n && a <= b && Row(f, o, a) == Row(f, o, b)
    ensures Row(f, o, b - a) == o
    decreases a
  {
    if a > 0 {
      assert f[Row(f, o, a - 1)] == f[Row(f, o, b - 1)];
      RowsCancel(f, n, o, a - 1, b - 1);
    }
  }

  ghost predicate Returns(f: seq<nat>, o: nat, m: nat)
    requires o < |f| && Below(f, |f|)
  {
    && 1 <= m <= |f| && Row(f, o, m) == o
    && forall p :: 1 <= p < m ==> Row(f, o, p) != o
  }

  ghost function Rows(f: seq<nat>, o: nat, m: nat): (r: seq<nat>)
    requires o < |f| && Below(f, |f|)
    ensures |r| == m && forall k :: 0 <= k < m ==> r[k] == Row(f, o, k)
  {
    seq(m, k requires 0 <= k < m => Row(f, o, k))
  }

  lemma MustReturn(f: seq<nat>, n: nat, o: nat)
    requires IsPermutation(f, n) && o < n
    ensures exists m :: 1 <= m <= n && Row(f, o, m) == o
  {
    if forall m :: 1 <= m <= n ==> Row(f, o, m) != o {
      var r := Rows(f, o, n + 1);
      forall a, b | 0 <= a < b < n + 1 ensures r[a] != r[b] {
        if r[a] == r[b] { RowsCancel(f, n, o, a, b); }
      }
      ElementsSize(r);
      SubsetSize(Elements(r), Numbers(n));
    }
  }

  /** Every row lies on a cycle; m is how many steps it takes to come round. */
  lemma Period(f: seq<nat>, n: nat, o: nat) returns (m: nat)
    requires IsPermutation(f, n) && o < n
    ensures Returns(f, o, m)
  {
    MustReturn(f, n, o);
    m := 1;
    while Row(f, o, m) != o
      invariant 1 <= m <= n && forall p :: 1 <= p < m ==> Row(f, o, p) != o
      invariant exists k :: m <= k <= n && Row(f, o, k) == o
      decreases n - m
    {
      m := m + 1;
    }
  }

  /* ---- pointer reversal ---- */

  ghost predicate Met(f: seq<nat>, o: nat, k: nat, x: nat)
    requires o < |f| && Below(f, |f|)
  {
    exists p :: 1 <= p <= k && Row(f, o, p) == x
  }

  lemma MetNext(f: seq<nat>, o: nat, k: nat, x: nat)
    requires o < |f| && Below(f, |f|)
    ensures Met(f, o, k + 1, x) <==> Met(f, o, k, x) || x == Row(f, o, k + 1)
  {
  }

  /** The link of the row after step p has been turned back. */
  ghost predicate TurnedAt(f: seq<nat>, ll: seq<nat>, o: nat, p: nat)
    requires o < |f| == |ll| && Below(f, |f|)
  {
    ll[Row(f, o, p + 1)] == Row(f, o, p)
  }

  /** The first k links met on the way round from o have been turned back. */
  ghost predicate TurnedBack(f: seq<nat>, ll: seq<nat>, o: nat, k: nat)
    requires o < |f| && Below(f, |f|)
  {
    && |ll| == |f|
    && (forall p: nat :: p < k ==> TurnedAt(f, ll, o, p))
    && (forall x :: 0 <= x < |f| && !Met(f, o, k, x) ==> ll[x] == f[x])
  }

  lemma TurnStart(f: seq<nat>, o: nat)
    requires o < |f| && Below(f, |f|)
    ensures TurnedBack(f, f, o, 0)
  {
  }

  lemma NotYetMet(f: seq<nat>, n: nat, o: nat, m: nat, k: nat)
    requires IsPermutation(f, n) && o < n && Returns(f, o, m) && k < m
    ensures !Met(f, o, k, Row(f, o, k + 1))
  {
    if Met(f, o, k, Row(f, o, k + 1)) {
      var p :| 1 <= p <= k && Row(f, o, p) == Row(f, o, k + 1);
      RowsCancel(f, n, o, p, k + 1);
    }
  }

  lemma TurnReads(f: seq<nat>, n: nat, ll: seq<nat>, o: nat, m: nat, k: nat)
    requires IsPermutation(f, n) && o < n && Returns(f, o, m) && k < m && TurnedBack(f, ll, o, k)
    ensures Row(f, o, k + 1) < n && ll[Row(f, o, k + 1)] == Row(f, o, k + 2)
  {
    NotYetMet(f, n, o, m, k);
  }

  lemma TurnKeeps(f: seq<nat>, n: nat, ll: seq<nat>, o: nat, m: nat, k: nat, p: nat)
    requires IsPermutation(f, n) && o < n && Returns(f, o, m) && k < m && TurnedBack(f, ll, o, k)
    requires p <= k
    ensures TurnedAt(f, ll[Row(f, o, k + 1) := Row(f, o, k)], o, p)
  {
    hide *;
    PermutationFacts(f, n);
    TurnedLength(f, ll, o, k);
    var j := Row(f, o, k + 1);
    if p == k {
      TurnedNow(f, ll, o, k);
    } else {
      TurnedBefore(f, ll, o, k, p);
      NotYetMet(f, n, o, m, k);
      MetAt(f, o, k, p + 1);
      TurnedUpdate(f, ll, o, p, j, Row(f, o, k));
    }
  }

  lemma TurnedLength(f: seq<nat>, ll: seq<nat>, o: nat, k: nat)
    requires o < |f| && Below(f, |f|) && TurnedBack(f, ll, o, k)
    ensures |ll| == |f|
  {
  }

  lemma MetAt(f: seq<nat>, o: nat, k: nat, p: nat)
    requires o < |f| && Below(f, |f|) && 1 <= p <= k
    ensures Met(f, o, k, Row(f, o, p))
  {
  }

  lemma TurnedNow(f: seq<nat>, ll: seq<nat>, o: nat, k: nat)
    requires o < |f| == |ll| && Below(f, |f|)
    ensures TurnedAt(f, ll[Row(f, o, k + 1) := Row(f, o, k)], o, k)
  {
  }

  lemma TurnedBefore(f: seq<nat>, ll: seq<nat>, o: nat, k: nat, p: nat)
    requires o < |f| && Below(f, |f|) && TurnedBack(f, ll, o, k) && p < k
    ensures TurnedAt(f, ll, o, p)
  {
  }

  lemma TurnedUpdate(f: seq<nat>, ll: seq<nat>, o: nat, p: nat, x: nat, v: nat)
    requires o < |f| == |ll| && Below(f, |f|) && TurnedAt(f, ll, o, p) && x < |ll| && x != Row(f, o, p + 1)
    ensures TurnedAt(f, ll[x := v], o, p)
  {
  }

  lemma TurnStep(f: seq<nat>, n: nat, ll: seq<nat>, o: nat, m: nat, k: nat)
    requires IsPermutation(f, n) && o < n && Returns(f, o, m) && k < m && TurnedBack(f, ll, o, k)
    ensures TurnedBack(f, ll[Row(f, o, k + 1) := Row(f, o, k)], o, k + 1)
  {
    var j, k' := Row(f, o, k + 1), k + 1;
    var ll' := ll[j := Row(f, o, k)];
    forall p: nat | p < k' ensures TurnedAt(f, ll', o, p) { TurnKeeps(f, n, ll, o, m, k, p); }
    forall x | 0 <= x < n && !Met(f, o, k', x) ensures ll'[x] == f[x] { MetNext(f, o, k, x); }
  }

  /** After reversal, following the links from o gives the same rows as the inverse permutation. */
  ghost predicate Follows(ll: seq<nat>, t: seq<nat>, o: nat) {
    && |ll| == |t| && o < |t| && Below(t, |t|) && Below(ll, |ll|)
    && forall k: nat :: Row(ll, o, k) == Row(t, o, k)
  }

  lemma OneBack(last: seq<Byte>, t: seq<nat>, ll: seq<nat>, o: nat, m: nat, p: nat)
    requires Undoes(last, t) && o < |last| && Below(Slots(last), |last|) && TurnedBack(Slots(last), ll, o, m) && p < m
    ensures var x := Row(Slots(last), o, p + 1); ll[x] == t[x] == Row(Slots(last), o, p)
  {
    assert TurnedAt(Slots(last), ll, o, p);
    assert Row(Slots(last), o, p + 1) == Slot(last, Row(Slots(last), o, p));
  }

  lemma RowNext(f: seq<nat>, o: nat, k: nat)
    requires o < |f| && Below(f, |f|)
    ensures Row(f, o, 0) == o && Row(f, o, k + 1) == f[Row(f, o, k)]
  {
  }

  lemma {:induction false} FollowsAt(last: seq<Byte>, t: seq<nat>, ll: seq<nat>, o: nat, m: nat, k: nat)
    returns (q: nat)
    requires Undoes(last, t) && o < |last| == |ll| && Below(ll, |ll|) && |t| == |last| && Below(t, |t|)
    requires Below(Slots(last), |Slots(last)|) && |Slots(last)| == |last|
    requires Returns(Slots(last), o, m) && TurnedBack(Slots(last), ll, o, m)
    ensures 1 <= q <= m && Row(t, o, k) == Row(ll, o, k) == Row(Slots(last), o, q)
  {
    hide *;
    ReturnsAt(Slots(last), o, m, m);
    if k == 0 {
      RowNext(t, o, 0);
      RowNext(ll, o, 0);
      q := m;
    } else {
      q := FollowsAt(last, t, ll, o, m, k - 1);
      OneBack(last, t, ll, o, m, q - 1);
      RowNext(t, o, k - 1);
      RowNext(ll, o, k - 1);
      RowNext(Slots(last), o, 0);
      q := if q == 1 then m else q - 1;
    }
  }

  lemma TurnedInRange(f: seq<nat>, n: nat, ll: seq<nat>, o: nat, m: nat)
    requires IsPermutation(f, n) && o < n && TurnedBack(f, ll, o, m)
    ensures Below(ll, n)
  {
    forall x | 0 <= x < n ensures ll[x] < n {
      if Met(f, o, m, x) {
        var p :| 1 <= p <= m && Row(f, o, p) == x;
        assert TurnedAt(f, ll, o, p - 1);
      }
    }
  }

  lemma ReversalFollows(last: seq<Byte>, t: seq<nat>, ll: seq<nat>, o: nat, m: nat)
    requires Undoes(last, t) && o < |last| && Below(Slots(last), |last|)
    requires Returns(Slots(last), o, m) && TurnedBack(Slots(last), ll, o, m)
    ensures Follows(ll, t, o)
  {
    SlotsPermute(last);
    UndoesPermutes(last, t);
    TurnedInRange(Slots(last), |last|, ll, o, m);
    forall k: nat ensures Row(ll, o, k) == Row(t, o, k) {
      var q := FollowsAt(last, t, ll, o, m, k);
    }
  }

  /** Reverses the cycle through origPtr in place. */
  method ReverseCycle(ll16: array<UInt16>, ll4: array<Byte>, origPtr: nat, nblock: nat, ghost last: seq<Byte>,
                      ghost t: seq<nat>)
    requires origPtr < nblock == |last| <= ll16.Length && nblock <= 2 * ll4.Length && nblock < 0x10_0000
    requires SmallLinks(ll16[..], ll4[..], nblock) == Slots(last) && Undoes(last, t)
    modifies ll16, ll4
    ensures Follows(SmallLinks(ll16[..], ll4[..], nblock), t, origPtr)
  {
    hide *;
    ghost var f, o := Slots(last), origPtr;
    SlotsPermute(last);
    PermutationFacts(f, nblock);
    ghost var m := Period(f, nblock, o);
    ghost var k, ll := 0, f;
    TurnStart(f, o);
    RowNext(f, o, 0);
    ReturnsAt(f, o, m, 1);
    var i := origPtr;
    var j := GetLink(ll16, ll4, i, nblock);
    while true
      invariant 0 <= k < m && i == Row(f, o, k) && j == Row(f, o, k + 1) && i < nblock
      invariant SmallLinks(ll16[..], ll4[..], nblock) == ll && TurnedBack(f, ll, o, k)
      decreases m - k
    {
      TurnReads(f, nblock, ll, o, m, k);
      TurnStep(f, nblock, ll, o, m, k);
      var tmp := GetLink(ll16, ll4, j, nblock);
      SetLink(ll16, ll4, j, i, nblock);
      ll := ll[j := i];
      i, j, k := j, tmp, k + 1;
      ReturnsAt(f, o, m, k);
      if i == origPtr { break; }
    }
    ReversalFollows(last, t, ll, o, m);
  }

  lemma ReturnsAt(f: seq<nat>, o: nat, m: nat, k: nat)
    requires o < |f| && Below(f, |f|) && Returns(f, o, m) && k <= m
    ensures 1 <= m && (k > 0 ==> (Row(f, o, k) == o <==> k == m))
  {
  }

  /* ---- the byte of a slot, by binary search ---- */

  /** Finds the bucket an index falls in. */
  method IndexIntoF(indx: int, cftab: array<int>) returns (nb: nat)
    requires cftab.Length == 257 && cftab[0] <= indx < cftab[256]
    ensures nb < 256 && cftab[nb] <= indx < cftab[nb + 1]
  {
    nb := 0;
    var na: nat := 256;
    while true
      invariant nb < na <= 256 && na - nb != 1 && cftab[nb] <= indx < cftab[na]
      decreases na - nb
    {
      var mid := (nb + na) / 2;
      if indx >= cftab[mid] { nb := mid; } else { na := mid; }
      if na - nb == 1 { break; }
    }
  }

  /** Reads the byte of slot tPos and follows its link. */
  method GetSmall(ll16: array<UInt16>, ll4: array<Byte>, cftab: array<int>, tPos: nat, limit: nat,
                  ghost last: seq<Byte>)
    returns (corrupt: bool, c: Byte, next: nat)
    requires |last| <= limit <= ll16.Length && limit <= 2 * ll4.Length && AreStarts(last, cftab[..])
    requires tPos < limit ==> tPos < |last|
    ensures corrupt <==> tPos >= limit
    ensures !corrupt ==> c == Bucket(last, tPos) && next == SmallLinks(ll16[..], ll4[..], |last|)[tPos]
  {
    if tPos >= limit { return true, 0, 0; }
    LessEnds(last);
    assert forall k :: 0 <= k < 257 ==> cftab[k] == cftab[..][k];
    var nb := IndexIntoF(tPos, cftab);
    BucketUnique(last, nb, Bucket(last, tPos), tPos);
    corrupt, c := false, nb;
    next := GetLink(ll16, ll4, tPos, |last|);
  }

  /** Both forms deliver the same bytes: the byte of the slot reached is the column byte one row on. */
  lemma SmallAgrees(last: seq<Byte>, t: seq<nat>, ll: seq<nat>, o: nat, k: nat)
    requires Undoes(last, t) && Follows(ll, t, o) && |t| == |last|
    ensures Row(ll, o, k) < |last| && Bucket(last, Row(ll, o, k)) == last[Row(t, o, k + 1)]
  {
    UndoesAt(last, t, Row(t, o, k));
  }
}
