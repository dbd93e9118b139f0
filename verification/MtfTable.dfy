/** The decoder's move-to-front list, kept as sixteen short segments that drift through a larger array. */
module MtfTable {
  import opened MachineInts
  import opened MtfTheory

  const MTFA_SIZE := 4096
  const MTFL_SIZE := 16

  /** Segments lie in order, apart from each other, inside the array; the first starts no lower than lo. */
  ghost predicate Apart(f: seq<nat>, lo: nat) {
    && |f| == 16 && lo <= f[0] && f[15] + 16 <= 4096
    && forall s :: 1 <= s < 16 ==> f[s - 1] + 16 <= f[s]
  }

  lemma {:induction false} ApartFar(f: seq<nat>, lo: nat, r: nat, s: nat)
    requires Apart(f, lo) && r <= s < 16
    ensures f[r] + 16 * (s - r) <= f[s]
    decreases s
  {
    if r < s { ApartFar(f, lo, r, s - 1); }
  }

  /** Segments do not overlap, and the first starts within 0..3840. */
  lemma ApartMeans(f: seq<nat>, lo: nat, s: nat)
    requires Apart(f, lo) && s < 16
    ensures lo <= f[s] <= 3840 + 16 * s
    ensures forall r :: 0 <= r < s ==> f[r] + 16 <= f[s]
    ensures forall r :: s < r < 16 ==> f[s] + 16 <= f[r]
  {
    ApartFar(f, lo, 0, s);
    ApartFar(f, lo, s, 15);
    forall r | 0 <= r < s ensures f[r] + 16 <= f[s] { ApartFar(f, lo, r, s); }
    forall r | s < r < 16 ensures f[s] + 16 <= f[r] { ApartFar(f, lo, s, r); }
  }

  lemma ApartBounds(f: seq<nat>, lo: nat)
    requires Apart(f, lo)
    ensures |f| == 16 && forall s :: 0 <= s < 16 ==> lo <= f[s] && f[s] + 16 <= 4096
  {
    forall s | 0 <= s < 16 ensures lo <= f[s] && f[s] + 16 <= 4096 { ApartMeans(f, lo, s); }
  }

  /** The list the segments hold. */
  ghost function Listed(a: seq<Byte>, f: seq<nat>): (r: seq<nat>)
    requires |a| == 4096 && Apart(f, 0)
    ensures |r| == 256
  {
    ApartBounds(f, 0);
    seq(256, k requires 0 <= k < 256 => a[f[k / 16] + k % 16])
  }

  /** Entry o of segment s. */
  lemma ListedAt(a: seq<Byte>, f: seq<nat>, s: nat, o: nat)
    requires |a| == 4096 && Apart(f, 0) && s < 16 && o < 16
    ensures f[s] + o < 4096 && Listed(a, f)[16 * s + o] == a[f[s] + o]
  {
    ApartBounds(f, 0);
    assert (16 * s + o) / 16 == s && (16 * s + o) % 16 == o;
  }

  /** Segment s holds the entries of l that belong there. */
  ghost predicate Holds(a: seq<Byte>, f: seq<nat>, l: seq<nat>, s: nat)
    requires |l| == 256
  {
    && s < |f| && s < 16 && f[s] + 16 <= |a|
    && forall k :: f[s] <= k < f[s] + 16 ==> a[k] == l[16 * s + (k - f[s])]
  }

  lemma HoldsAll(a: seq<Byte>, f: seq<nat>, l: seq<nat>)
    requires |a| == 4096 && Apart(f, 0) && |l| == 256
    requires forall s :: 0 <= s < 16 ==> Holds(a, f, l, s)
    ensures Listed(a, f) == l
  {
    forall k | 0 <= k < 256 ensures Listed(a, f)[k] == l[k] {
      assert Holds(a, f, l, k / 16);
      ListedAt(a, f, k / 16, k % 16);
    }
  }

  lemma ListedHolds(a: seq<Byte>, f: seq<nat>, s: nat)
    requires |a| == 4096 && Apart(f, 0) && s < 16
    ensures Holds(a, f, Listed(a, f), s)
  {
    ApartBounds(f, 0);
    forall k | f[s] <= k < f[s] + 16 ensures a[k] == Listed(a, f)[16 * s + (k - f[s])] { ListedAt(a, f, s, k - f[s]); }
  }

  /* ---- the start ---- */

  /** Everything above kk is the list, packed against the top of the array; segments from ii up start there. */
  ghost predicate Packed(a: seq<Byte>, f: seq<nat>, l: seq<nat>, kk: int, ii: int) {
    && |a| == 4096 && |f| == 16 && |l| == 256 && 3839 <= kk <= 4095
    && (forall k :: kk < k < 4096 ==> a[k] == l[k - 3840])
    && (forall s :: ii <= s < 16 && 0 <= s ==> f[s] == 3840 + 16 * s)
  }

  lemma PackedAll(a: seq<Byte>, f: seq<nat>, l: seq<nat>)
    requires Packed(a, f, l, 3839, 0)
    ensures Apart(f, 1) && Apart(f, 0) && Listed(a, f) == l
  {
    assert Apart(f, 1);
    forall s | 0 <= s < 16 ensures Holds(a, f, l, s) {
      forall k | f[s] <= k < f[s] + 16 ensures a[k] == l[16 * s + (k - f[s])] { assert 3840 <= k < 4096; }
    }
    HoldsAll(a, f, l);
  }

  method Initialize(mtfa: array<Byte>, mtfbase: array<nat>)
    requires mtfa.Length == 4096 && mtfbase.Length == 16
    modifies mtfa, mtfbase
    ensures Apart(mtfbase[..], 1) && Apart(mtfbase[..], 0) && Listed(mtfa[..], mtfbase[..]) == Ident(256)
  {
    ghost var l := Ident(256);
    var kk: int := MTFA_SIZE - 1;
    for ii := 16 downto 0
      invariant kk == 3839 + 16 * ii && Packed(mtfa[..], mtfbase[..], l, kk, ii)
    {
      for jj := 16 downto 0
        invariant kk == 3839 + 16 * ii + jj && Packed(mtfa[..], mtfbase[..], l, kk, ii + 1)
      {
        mtfa[kk] := ii * MTFL_SIZE + jj;
        kk := kk - 1;
      }
      mtfbase[ii] := kk + 1;
    }
    PackedAll(mtfa[..], mtfbase[..], l);
  }

  /* ---- packing the segments against the top again ---- */

  /** Nothing at or below kk has been written yet, and segments below ii have not been moved. */
  ghost predicate Untouched(a0: seq<Byte>, f0: seq<nat>, a: seq<Byte>, f: seq<nat>, kk: int, ii: int) {
    && |a| == |a0| == 4096 && |f| == |f0| == 16 && kk < 4096
    && (forall k :: 0 <= k <= kk ==> a[k] == a0[k])
    && (forall s :: 0 <= s < ii && s < 16 ==> f[s] == f0[s])
  }

  /** Where the entry for place kk is read: at or below the place it goes to. */
  lemma RepackReads(a0: seq<Byte>, f0: seq<nat>, a: seq<Byte>, f: seq<nat>, ii: nat, jj: nat)
    requires |a0| == 4096 && Apart(f0, 0) && ii < 16 && jj < 16
    requires Untouched(a0, f0, a, f, 3840 + 16 * ii + jj, ii + 1)
    ensures |a| == 4096 && |f| == 16 && f[ii] + jj < 4096 && f[ii] + jj <= 3840 + 16 * ii + jj
    ensures a[f[ii] + jj] == Listed(a0, f0)[16 * ii + jj]
  {
    ApartMeans(f0, 0, ii);
    ListedAt(a0, f0, ii, jj);
  }

  lemma RepackStep(a0: seq<Byte>, f0: seq<nat>, a: seq<Byte>, f: seq<nat>, l: seq<nat>, kk: int, ii: int, c: Byte)
    requires 3840 <= kk < 4096 && Untouched(a0, f0, a, f, kk, ii + 1) && Packed(a, f, l, kk, ii + 1)
    requires c == l[kk - 3840]
    ensures Untouched(a0, f0, a[kk := c], f, kk - 1, ii + 1) && Packed(a[kk := c], f, l, kk - 1, ii + 1)
  {
  }

  lemma RepackNext(a0: seq<Byte>, f0: seq<nat>, a: seq<Byte>, f: seq<nat>, l: seq<nat>, ii: nat)
    requires ii < 16 && Untouched(a0, f0, a, f, 3839 + 16 * ii, ii + 1) && Packed(a, f, l, 3839 + 16 * ii, ii + 1)
    ensures Untouched(a0, f0, a, f[ii := 3840 + 16 * ii], 3839 + 16 * ii, ii)
    ensures Packed(a, f[ii := 3840 + 16 * ii], l, 3839 + 16 * ii, ii)
  {
  }

  lemma RepackStart(a: seq<Byte>, f: seq<nat>)
    requires |a| == 4096 && Apart(f, 0)
    ensures Untouched(a, f, a, f, 4095, 16) && Packed(a, f, Listed(a, f), 4095, 16)
  {
  }

  method Repack(mtfa: array<Byte>, mtfbase: array<nat>)
    requires mtfa.Length == 4096 && mtfbase.Length == 16 && Apart(mtfbase[..], 0)
    modifies mtfa, mtfbase
    ensures Apart(mtfbase[..], 1) && Apart(mtfbase[..], 0)
    ensures Listed(mtfa[..], mtfbase[..]) == old(Listed(mtfa[..], mtfbase[..]))
  {
    hide *;
    ghost var a0, f0, l := mtfa[..], mtfbase[..], Listed(mtfa[..], mtfbase[..]);
    Sizes();
    var kk: int := MTFA_SIZE - 1;
    RepackStart(a0, f0);
    for ii := 16 downto 0
      invariant kk == 3839 + 16 * ii
      invariant Untouched(a0, f0, mtfa[..], mtfbase[..], kk, ii) && Packed(mtfa[..], mtfbase[..], l, kk, ii)
    {
      ghost var f := mtfbase[..];
      for jj := 16 downto 0
        invariant kk == 3839 + 16 * ii + jj && mtfbase[..] == f
        invariant Untouched(a0, f0, mtfa[..], f, kk, ii + 1) && Packed(mtfa[..], f, l, kk, ii + 1)
      {
        ghost var a := mtfa[..];
        RepackReads(a0, f0, a, f, ii, jj);
        assert mtfbase[ii] == f[ii];
        var c := mtfa[mtfbase[ii] + jj];
        assert c == a[f[ii] + jj] && kk - 3840 == 16 * ii + jj;
        RepackStep(a0, f0, a, f, l, kk, ii, c);
        mtfa[kk] := c;
        assert mtfa[..] == a[kk := c];
        kk := kk - 1;
      }
      RepackNext(a0, f0, mtfa[..], f, l, ii);
      mtfbase[ii] := kk + 1;
      assert mtfbase[..] == f[ii := 3840 + 16 * ii];
    }
    PackedAll(mtfa[..], mtfbase[..], l);
  }

  lemma Sizes()
    ensures MTFA_SIZE == 4096 && MTFL_SIZE == 16
  {
  }

  /* ---- taking one of the first sixteen entries ---- */

  /** Entries above nn up to m, from pp on, have each moved up one place. */
  ghost predicate Slid(a0: seq<Byte>, a: seq<Byte>, pp: int, nn: int, m: int) {
    && |a| == |a0| && 0 <= nn <= m && 0 <= pp && pp + m < |a|
    && (forall k :: 0 <= k <= pp + nn ==> a[k] == a0[k])
    && (forall k :: pp + nn < k <= pp + m ==> a[k] == a0[k - 1])
    && (forall k :: pp + m < k < |a| ==> a[k] == a0[k])
  }

  lemma SlideOne(a0: seq<Byte>, a: seq<Byte>, pp: int, nn: int, m: int)
    requires Slid(a0, a, pp, nn, m) && nn > 0
    ensures Slid(a0, a[pp + nn := a[pp + nn - 1]], pp, nn - 1, m)
  {
  }

  lemma SlideFour(a0: seq<Byte>, a: seq<Byte>, pp: int, nn: int, m: int, a': seq<Byte>)
    requires Slid(a0, a, pp, nn, m) && nn > 3
    requires a' ==
      a[pp + nn := a[pp + nn - 1]][pp + nn - 1 := a[pp + nn - 2]]
       [pp + nn - 2 := a[pp + nn - 3]][pp + nn - 3 := a[pp + nn - 4]]
    ensures Slid(a0, a', pp, nn - 4, m)
  {
  }

  /** Moves the entries at pp..pp+m-1 up one place, four at a time where it can. */
  method Slide(mtfa: array<Byte>, pp: nat, m: nat)
    requires pp + m < mtfa.Length
    modifies mtfa
    ensures Slid(old(mtfa[..]), mtfa[..], pp, 0, m)
  {
    hide *;
    ghost var a0 := mtfa[..];
    var nn: int := m;
    SlideNone(a0, pp, m);
    while nn > 3
      invariant 0 <= nn <= m && Slid(a0, mtfa[..], pp, nn, m)
    {
      ghost var a := mtfa[..];
      var z := pp + nn;
      mtfa[z] := mtfa[z - 1];
      mtfa[z - 1] := mtfa[z - 2];
      mtfa[z - 2] := mtfa[z - 3];
      mtfa[z - 3] := mtfa[z - 4];
      SlideFour(a0, a, pp, nn, m, mtfa[..]);
      nn := nn - 4;
    }
    while nn > 0
      invariant 0 <= nn <= m && Slid(a0, mtfa[..], pp, nn, m)
    {
      ghost var a := mtfa[..];
      SlideOne(a0, a, pp, nn, m);
      mtfa[pp + nn] := mtfa[pp + nn - 1];
      assert mtfa[..] == a[pp + nn := a[pp + nn - 1]];
      nn := nn - 1;
    }
  }

  lemma SlideNone(a: seq<Byte>, pp: nat, m: nat)
    requires pp + m < |a|
    ensures Slid(a, a, pp, m, m)
  {
  }

  /** t is l with entry j moved to the front, entry by entry. */
  ghost predicate Fronted(l: seq<nat>, t: seq<nat>, j: nat) {
    && |l| == |t| == 256 && j < 256 && t[0] == l[j]
    && (forall k :: 1 <= k <= j ==> t[k] == l[k - 1])
    && (forall k :: j < k < 256 ==> t[k] == l[k])
  }

  lemma FrontedIs(l: seq<nat>, j: nat)
    requires |l| == 256 && j < 256
    ensures Fronted(l, ToFront(l, j), j)
  {
  }

  /** After the slide, the segment the entry comes from holds its new entries but the first. */
  lemma SlidSegment(a0: seq<Byte>, a: seq<Byte>, p: int, s: nat, l: seq<nat>, t: seq<nat>, j: nat)
    requires s < 16 && Fronted(l, t, j) && j / 16 == s && Slid(a0, a, p, 0, j % 16) && p + 16 <= |a|
    requires forall k :: p <= k < p + 16 ==> a0[k] == l[16 * s + (k - p)]
    ensures forall k :: p + 1 <= k < p + 16 ==> a[k] == t[16 * s + (k - p)]
  {
  }

  /** Segments after it need no change. */
  lemma LaterSegment(a0: seq<Byte>, a: seq<Byte>, p: int, s: nat, l: seq<nat>, t: seq<nat>, j: nat, q: int, m: int)
    requires s < 16 && Fronted(l, t, j) && j / 16 < s && Slid(a0, a, q, 0, m) && q + m < p && p + 16 <= |a|
    requires forall k :: p <= k < p + 16 ==> a0[k] == l[16 * s + (k - p)]
    ensures forall k :: p <= k < p + 16 ==> a[k] == t[16 * s + (k - p)]
  {
  }

  /** Segments before it already hold all but the first of their new entries, one place down. */
  lemma EarlierSegment(a: seq<Byte>, p: int, s: nat, l: seq<nat>, t: seq<nat>, j: nat)
    requires s < 16 && Fronted(l, t, j) && s < j / 16 && 0 <= p && p + 15 <= |a|
    requires forall k :: p <= k < p + 15 ==> a[k] == l[16 * s + (k - p)]
    ensures forall k :: p <= k < p + 15 ==> a[k] == t[16 * s + (k - (p - 1))]
  {
  }

  lemma FrontSegment(a0: seq<Byte>, a: seq<Byte>, f: seq<nat>, nn: nat)
    requires |a0| == 4096 && Apart(f, 0) && nn < 16 && f[0] + nn < 4096
    requires Slid(a0, a, f[0], 0, nn)
    ensures Listed(a[f[0] := a0[f[0] + nn]], f) == ToFront(Listed(a0, f), nn)
  {
    var l, t, a' := Listed(a0, f), ToFront(Listed(a0, f), nn), a[f[0] := a0[f[0] + nn]];
    forall s | 0 <= s < 16 ensures Holds(a', f, t, s) {
      FrontSegmentAt(a0, a, f, nn, s);
    }
    HoldsAll(a', f, t);
  }

  lemma FrontSegmentAt(a0: seq<Byte>, a: seq<Byte>, f: seq<nat>, nn: nat, s: nat)
    requires |a0| == 4096 && Apart(f, 0) && nn < 16 && f[0] + nn < 4096 && s < 16
    requires Slid(a0, a, f[0], 0, nn)
    ensures Holds(a[f[0] := a0[f[0] + nn]], f, ToFront(Listed(a0, f), nn), s)
  {
    var l, t := Listed(a0, f), ToFront(Listed(a0, f), nn);
    ApartMeans(f, 0, s);
    FrontedIs(l, nn);
    ListedHolds(a0, f, s);
    FrontPlaced(a0, a, f, nn, s, l, t);
  }

  lemma FrontPlaced(a0: seq<Byte>, a: seq<Byte>, f: seq<nat>, nn: nat, s: nat, l: seq<nat>, t: seq<nat>)
    requires |a0| == 4096 && |f| == 16 && nn < 16 && f[0] + 16 <= 4096 && s < 16 && (s > 0 ==> f[0] + 16 <= f[s])
    requires Slid(a0, a, f[0], 0, nn) && Fronted(l, t, nn) && Holds(a0, f, l, s)
    ensures s == 0 ==> a0[f[0] + nn] == t[0]
    ensures Holds(a[f[0] := a0[f[0] + nn]], f, t, s)
  {
    if s == 0 { SlidSegment(a0, a, f[0], 0, l, t, nn); } else { LaterSegment(a0, a, f[s], s, l, t, nn, f[0], nn); }
  }

  /* ---- taking an entry from a later segment ---- */

  /** Where segment s starts once an entry of segment m has moved to the front. */
  ghost function Moved(f0: seq<nat>, m: nat, s: nat): int
    requires s < |f0|
  {
    if s < m then f0[s] as int - 1 else f0[s] as int
  }

  /**
   * Segments above l are as they will be, and segment l only lacks its first entry; nothing below has been written.
   */
  ghost predicate Shifting(a0: seq<Byte>, f0: seq<nat>, a: seq<Byte>, f: seq<nat>, j: nat, l: nat) {
    && |a0| == |a| == 4096 && Apart(f0, 1) && Apart(f0, 0) && |f| == 16 && 16 <= j < 256 && l <= j / 16
    && (forall s :: 0 <= s < l ==> f[s] == f0[s])
    && f[l] == Moved(f0, j / 16, l) + 1
    && (forall s :: l < s < 16 ==> f[s] == Moved(f0, j / 16, s))
    && (forall k :: 0 <= k < f[l] && k < 4096 ==> a[k] == a0[k])
    && Settled(a0, f0, a, j, l, 1)
    && (forall s :: l < s < 16 ==> Settled(a0, f0, a, j, s, 0))
  }

  ghost predicate Settled(a0: seq<Byte>, f0: seq<nat>, a: seq<Byte>, j: nat, s: nat, from: nat) {
    && |a0| == |a| == 4096 && Apart(f0, 0) && s < 16 && j < 256
    && 0 <= Moved(f0, j / 16, s) && Moved(f0, j / 16, s) + 16 <= 4096
    && forall k :: Moved(f0, j / 16, s) + from <= k < Moved(f0, j / 16, s) + 16 ==>
         a[k] == ToFront(Listed(a0, f0), j)[16 * s + (k - Moved(f0, j / 16, s))]
  }

  lemma ShiftBegins(a0: seq<Byte>, f0: seq<nat>, a: seq<Byte>, j: nat)
    requires |a0| == 4096 && Apart(f0, 1) && Apart(f0, 0) && 16 <= j < 256 && f0[j / 16] + 16 <= 4096
    requires Slid(a0, a, f0[j / 16], 0, j % 16)
    ensures Shifting(a0, f0, a, f0[j / 16 := f0[j / 16] + 1], j, j / 16)
  {
    ShiftBeginsAt(a0, f0, a, j, j / 16, 1);
    forall s | j / 16 < s < 16 ensures Settled(a0, f0, a, j, s, 0) {
      ShiftBeginsAt(a0, f0, a, j, s, 0);
    }
  }

  lemma ShiftBeginsAt(a0: seq<Byte>, f0: seq<nat>, a: seq<Byte>, j: nat, s: nat, from: nat)
    requires |a0| == 4096 && Apart(f0, 1) && Apart(f0, 0) && 16 <= j < 256 && f0[j / 16] + 16 <= 4096
    requires Slid(a0, a, f0[j / 16], 0, j % 16) && j / 16 <= s < 16 && from == if s == j / 16 then 1 else 0
    ensures Settled(a0, f0, a, j, s, from)
  {
    hide *;
    ApartBounds(f0, 0);
    var l, t := Listed(a0, f0), ToFront(Listed(a0, f0), j);
    ApartMeans(f0, 1, s);
    ApartMeans(f0, 1, j / 16);
    FrontedIs(l, j);
    ListedHolds(a0, f0, s);
    MovedIs(f0, j / 16, s);
    SegmentBegins(a0, a, f0, j, s, l, t);
    SettledIs(a0, f0, a, j, s, from, f0[s]);
  }

  lemma MovedIs(f0: seq<nat>, m: nat, s: nat)
    requires m <= s < |f0|
    ensures Moved(f0, m, s) == f0[s]
  {
  }

  lemma SettledIs(a0: seq<Byte>, f0: seq<nat>, a: seq<Byte>, j: nat, s: nat, from: nat, p: int)
    requires |a0| == |a| == 4096 && Apart(f0, 0) && s < 16 && j < 256 && p == Moved(f0, j / 16, s) && 0 <= p
    requires p + 16 <= 4096
    requires forall k :: p + from <= k < p + 16 ==> a[k] == ToFront(Listed(a0, f0), j)[16 * s + (k - p)]
    ensures Settled(a0, f0, a, j, s, from)
  {
  }

  lemma SegmentBegins(a0: seq<Byte>, a: seq<Byte>, f: seq<nat>, j: nat, s: nat, l: seq<nat>, t: seq<nat>)
    requires |a0| == 4096 && |f| == 16 && j < 256 && f[j / 16] + 16 <= 4096 && j / 16 <= s < 16
    requires s > j / 16 ==> f[j / 16] + 16 <= f[s]
    requires Slid(a0, a, f[j / 16], 0, j % 16) && Fronted(l, t, j) && Holds(a0, f, l, s)
    ensures |a| == |a0| && |t| == 256
    ensures forall k :: f[s] + (if s == j / 16 then 1 else 0) <= k < f[s] + 16 ==> a[k] == t[16 * s + (k - f[s])]
  {
    if s == j / 16 {
      SlidSegment(a0, a, f[s], s, l, t, j);
    } else {
      LaterSegment(a0, a, f[s], s, l, t, j, f[j / 16], j % 16);
    }
  }

  /** What a step reads and writes lies inside the array. */
  lemma ShiftReads(a0: seq<Byte>, f0: seq<nat>, a: seq<Byte>, f: seq<nat>, j: nat, l: nat)
    requires Shifting(a0, f0, a, f, j, l)
    ensures l < 16 && 0 < f[l] <= 4096
    ensures l > 0 ==> f[l - 1] + 15 < f[l] && a[f[l - 1] + 15] == ToFront(Listed(a0, f0), j)[16 * l]
  {
    ApartMeans(f0, 1, l);
    if l > 0 {
      ApartMeans(f0, 1, l - 1);
      ListedAt(a0, f0, l - 1, 15);
      FrontedIs(Listed(a0, f0), j);
    }
  }

  /** Moving the last entry of the segment below into the gap keeps every other segment. */
  lemma ShiftOn(a0: seq<Byte>, f0: seq<nat>, a: seq<Byte>, f: seq<nat>, j: nat, l: nat, c: Byte)
    requires Shifting(a0, f0, a, f, j, l) && l > 0 && 0 < f[l] <= 4096 && c == ToFront(Listed(a0, f0), j)[16 * l]
    ensures Shifting(a0, f0, a[f[l] - 1 := c], f[l := f[l] - 1], j, l - 1)
  {
    hide Settled, ToFront, Listed;
    var a' := a[f[l] - 1 := c];
    ApartMeans(f0, 1, l);
    BelowSettled(a0, f0, a', j, l - 1);
    SettledFilled(a0, f0, a, j, l, c);
    forall s | l < s < 16 ensures Settled(a0, f0, a', j, s, 0) {
      ApartMeans(f0, 1, s);
      SettledKeeps(a0, f0, a, j, s, f[l] - 1, c);
    }
  }

  lemma SettledKeeps(a0: seq<Byte>, f0: seq<nat>, a: seq<Byte>, j: nat, s: nat, x: nat, c: Byte)
    requires Settled(a0, f0, a, j, s, 0) && x < |a| && x < Moved(f0, j / 16, s)
    ensures Settled(a0, f0, a[x := c], j, s, 0)
  {
  }

  /** Filling the gap completes a segment. */
  lemma SettledFilled(a0: seq<Byte>, f0: seq<nat>, a: seq<Byte>, j: nat, s: nat, c: Byte)
    requires Settled(a0, f0, a, j, s, 1) && c == ToFront(Listed(a0, f0), j)[16 * s]
    ensures Settled(a0, f0, a[Moved(f0, j / 16, s) := c], j, s, 0)
  {
  }

  /** A segment that has not moved yet already holds all but the first of its new entries, one place down. */
  lemma BelowSettled(a0: seq<Byte>, f0: seq<nat>, a: seq<Byte>, j: nat, s: nat)
    requires |a0| == |a| == 4096 && Apart(f0, 1) && Apart(f0, 0) && j < 256 && s < j / 16
    requires forall k :: 0 <= k < f0[s] + 15 && k < 4096 ==> a[k] == a0[k]
    ensures Settled(a0, f0, a, j, s, 1)
  {
    var l, t := Listed(a0, f0), ToFront(Listed(a0, f0), j);
    ApartMeans(f0, 1, s);
    FrontedIs(l, j);
    ListedHolds(a0, f0, s);
    forall k: int | f0[s] <= k < f0[s] + 15 ensures a[k] == l[16 * s + (k - f0[s])] { assert a[k] == a0[k]; }
    assert Moved(f0, j / 16, s) == f0[s] - 1;
    hide *;
    EarlierSegment(a, f0[s], s, l, t, j);
    SettledIs(a0, f0, a, j, s, 1, f0[s] - 1);
  }

  lemma SettledHolds(a0: seq<Byte>, f0: seq<nat>, a: seq<Byte>, f: seq<nat>, j: nat, s: nat)
    requires Settled(a0, f0, a, j, s, 0) && |f| == 16 && f[s] == Moved(f0, j / 16, s)
    ensures Holds(a, f, ToFront(Listed(a0, f0), j), s)
  {
  }

  lemma ShiftDone(a0: seq<Byte>, f0: seq<nat>, a: seq<Byte>, f: seq<nat>, j: nat, uc: Byte)
    requires Shifting(a0, f0, a, f, j, 0) && 0 < f[0] <= 4096 && uc == Listed(a0, f0)[j]
    ensures Apart(f[0 := f[0] - 1], 0) && Listed(a[f[0] - 1 := uc], f[0 := f[0] - 1]) == ToFront(Listed(a0, f0), j)
  {
    var a', f', t := a[f[0] - 1 := uc], f[0 := f[0] - 1], ToFront(Listed(a0, f0), j);
    ApartBounds(f0, 1);
    assert forall s :: 0 <= s < 16 ==> f'[s] == Moved(f0, j / 16, s);
    FrontedIs(Listed(a0, f0), j);
    SettledFilled(a0, f0, a, j, 0, uc);
    forall s | 0 < s < 16 ensures Settled(a0, f0, a', j, s, 0) {
      ApartMeans(f0, 1, s);
      SettledKeeps(a0, f0, a, j, s, f[0] - 1, uc);
    }
    forall s | 0 <= s < 16 ensures Holds(a', f', t, s) { SettledHolds(a0, f0, a', f', j, s); }
    HoldsAll(a', f', t);
  }

  class MtfList {
    const mtfa: array<Byte>
    const mtfbase: array<nat>

    ghost predicate Valid()
      reads this, mtfa, mtfbase
    {
      && mtfa.Length == 4096 && mtfbase.Length == 16
      && Apart(mtfbase[..], 1) && Apart(mtfbase[..], 0)
    }

    ghost function Entries(): (r: seq<nat>)
      requires Valid()
      reads this, mtfa, mtfbase
      ensures |r| == 256
    {
      Listed(mtfa[..], mtfbase[..])
    }

    constructor ()
      ensures Valid() && fresh(mtfa) && fresh(mtfbase)
      ensures Entries() == Ident(256)
    {
      mtfa := new Byte[4096];
      mtfbase := new nat[16];
      new;
      Initialize(mtfa, mtfbase);
    }

    method Front() returns (uc: Byte)
      requires Valid()
      ensures uc == Entries()[0]
    {
      ListedAt(mtfa[..], mtfbase[..], 0, 0);
      uc := mtfa[mtfbase[0]];
    }

    /** Moves an entry of the first segment. */
    method TakeNear(nn: nat) returns (uc: Byte)
      requires Valid() && nn < 16
      modifies mtfa, mtfbase
      ensures Valid() && uc == old(Entries())[nn] && Entries() == ToFront(old(Entries()), nn)
    {
      ghost var a0, f := mtfa[..], mtfbase[..];
      ListedAt(a0, f, 0, nn);
      var pp := mtfbase[0];
      uc := mtfa[pp + nn];
      Slide(mtfa, pp, nn);
      ghost var a := mtfa[..];
      FrontSegment(a0, a, f, nn);
      mtfa[pp] := uc;
      assert mtfa[..] == a[f[0] := a0[f[0] + nn]] && mtfbase[..] == f;
    }

    /** Moves an entry of a later segment: each segment before it hands its last entry on. */
    method TakeFar(nn: nat) returns (uc: Byte)
      requires Valid() && 16 <= nn < 256
      modifies mtfa, mtfbase
      ensures mtfa.Length == 4096 && mtfbase.Length == 16
      ensures Apart(mtfbase[..], 0) && uc == old(Entries())[nn]
      ensures Listed(mtfa[..], mtfbase[..]) == ToFront(old(Entries()), nn)
    {
      hide *;
      ghost var a0, f0 := mtfa[..], mtfbase[..];
      Facts();
      Sizes();
      var lno := nn / MTFL_SIZE;
      var off := nn % MTFL_SIZE;
      ListedAt(a0, f0, lno, off);
      ListedAt(a0, f0, lno, 15);
      var pp := mtfbase[lno] + off;
      uc := mtfa[pp];
      Slide(mtfa, mtfbase[lno], off);
      ShiftBegins(a0, f0, mtfa[..], nn);
      mtfbase[lno] := mtfbase[lno] + 1;
      assert mtfbase[..] == f0[lno := f0[lno] + 1];
      while lno > 0
        invariant 0 <= lno < 16 && Shifting(a0, f0, mtfa[..], mtfbase[..], nn, lno)
      {
        ghost var a, f := mtfa[..], mtfbase[..];
        ShiftReads(a0, f0, a, f, nn, lno);
        ShiftOn(a0, f0, a, f, nn, lno, a[f[lno - 1] + 15]);
        mtfbase[lno] := mtfbase[lno] - 1;
        mtfa[mtfbase[lno]] := mtfa[mtfbase[lno - 1] + MTFL_SIZE - 1];
        assert mtfa[..] == a[f[lno] - 1 := a[f[lno - 1] + 15]] && mtfbase[..] == f[lno := f[lno] - 1];
        lno := lno - 1;
      }
      ghost var a, f := mtfa[..], mtfbase[..];
      ShiftReads(a0, f0, a, f, nn, 0);
      ShiftDone(a0, f0, a, f, nn, uc);
      mtfbase[0] := mtfbase[0] - 1;
      mtfa[mtfbase[0]] := uc;
      assert mtfa[..] == a[f[0] - 1 := uc] && mtfbase[..] == f[0 := f[0] - 1];
    }

    lemma Facts()
      requires Valid()
      ensures mtfa.Length == 4096 && mtfbase.Length == 16
      ensures Apart(mtfbase[..], 1) && Apart(mtfbase[..], 0)
      ensures Entries() == Listed(mtfa[..], mtfbase[..])
    {
    }

    /** Moves entry nn to the front, exactly as on a plain list of 256 entries. */
    method Take(nn: nat) returns (uc: Byte)
      requires Valid() && nn < 256
      modifies mtfa, mtfbase
      ensures Valid() && uc == old(Entries())[nn] && Entries() == ToFront(old(Entries()), nn)
    {
      if nn < MTFL_SIZE {
        uc := TakeNear(nn);
      } else {
        uc := TakeFar(nn);
        if mtfbase[0] == 0 { Repack(mtfa, mtfbase); }
      }
    }
  }

  /** The first segment starts within 1..3840 between symbols, so one more step down always fits. */
  lemma FirstSegment(f: seq<nat>)
    requires Apart(f, 1)
    ensures 1 <= f[0] <= 3840
  {
    ApartMeans(f, 1, 0);
  }
}
