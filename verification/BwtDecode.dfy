/** Undoing the block sort: bucket starts, and the FAST form with byte and link packed in one word. */
module BwtDecode {
  import opened Arithmetic
  import opened MachineInts
  import opened Permutations
  import opened Counting
  import opened Bwt

  /* ---- bucket starts from byte counts ---- */

  ghost function SumOf(u: seq<int>, c: int): int {
    if c <= 0 || c > |u| then 0 else SumOf(u, c - 1) + u[c - 1]
  }

  ghost predicate InBounds(u: seq<int>, nblock: int) {
    forall c :: 0 <= c < |u| ==> 0 <= u[c] <= nblock
  }

  ghost predicate IsSums(u: seq<int>, t: seq<int>) {
    |t| == |u| + 1 && forall c :: 0 <= c < |t| ==> t[c] == SumOf(u, c)
  }

  /** What the decoder demands of its counts before it uses them as bucket sizes. */
  ghost predicate Acceptable(u: seq<int>, nblock: int) {
    InBounds(u, nblock) && forall c :: 0 <= c <= |u| ==> 0 <= SumOf(u, c) <= nblock
  }

  method AllInBounds(a: array<int>, nblock: int) returns (ok: bool)
    ensures ok <==> InBounds(a[..], nblock)
  {
    for i := 0 to a.Length
      invariant forall c :: 0 <= c < i ==> 0 <= a[c] <= nblock
    {
      if a[i] < 0 || a[i] > nblock { return false; }
    }
    ok := true;
  }

  method SumCounts(unzftab: array<int>, cftab: array<int>)
    requires unzftab.Length == 256 && cftab.Length == 257 && unzftab != cftab
    modifies cftab
    ensures IsSums(unzftab[..], cftab[..])
  {
    ghost var u := unzftab[..];
    cftab[0] := 0;
    for i := 1 to 257
      invariant cftab[0] == 0 && forall c :: 1 <= c < i ==> cftab[c] == u[c - 1]
    {
      cftab[i] := unzftab[i - 1];
    }
    for i := 1 to 257
      invariant forall c :: i <= c < 257 ==> cftab[c] == u[c - 1]
      invariant forall c :: 0 <= c < i ==> cftab[c] == SumOf(u, c)
    {
      cftab[i] := cftab[i] + cftab[i - 1];
    }
  }

  method Ascending(a: array<int>) returns (ok: bool)
    requires a.Length > 0
    ensures ok <==> forall c :: 1 <= c < a.Length ==> a[c - 1] <= a[c]
  {
    for i := 1 to a.Length
      invariant forall c :: 1 <= c < i ==> a[c - 1] <= a[c]
    {
      if a[i - 1] > a[i] { return false; }
    }
    ok := true;
  }

  /** Turns byte counts into bucket starts; rejects exactly the counts that do not fit the block. */
  method BuildCftab(unzftab: array<int>, cftab: array<int>, nblock: nat) returns (ok: bool)
    requires unzftab.Length == 256 && cftab.Length == 257 && unzftab != cftab
    modifies cftab
    ensures ok <==> Acceptable(unzftab[..], nblock)
    ensures ok ==> IsSums(unzftab[..], cftab[..])
  {
    ok := AllInBounds(unzftab, nblock);
    if !ok { return; }
    SumCounts(unzftab, cftab);
    ghost var u, t := unzftab[..], cftab[..];
    assert forall c :: 0 <= c <= 256 ==> SumOf(u, c) == t[c];
    ok := AllInBounds(cftab, nblock);
    if !ok { return; }
    ok := Ascending(cftab);
    forall c | 1 <= c < 257 ensures t[c - 1] <= t[c] {
      assert SumOf(u, c) == SumOf(u, c - 1) + u[c - 1];
    }
  }

  ghost predicate AreCounts(last: seq<Byte>, u: seq<int>) {
    |u| == 256 && forall c :: 0 <= c < 256 ==> u[c] == Count(last, c)
  }

  ghost predicate AreStarts(last: seq<Byte>, t: seq<int>) {
    |t| == 257 && forall c :: 0 <= c < 257 ==> t[c] == Less(last, c)
  }

  lemma {:induction false} SumsAreStarts(last: seq<Byte>, u: seq<int>, c: nat)
    requires AreCounts(last, u) && c <= 256
    ensures SumOf(u, c) == Less(last, c)
  {
    LessEnds(last);
    if c > 0 {
      SumsAreStarts(last, u, c - 1);
      LessNext(last, c - 1);
    }
  }

  /** The checks never reject the counts of an actual column, and yield its bucket starts. */
  lemma CountsAccepted(last: seq<Byte>, u: seq<int>, t: seq<int>)
    requires AreCounts(last, u)
    ensures Acceptable(u, |last|)
    ensures IsSums(u, t) ==> AreStarts(last, t)
  {
    forall c: nat | c <= 256 ensures SumOf(u, c) == Less(last, c) { SumsAreStarts(last, u, c); }
  }

  /* ---- FAST form: tt[j] holds byte j of the column below the link from slot j ---- */

  /** The slots taken by rows before i have been linked; the others still hold only a byte. */
  ghost predicate Linked(last: seq<Byte>, tt: seq<nat>, i: nat) {
    && i <= |last| <= |tt|
    && (forall r :: 0 <= r < i ==> tt[Slot(last, r)] == last[Slot(last, r)] + 256 * r)
    && (forall j :: 0 <= j < |last| && (forall r :: 0 <= r < i ==> Slot(last, r) != j) ==> tt[j] == last[j])
  }

  /** Where the next byte c will go. */
  ghost predicate NextSlots(last: seq<Byte>, t: seq<int>, i: nat)
    requires i <= |last|
  {
    |t| == 257 && forall c :: 0 <= c < 256 ==> t[c] == Less(last, c) + Count(last[..i], c)
  }

  lemma NextSlotsStart(last: seq<Byte>, t: seq<int>)
    requires AreStarts(last, t)
    ensures NextSlots(last, t, 0) && |t| == 257
  {
    assert last[..0] == [];
  }

  lemma NextSlotsStep(last: seq<Byte>, t: seq<int>, i: nat)
    requires i < |last| && NextSlots(last, t, i)
    ensures t[last[i]] == Slot(last, i)
    ensures NextSlots(last, t[last[i] := t[last[i]] + 1], i + 1)
  {
    forall c | 0 <= c < 256 ensures Count(last[..i + 1], c) == Count(last[..i], c) + if last[i] == c then 1 else 0 {
      CountTake(last, i, c);
    }
  }

  lemma LinkedStart(last: seq<Byte>, tt: seq<nat>)
    requires |last| <= |tt| && forall j :: 0 <= j < |last| ==> tt[j] == last[j]
    ensures Linked(last, tt, 0)
  {
  }

  /** The byte of row i is still readable, and its slot is not yet linked. */
  lemma LinkedReads(last: seq<Byte>, tt: seq<nat>, i: nat)
    requires Linked(last, tt, i) && i < |last|
    ensures tt[i] % 256 == last[i] && tt[Slot(last, i)] == last[Slot(last, i)] < 256
  {
    hide Less, Count, InBucket, InSlot, Slot;
    forall r | 0 <= r < i ensures Slot(last, r) != Slot(last, i) { SlotDistinct(last, r, i); }
    if r :| 0 <= r < i && Slot(last, r) == i {
      DivUnique(tt[i], 256, r, last[i]);
    }
  }

  lemma LinkedStep(last: seq<Byte>, tt: seq<nat>, i: nat)
    requires Linked(last, tt, i) && i < |last|
    ensures Linked(last, tt[Slot(last, i) := last[Slot(last, i)] + 256 * i], i + 1)
  {
    hide Less, Count, InBucket, InSlot, Slot;
    forall r | 0 <= r < i ensures Slot(last, r) != Slot(last, i) { SlotDistinct(last, r, i); }
  }

  ghost function Links(tt: seq<nat>, n: nat): (t: seq<nat>)
    requires n <= |tt|
    ensures |t| == n && forall j :: 0 <= j < n ==> t[j] == tt[j] / 256
  {
    seq(n, j requires 0 <= j < n => tt[j] / 256)
  }

  lemma LinkedEnd(last: seq<Byte>, tt: seq<nat>)
    requires Linked(last, tt, |last|)
    ensures Undoes(last, Links(tt, |last|))
    ensures forall j :: 0 <= j < |last| ==> tt[j] % 256 == last[j]
  {
    var n := |last|;
    forall r | 0 <= r < n ensures Links(tt, n)[Slot(last, r)] == r {
      assert tt[Slot(last, r)] == last[Slot(last, r)] + 256 * r;
    }
    SlotsPermute(last);
    forall j | 0 <= j < n ensures tt[j] % 256 == last[j] {
      var r := Find(Slots(last), n, j);
      assert Slot(last, r) == j;
    }
  }

  /** Bitwise or of a lone byte with a link shifted above it. */
  function OrLink(w: UInt32, i: nat): (r: UInt32)
    requires w < 256 && i < 0x100_0000
    ensures r % 256 == w && r / 256 == i
  {
    w + 256 * i
  }

  lemma OrLinkIs(w: UInt32, i: nat)
    requires w < 256 && i < 0x100_0000
    ensures OrLink(w, i) == w + 256 * i
  {
  }

  /** Adds the link from each slot to the row its byte came from. */
  method BuildFast(tt: array<UInt32>, cftab: array<int>, nblock: nat, ghost last: seq<Byte>)
    requires nblock == |last| <= tt.Length && nblock < 0x100_0000 && AreStarts(last, cftab[..])
    requires forall j :: 0 <= j < nblock ==> tt[j] == last[j]
    modifies tt, cftab
    ensures Undoes(last, Links(tt[..], nblock))
    ensures forall j :: 0 <= j < nblock ==> tt[j] % 256 == last[j]
  {
    hide *;
    LinkedStart(last, tt[..]);
    NextSlotsStart(last, cftab[..]);
    for i := 0 to nblock
      invariant Linked(last, tt[..], i) && NextSlots(last, cftab[..], i)
    {
      ghost var s, c := tt[..], cftab[..];
      NextSlotsStep(last, c, i);
      LinkedReads(last, s, i);
      LinkedStep(last, s, i);
      var uc := tt[i] % 256;
      var slot := cftab[uc];
      OrLinkIs(tt[slot], i);
      tt[slot] := OrLink(tt[slot], i);
      cftab[uc] := cftab[uc] + 1;
      assert tt[..] == s[slot := last[slot] + 256 * i] && cftab[..] == c[last[i] := c[last[i]] + 1];
    }
    LinkedEnd(last, tt[..]);
  }

  /** Reads the next byte and follows its link; fails when the position lies outside the block area. */
  method GetFast(tt: array<UInt32>, tPos: nat, limit: nat) returns (corrupt: bool, c: Byte, next: nat)
    requires limit <= tt.Length
    ensures corrupt <==> tPos >= limit
    ensures !corrupt ==> c == tt[tPos] % 256 && next == tt[tPos] / 256
  {
    if tPos >= limit { return true, 0, 0; }
    corrupt, c, next := false, tt[tPos] % 256, tt[tPos] / 256;
  }
}
