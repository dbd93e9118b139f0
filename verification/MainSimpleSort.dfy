/** Shell's sort of a range of rotations that share their first bytes. */
module MainSimpleSort {
  import opened MachineInts
  import opened Permutations
  import opened Rotations
  import opened SortArea
  import opened MainCompare
  import opened FallbackQuickSort
  import opened ShellSort

  lemma KeysSize(b: seq<Byte>)
    ensures |Keys(b)| == |b|
  {
  }

  lemma ClassIsKey(b: seq<Byte>, s: seq<nat>, k: nat)
    requires k < |s| && s[k] < |b|
    ensures ClassOf(s, Keys(b), k) == Key(b, s[k], |b|)
  {
  }

  /** Entries lo..hi are rotations of b that agree on their first d bytes. */
  ghost predicate Sharing(b: seq<Byte>, s: seq<nat>, lo: int, hi: int, d: nat) {
    && InRange(s, |b|, lo, hi)
    && forall p, q :: 0 <= p < |s| && 0 <= q < |s| && lo <= p <= hi && lo <= q <= hi ==>
         Key(b, s[p], d) == Key(b, s[q], d)
  }

  lemma SharingNarrow(b: seq<Byte>, s: seq<nat>, lo: int, hi: int, d: nat, lo': int, hi': int)
    requires Sharing(b, s, lo, hi, d) && lo <= lo' && hi' <= hi
    ensures Sharing(b, s, lo', hi', d)
  {
  }

  lemma SharingRange(b: seq<Byte>, s: seq<nat>, lo: int, hi: int, d: nat)
    requires Sharing(b, s, lo, hi, d)
    ensures InRange(s, |b|, lo, hi)
  {
  }

  lemma SharingAt(b: seq<Byte>, s: seq<nat>, lo: int, hi: int, d: nat, k: nat)
    requires Sharing(b, s, lo, hi, d) && k < |s| && lo <= k <= hi
    ensures s[k] < |b|
  {
  }

  lemma SharingPermuted(b: seq<Byte>, s: seq<nat>, t: seq<nat>, lo: nat, hi: int, d: nat)
    requires Sharing(b, s, lo, hi, d) && Permuted(s, t, lo, hi) && hi < |s|
    ensures Sharing(b, t, lo, hi, d)
  {
    PermutedInRange(s, t, |b|, lo, hi, lo, hi);
    forall p, q | 0 <= p < |t| && 0 <= q < |t| && lo <= p <= hi && lo <= q <= hi
      ensures Key(b, t[p], d) == Key(b, t[q], d)
    {
      var p' := CameFrom(s, t, lo, hi, p);
      var q' := CameFrom(s, t, lo, hi, q);
    }
  }

  /** Comparing d bytes on decides the order of entries j and i. */
  lemma AnswerAhead(b: seq<Byte>, s: seq<nat>, lo: int, hi: int, d: nat, j: nat, i: nat, greater: bool)
    requires Sharing(b, s, lo, hi, d) && d <= |b| && lo <= j <= hi && lo <= i <= hi && j < |s| && i < |s|
    requires s[j] < |b| && s[i] < |b| && s[j] + d < 2 * |b| && s[i] + d < 2 * |b|
    requires Answers(b, Fold(|b|, s[j] + d), Fold(|b|, s[i] + d), greater)
    ensures greater ==> ClassOf(s, Keys(b), i) <= ClassOf(s, Keys(b), j)
    ensures !greater ==> ClassOf(s, Keys(b), j) <= ClassOf(s, Keys(b), i)
  {
    AdvanceIs(|b|, s[j], d);
    AdvanceIs(|b|, s[i], d);
    ClassIsKey(b, s, j);
    ClassIsKey(b, s, i);
    if greater { OrderBack(b, s[i], s[j], d); } else { OrderBack(b, s[j], s[i], d); }
  }

  method InsertEntry(ptr: array<UInt32>, arr2: array<UInt32>, n: nat, lo: nat, i: nat, h: nat, d: nat, budget: int,
                     ghost b: seq<Byte>, ghost q: seq<UInt16>) returns (budget': int)
    requires ptr != arr2 && n == |b| && d <= 15 && Holds(arr2[..], b, q) && QuadrantsOrder(b, q)
    requires 1 <= h && lo + h <= i < ptr.Length && Sharing(b, ptr[..], lo, i, d)
    modifies ptr
    ensures Dropped(old(ptr[..]), ptr[..], Keys(b), lo, i, h) && budget' <= budget
  {
    hide *;
    ghost var s0, s, ec := ptr[..], ptr[..], Keys(b);
    HoldsSize(arr2[..], b, q);
    SharingAt(b, s0, lo, i, d, i);
    LiftStarts(s0, ec, lo, i, h);
    budget' := budget;
    var v := ptr[i];
    var j := i;
    while true
      invariant lo + h <= j <= i
      invariant ptr[..] == s && |s| == |s0| && s0[i] == v < n && budget' <= budget
      invariant Lifted(s0, s, ec, lo, i, j, h)
      decreases j
    {
      LiftedReads(s0, s, ec, lo, i, j, h);
      SharingAt(b, s0, lo, i, d, j - h);
      var greater;
      greater, budget' := MainGtU(arr2, ptr[j - h] + d, v + d, n, budget', b, q);
      AnswerAhead(b, s0, lo, i, d, j - h, i, greater);
      if !greater { break; }
      LiftMoves(s0, s, ec, lo, i, j, h);
      ptr[j] := ptr[j - h];
      s := s[j := s[j - h]];
      j := j - h;
      if j <= lo + h - 1 { break; }
    }
    LiftDropped(s0, s, ec, lo, i, j, h);
    ptr[j] := v;
  }

  lemma OrderedShort(s: seq<nat>, ec: seq<nat>, lo: int, hi: int)
    requires hi <= lo
    ensures Ordered(s, ec, lo, hi)
  {
  }

  /** One pass with stride h; gives up when the budget is exhausted. */
  method ShellPass(ptr: array<UInt32>, arr2: array<UInt32>, n: nat, lo: nat, hi: nat, h: nat, d: nat, budget: int,
                   ghost b: seq<Byte>, ghost q: seq<UInt16>) returns (stopped: bool, budget': int)
    requires ptr != arr2 && n == |b| && d <= 15 && Holds(arr2[..], b, q) && QuadrantsOrder(b, q)
    requires 1 <= h && h <= hi - lo && hi < ptr.Length && Sharing(b, ptr[..], lo, hi, d)
    modifies ptr
    ensures Permuted(old(ptr[..]), ptr[..], lo, hi) && Sharing(b, ptr[..], lo, hi, d)
    ensures budget' <= budget && (stopped ==> budget' < 0)
    ensures !stopped && h == 1 ==> Ordered(ptr[..], Keys(b), lo, hi)
  {
    hide *;
    ghost var s0, s, ec := ptr[..], ptr[..], Keys(b);
    PermutedRefl(s0, lo, hi);
    budget' := budget;
    var i := lo + h;
    if h == 1 { OrderedShort(s, ec, lo, i - 1); }
    while true
      invariant lo + h <= i <= hi + 1
      invariant ptr[..] == s && |s| == |s0| && budget' <= budget
      invariant Permuted(s0, s, lo, hi) && Sharing(b, s, lo, hi, d)
      invariant h == 1 ==> Ordered(s, ec, lo, i - 1)
      decreases hi - i
    {
      var copy := 0;
      ghost var i0 := i;
      while copy < 3 && i <= hi
        invariant copy <= 3 && lo + h <= i <= hi + 1 && copy + i0 == i
        invariant ptr[..] == s && |s| == |s0| && budget' <= budget
        invariant Permuted(s0, s, lo, hi) && Sharing(b, s, lo, hi, d)
        invariant h == 1 ==> Ordered(s, ec, lo, i - 1)
      {
        SharingNarrow(b, s, lo, hi, d, lo, i);
        budget' := InsertEntry(ptr, arr2, n, lo, i, h, d, budget', b, q);
        DropStep(s0, s, ptr[..], ec, lo, i, hi, h);
        SharingPermuted(b, s, ptr[..], lo, hi, d);
        s := ptr[..];
        i := i + 1;
        copy := copy + 1;
      }
      if copy < 3 { break; }
      if budget' < 0 { return true, budget'; }
    }
    stopped := false;
  }

  const INCS: seq<nat> := [1, 4, 13, 40, 121, 364, 1093, 3280, 9841, 29524, 88573, 265720, 797161, 2391484]

  lemma Increments(i: nat)
    requires i < 14
    ensures |INCS| == 14 && INCS[i] >= 1 && INCS[0] == 1 && INCS[13] == 2391484
  {
  }

  method SimpleSort(ptr: array<UInt32>, arr2: array<UInt32>, n: nat, lo: nat, hi: int, d: nat, budget: int,
                    ghost b: seq<Byte>, ghost q: seq<UInt16>) returns (budget': int)
    requires ptr != arr2 && n == |b| && d <= 15 && Holds(arr2[..], b, q) && QuadrantsOrder(b, q)
    requires hi < ptr.Length && hi + 1 - lo <= 2391484 && Sharing(b, ptr[..], lo, hi, d)
    modifies ptr
    ensures Permuted(old(ptr[..]), ptr[..], lo, hi) && budget' <= budget
    ensures budget' >= 0 ==> Ordered(ptr[..], Keys(b), lo, hi)
  {
    hide *;
    ghost var s0, s, ec := ptr[..], ptr[..], Keys(b);
    PermutedRefl(s0, lo, hi);
    budget' := budget;
    var bigN := hi - lo + 1;
    if bigN < 2 {
      OrderedShort(s, ec, lo, hi);
      return;
    }
    Increments(0);
    var hp: int := 0;
    while INCS[hp] < bigN
      invariant 0 <= hp <= 13 && |INCS| == 14 && INCS[0] == 1 && INCS[13] == 2391484
      invariant forall k :: 0 <= k < hp ==> INCS[k] < bigN
      decreases 13 - hp
    {
      hp := hp + 1;
    }
    hp := hp - 1;
    while hp >= 0
      invariant -1 <= hp <= 12 && |INCS| == 14 && INCS[0] == 1
      invariant forall k :: 0 <= k <= hp ==> INCS[k] < bigN
      invariant ptr[..] == s && |s| == |s0| && budget' <= budget
      invariant Permuted(s0, s, lo, hi) && Sharing(b, s, lo, hi, d)
      invariant hp == -1 ==> Ordered(s, ec, lo, hi)
    {
      Increments(hp);
      var stopped;
      stopped, budget' := ShellPass(ptr, arr2, n, lo, hi, INCS[hp], d, budget', b, q);
      PermutedTrans(s0, s, ptr[..], lo, hi);
      s := ptr[..];
      if stopped { return; }
      hp := hp - 1;
    }
  }
}
