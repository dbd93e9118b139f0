/** Why the last column of the sorted rotations, and one row number, determine the block. */
module Bwt {
  import opened MachineInts
  import opened Permutations
  import opened Rotations
  import opened Counting

  function Prev(n: nat, i: nat): (r: nat)
    requires i < n
    ensures r < n && Next(n, r) == i
  {
    if i == 0 then n - 1 else i - 1
  }

  /** Byte i of last is the one before rotation ptr[i]: the column the compressor encodes. */
  ghost predicate IsLastColumn(b: seq<Byte>, ptr: seq<nat>, last: seq<Byte>) {
    && |last| == |ptr| == |b| && Below(ptr, |b|)
    && forall i :: 0 <= i < |b| ==> last[i] == b[Prev(|b|, ptr[i])]
  }

  /** The slot the byte at row i takes when the column is sorted stably. */
  ghost function Slot(last: seq<Byte>, i: nat): (r: nat)
    requires i < |last|
    ensures r < |last| && InBucket(last, last[i], r) && r == Less(last, last[i]) + Count(last[..i], last[i])
  {
    CountRoom(last, i);
    LessNext(last, last[i]);
    var c: int := last[i];
    LessGrows(last, c + 1, 256);
    LessEnds(last);
    Less(last, last[i]) + Count(last[..i], last[i])
  }

  lemma SlotOrder(last: seq<Byte>, i: nat, j: nat)
    requires i < j < |last| && last[i] == last[j]
    ensures Slot(last, i) < Slot(last, j)
  {
    CountTake(last, i, last[i]);
    assert last[..j][..i + 1] == last[..i + 1];
    CountPrefix(last[..j], i + 1, last[i]);
  }

  lemma SlotDistinct(last: seq<Byte>, i: nat, j: nat)
    requires i < |last| && j < |last| && i != j
    ensures Slot(last, i) != Slot(last, j)
  {
    if last[i] == last[j] {
      if i < j { SlotOrder(last, i, j); } else { SlotOrder(last, j, i); }
    } else if Slot(last, i) == Slot(last, j) {
      BucketUnique(last, last[i], last[j], Slot(last, i));
    }
  }

  ghost function Slots(last: seq<Byte>): (r: seq<nat>)
    ensures |r| == |last| && forall i :: 0 <= i < |last| ==> r[i] == Slot(last, i)
  {
    seq(|last|, i requires 0 <= i < |last| => Slot(last, i))
  }

  lemma SlotsPermute(last: seq<Byte>)
    ensures IsPermutation(Slots(last), |last|)
  {
    forall i, j | 0 <= i < j < |last| ensures Slots(last)[i] != Slots(last)[j] { SlotDistinct(last, i, j); }
  }

  /** t undoes the stable sort: slot j holds the byte from row t[j]. */
  ghost predicate Undoes(last: seq<Byte>, t: seq<nat>) {
    && |t| == |last|
    && forall i :: 0 <= i < |last| ==> t[Slot(last, i)] == i
  }

  lemma UndoesAt(last: seq<Byte>, t: seq<nat>, j: nat)
    requires Undoes(last, t) && j < |last|
    ensures t[j] < |last| && Slot(last, t[j]) == j && last[t[j]] == Bucket(last, j)
  {
    SlotsPermute(last);
    var i := Find(Slots(last), |last|, j);
    assert Slot(last, i) == j;
    BucketUnique(last, last[i], Bucket(last, j), j);
  }

  lemma UndoesPermutes(last: seq<Byte>, t: seq<nat>)
    requires Undoes(last, t)
    ensures IsPermutation(t, |last|)
  {
    forall j | 0 <= j < |last| ensures t[j] < |last| && Slot(last, t[j]) == j { UndoesAt(last, t, j); }
  }

  /** Equal bytes keep their order, so t increases within a bucket. */
  lemma UndoesStable(last: seq<Byte>, t: seq<nat>, j: nat, k: nat)
    requires Undoes(last, t) && j < k < |last|
    ensures t[j] < |last| && t[k] < |last| && last[t[j]] <= last[t[k]]
    ensures last[t[j]] == last[t[k]] ==> t[j] < t[k]
  {
    UndoesAt(last, t, j);
    UndoesAt(last, t, k);
    BucketGrows(last, j, k);
    if last[t[j]] == last[t[k]] && t[k] < t[j] { SlotOrder(last, t[k], t[j]); }
  }

  /** The rotation one before row t[j], for every j. */
  ghost function Stepped(ptr: seq<nat>, t: seq<nat>): (r: seq<nat>)
    requires |t| == |ptr| && Below(t, |ptr|) && Below(ptr, |ptr|)
    ensures |r| == |ptr| && forall j :: 0 <= j < |ptr| ==> r[j] == Prev(|ptr|, ptr[t[j]])
  {
    seq(|ptr|, j requires 0 <= j < |ptr| => Prev(|ptr|, ptr[t[j]]))
  }

  lemma PrevDistinct(n: nat, x: nat, y: nat)
    requires x < n && y < n && x != y
    ensures Prev(n, x) != Prev(n, y)
  {
  }

  lemma SteppedPermutes(ptr: seq<nat>, t: seq<nat>)
    requires IsPermutation(ptr, |ptr|) && IsPermutation(t, |ptr|)
    ensures IsPermutation(Stepped(ptr, t), |ptr|)
  {
    var n, q := |ptr|, Stepped(ptr, t);
    forall i, j | 0 <= i < j < n ensures q[i] != q[j] {
      assert t[i] != t[j];
      assert ptr[t[i]] != ptr[t[j]];
      PrevDistinct(n, ptr[t[i]], ptr[t[j]]);
    }
  }

  /** Putting one byte in front of two rotations keeps their order if the bytes agree. */
  lemma PrependOrder(b: seq<Byte>, x: nat, y: nat)
    requires x < |b| && y < |b|
    requires b[x] < b[y] || (b[x] == b[y] && Key(b, Next(|b|, x), |b|) <= Key(b, Next(|b|, y), |b|))
    ensures Key(b, x, |b|) <= Key(b, y, |b|)
  {
    var n := |b|;
    OneKey(b, x);
    OneKey(b, y);
    AdvanceIs(n, x, 1);
    AdvanceIs(n, y, 1);
    KeySplitOrder(b, x, y, 1, n);
    KeySplitOrder(b, x, y, n, 1);
    assert 1 + n == n + 1;
  }

  lemma SteppedSorted(b: seq<Byte>, ptr: seq<nat>, last: seq<Byte>, t: seq<nat>)
    requires SortedRotations(b, ptr) && IsLastColumn(b, ptr, last) && Undoes(last, t)
    ensures IsPermutation(t, |b|) && SortedBy(Stepped(ptr, t), Keys(b))
  {
    UndoesPermutes(last, t);
    SortedKeysMeans(b, ptr);
    var n, v := |b|, Keys(b);
    var q := Stepped(ptr, t);
    forall j, k | 0 <= j < k < n ensures v[q[j]] <= v[q[k]] {
      UndoesStable(last, t, j, k);
      assert b[q[j]] == last[t[j]] && b[q[k]] == last[t[k]];
      assert last[t[j]] == last[t[k]] ==> Key(b, ptr[t[j]], n) <= Key(b, ptr[t[k]], n);
      PrependOrder(b, q[j], q[k]);
    }
  }

  /** Row t[j] holds the rotation that follows the one in row j, byte for byte. */
  lemma RowFollows(b: seq<Byte>, ptr: seq<nat>, last: seq<Byte>, t: seq<nat>, j: nat)
    requires SortedRotations(b, ptr) && IsLastColumn(b, ptr, last) && Undoes(last, t) && j < |b|
    ensures t[j] < |b| && last[t[j]] == b[ptr[j]]
    ensures Key(b, ptr[t[j]], |b|) == Key(b, Next(|b|, ptr[j]), |b|)
  {
    var n, v := |b|, Keys(b);
    SteppedSorted(b, ptr, last, t);
    var q := Stepped(ptr, t);
    SteppedPermutes(ptr, t);
    SortedKeysMeans(b, ptr);
    assert SortedBy(ptr, v);
    SortedAgree(q, ptr, v, j);
    EqualNext(b, q[j], ptr[j]);
  }

  /** The row reached from row o by following t k times. */
  ghost function Row(t: seq<nat>, o: nat, k: nat): (r: nat)
    requires o < |t| && Below(t, |t|)
    ensures r < |t|
  {
    if k == 0 then o else t[Row(t, o, k - 1)]
  }

  /** Walking from the row of the unrotated block meets the rotations in block order. */
  lemma {:induction false} RowAt(b: seq<Byte>, ptr: seq<nat>, last: seq<Byte>, t: seq<nat>, o: nat, k: nat)
    requires SortedRotations(b, ptr) && IsLastColumn(b, ptr, last) && Undoes(last, t)
    requires IsPermutation(t, |b|) && o < |b| && ptr[o] == 0 && k < |b|
    ensures Key(b, ptr[Row(t, o, k)], |b|) == Key(b, k, |b|)
  {
    if k > 0 {
      RowAt(b, ptr, last, t, o, k - 1);
      var j := Row(t, o, k - 1);
      RowFollows(b, ptr, last, t, j);
      EqualNext(b, ptr[j], k - 1);
    }
  }

  /** The bytes met while following t from row o. */
  ghost function Walk(last: seq<Byte>, t: seq<nat>, o: nat, n: nat): (r: seq<Byte>)
    requires |t| == |last| && Below(t, |t|) && o < |t|
    ensures |r| == n && forall k :: 0 <= k < n ==> r[k] == last[Row(t, o, k + 1)]
  {
    seq(n, k requires 0 <= k < n => last[Row(t, o, k + 1)])
  }

  /** The inverse transform recovers the block, periodic or not. */
  lemma WalkRecovers(b: seq<Byte>, ptr: seq<nat>, last: seq<Byte>, t: seq<nat>, o: nat)
    requires SortedRotations(b, ptr) && IsLastColumn(b, ptr, last) && Undoes(last, t)
    requires IsPermutation(t, |b|) && o < |b| && ptr[o] == 0
    ensures Walk(last, t, o, |b|) == b
  {
    forall k | 0 <= k < |b| ensures last[Row(t, o, k + 1)] == b[k] {
      var j := Row(t, o, k);
      RowAt(b, ptr, last, t, o, k);
      RowFollows(b, ptr, last, t, j);
      EqualNext(b, ptr[j], k);
    }
  }
}
