/** The bucket-header bits kept by the fallback sort, 32 to a word. */
module BitTables {

  /** A 32-bit word as its bits, least significant first. */
  type Word = w: seq<bool> | |w| == 32 witness seq(32, i => false)

  ghost function Bits(words: seq<Word>): (r: seq<bool>)
    ensures |r| == 32 * |words|
  {
    seq(32 * |words|, k requires 0 <= k < 32 * |words| => words[k / 32][k % 32])
  }

  lemma BitIs(words: seq<Word>, k: nat)
    requires k < 32 * |words|
    ensures 0 <= k / 32 < |words| && Bits(words)[k] == words[k / 32][k % 32]
  {
  }

  lemma SetOne(words: seq<Word>, k: nat, v: bool)
    requires k < 32 * |words|
    ensures Bits(words[k / 32 := words[k / 32][k % 32 := v]]) == Bits(words)[k := v]
  {
    var a, b := Bits(words[k / 32 := words[k / 32][k % 32 := v]]), Bits(words)[k := v];
    forall j | 0 <= j < |b| ensures a[j] == b[j] {
      if j / 32 == k / 32 && j % 32 == k % 32 { assert j == k; }
    }
  }

  method Put(table: array<Word>, k: nat, v: bool)
    requires k < 32 * table.Length
    modifies table
    ensures Bits(table[..]) == old(Bits(table[..]))[k := v]
  {
    SetOne(table[..], k, v);
    ghost var words := table[..];
    table[k / 32] := table[k / 32][k % 32 := v];
    assert table[..] == words[k / 32 := words[k / 32][k % 32 := v]];
  }

  method Get(table: array<Word>, k: nat) returns (v: bool)
    requires k < 32 * table.Length
    ensures v == Bits(table[..])[k]
  {
    v := table[k / 32][k % 32];
  }

  /** Bits from..to-1 are all v. */
  ghost predicate AllAre(bits: seq<bool>, v: bool, from: int, to: int) {
    forall j :: 0 <= j < |bits| && from <= j < to ==> bits[j] == v
  }

  lemma {:induction false} AllAreOne(bits: seq<bool>, v: bool, from: int, k: nat)
    requires AllAre(bits, v, from, k) && k < |bits| && bits[k] == v
    ensures AllAre(bits, v, from, k + 1)
  {
  }

  lemma {:induction false} AllAreStop(bits: seq<bool>, v: bool, from: int, to: int, e: nat)
    requires AllAre(bits, v, from, to) && from <= e < |bits| && bits[e] != v
    ensures to <= e
  {
  }

  lemma {:induction false} AllAreStart(bits: seq<bool>, v: bool, k: int)
    ensures AllAre(bits, v, k, k)
  {
  }

  lemma AllAreWord(words: seq<Word>, v: bool, from: int, k: nat)
    requires k % 32 == 0 && k / 32 < |words| && AllAre(Bits(words), v, from, k)
    requires words[k / 32] == seq(32, i => v)
    ensures AllAre(Bits(words), v, from, k + 32)
  {
    forall j | k <= j < k + 32 ensures Bits(words)[j] == v {
      assert j / 32 == k / 32;
    }
  }

  /** Finds the first bit from k on that is not v, skipping whole words where it can. */
  method SkipRun(table: array<Word>, k: nat, v: bool, ghost e: nat) returns (r: nat)
    requires k <= e < 32 * table.Length && Bits(table[..])[e] != v
    ensures k <= r <= e && Bits(table[..])[r] != v && AllAre(Bits(table[..]), v, k, r)
  {
    hide *;
    ghost var words, bits := table[..], Bits(table[..]);
    r := k;
    AllAreStart(bits, v, k);
    var cur := Get(table, r);
    while cur == v && r % 32 != 0
      invariant k <= r <= e && AllAre(bits, v, k, r) && cur == bits[r]
      decreases e - r
    {
      AllAreOne(bits, v, k, r);
      AllAreStop(bits, v, k, r + 1, e);
      r := r + 1;
      cur := Get(table, r);
    }
    if cur == v {
      BitIs(words, r);
      while table[r / 32] == seq(32, i => v)
        invariant k <= r <= e && r % 32 == 0 && r / 32 < table.Length && AllAre(bits, v, k, r)
        decreases e - r
      {
        AllAreWord(words, v, k, r);
        AllAreStop(bits, v, k, r + 32, e);
        r := r + 32;
        BitIs(words, r);
      }
      cur := Get(table, r);
      while cur == v
        invariant k <= r <= e && AllAre(bits, v, k, r) && cur == bits[r]
        decreases e - r
      {
        AllAreOne(bits, v, k, r);
        AllAreStop(bits, v, k, r + 1, e);
        r := r + 1;
        cur := Get(table, r);
      }
    }
  }
}
