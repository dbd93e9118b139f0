/** The hash chains of deflate: every string on a chain has the hash of its head. */
module HashChains {
  import opened Arithmetic
  import opened SetSums
  import opened MachineInts
  import opened RollingHash

  ghost function HashAt(z: Sizes, w: seq<Byte>, p: int): nat {
    if 0 <= p && p + 2 < |w| then Hash3(z, w[p], w[p + 1], w[p + 2]) else 0
  }

  /** ins are the window positions inserted so far, all below top, with their bytes below limit; heads and links lead
      only to inserted positions with the same hash. A link can be trusted until its slot is taken by a position a whole
      window ahead. */
  ghost predicate Chains(z: Sizes, w: seq<Byte>, head: seq<nat>, prev: seq<nat>, top: nat, limit: nat, ins: set<nat>) {
    && |head| == Pow2(z.hashBits) && |prev| == z.wsize > 0 && limit <= |w| == 2 * z.wsize
    && (forall p :: p in ins ==> 1 <= p < top && p + 2 < limit)
    && (forall h :: 0 <= h < |head| && head[h] != 0 ==> head[h] in ins && HashAt(z, w, head[h]) == h)
    && (forall p :: p in ins && p + z.wsize !in ins && prev[p % z.wsize] != 0 ==>
      prev[p % z.wsize] in ins && prev[p % z.wsize] < p && HashAt(z, w, prev[p % z.wsize]) == HashAt(z, w, p))
  }

  lemma ChainHead(z: Sizes, w: seq<Byte>, head: seq<nat>, prev: seq<nat>, top: nat, limit: nat, ins: set<nat>, h: nat)
    requires Chains(z, w, head, prev, top, limit, ins) && h < |head| && head[h] != 0
    ensures head[h] in ins && head[h] < top && head[h] + 2 < limit && HashAt(z, w, head[h]) == h
  {
  }

  lemma ChainNext(z: Sizes, w: seq<Byte>, head: seq<nat>, prev: seq<nat>, top: nat, limit: nat, ins: set<nat>, p: nat)
    requires Chains(z, w, head, prev, top, limit, ins) && p in ins && p + z.wsize >= top
    ensures p % z.wsize < |prev|
    ensures prev[p % z.wsize] != 0 ==>
      prev[p % z.wsize] in ins && prev[p % z.wsize] < p && HashAt(z, w, prev[p % z.wsize]) == HashAt(z, w, p)
  {
    hide HashAt, Pow2;
    assert p + z.wsize !in ins;
    assert p % z.wsize < z.wsize;
  }

  lemma ChainsStart(z: Sizes, w: seq<Byte>, head: seq<nat>, prev: seq<nat>)
    requires |head| == Pow2(z.hashBits) && |prev| == z.wsize > 0 && |w| == 2 * z.wsize
    requires forall h :: 0 <= h < |head| ==> head[h] == 0
    ensures Chains(z, w, head, prev, 0, 0, {})
  {
  }

  /** Nothing is lost by looking only at later positions. */
  lemma ChainsSkip(z: Sizes, w: seq<Byte>, head: seq<nat>, prev: seq<nat>, top: nat, limit: nat, ins: set<nat>,
                   top': nat)
    requires Chains(z, w, head, prev, top, limit, ins) && top <= top'
    ensures Chains(z, w, head, prev, top', limit, ins)
  {
  }

  /** The last two positions lack bytes and so have not been inserted. */
  lemma ChainsLower(z: Sizes, w: seq<Byte>, head: seq<nat>, prev: seq<nat>, top: nat, limit: nat, ins: set<nat>,
                    top': nat)
    requires Chains(z, w, head, prev, top, limit, ins) && limit <= top' + 2
    ensures Chains(z, w, head, prev, top', limit, ins)
  {
  }

  /** New bytes behind the limit change nothing. */
  lemma ChainsFill(z: Sizes, w: seq<Byte>, w': seq<Byte>, head: seq<nat>, prev: seq<nat>, top: nat, limit: nat,
                   limit': nat, ins: set<nat>)
    requires Chains(z, w, head, prev, top, limit, ins) && limit <= limit' <= |w'| && |w| == |w'|
    requires forall i :: 0 <= i < limit ==> w'[i] == w[i]
    ensures Chains(z, w', head, prev, top, limit', ins)
  {
    assert forall p :: p in ins ==> HashAt(z, w', p) == HashAt(z, w, p);
  }

  /** The slot of a new position was owned, if at all, by one a whole window behind. */
  lemma SlotOwner(p: nat, str: nat, m: nat)
    requires m > 0 && 0 < p < str < 2 * m && p % m == str % m
    ensures p + m == str
  {
    DivMod(p, m);
    DivMod(str, m);
    QuotientBound(p, m, 2);
    QuotientBound(str, m, 2);
  }

  ghost function WithPosition(ins: set<nat>, str: nat): set<nat> {
    if str == 0 then ins else ins + {str}
  }

  /** Inserting the string at str; position 0 serves as the end of chains and so is never found. */
  lemma ChainsInsert(z: Sizes, w: seq<Byte>, head: seq<nat>, prev: seq<nat>, top: nat, limit: nat, ins: set<nat>,
                     str: nat)
    requires Chains(z, w, head, prev, top, limit, ins) && top <= str && str + 2 < limit
    ensures HashAt(z, w, str) < |head| && str % z.wsize < |prev|
    ensures Chains(z, w, head[HashAt(z, w, str) := str], prev[str % z.wsize := head[HashAt(z, w, str)]],
                   str + 1, limit, WithPosition(ins, str))
  {
    var h := HashAt(z, w, str);
    var head', prev', ins' := head[h := str], prev[str % z.wsize := head[h]], WithPosition(ins, str);
    hide HashAt;
    forall p | p in ins' && p + z.wsize !in ins' && prev'[p % z.wsize] != 0
      ensures prev'[p % z.wsize] in ins' && prev'[p % z.wsize] < p
      ensures HashAt(z, w, prev'[p % z.wsize]) == HashAt(z, w, p)
    {
      if p != str {
        if p % z.wsize == str % z.wsize { SlotOwner(p, str, z.wsize); }
      }
    }
  }

  /* ---- sliding the window ---- */

  function Slid(m: nat, wsize: nat): (r: nat) {
    if m >= wsize then m - wsize else 0
  }

  ghost function SlidAll(s: seq<nat>, wsize: nat): (r: seq<nat>)
    ensures |r| == |s| && forall k :: 0 <= k < |s| ==> r[k] == Slid(s[k], wsize)
  {
    seq(|s|, k requires 0 <= k < |s| => Slid(s[k], wsize))
  }

  ghost function SlidSet(ins: set<nat>, wsize: nat): (r: set<nat>) {
    set p | p in ins && p > wsize :: p - wsize
  }

  lemma InSlid(ins: set<nat>, wsize: nat, p: nat)
    ensures p > 0 ==> (p in SlidSet(ins, wsize) <==> p + wsize in ins)
    ensures p in SlidSet(ins, wsize) ==> p > 0
  {
    if p > 0 && p + wsize in ins { assert (p + wsize) - wsize == p; }
  }

  lemma ModSlide(p: nat, m: nat)
    requires m > 0
    ensures (p + m) % m == p % m
  {
    DivMod(p, m);
    Spread(p / m, 1, m);
    DivUnique(p + m, m, p / m + 1, p % m);
  }

  /** Moving the upper half of the window down keeps the chains. */
  lemma ChainsSlide(z: Sizes, w: seq<Byte>, w': seq<Byte>, head: seq<nat>, prev: seq<nat>, top: nat, limit: nat,
                    ins: set<nat>)
    requires Chains(z, w, head, prev, top, limit, ins) && |w| == |w'| && z.wsize <= top && z.wsize <= limit
    requires forall i :: 0 <= i < z.wsize ==> w'[i] == w[i + z.wsize]
    ensures Chains(z, w', SlidAll(head, z.wsize), SlidAll(prev, z.wsize), top - z.wsize, limit - z.wsize,
                   SlidSet(ins, z.wsize))
  {
    var m := z.wsize;
    var head', prev', ins' := SlidAll(head, m), SlidAll(prev, m), SlidSet(ins, m);
    hide Slid, Pow2, Hash3;
    forall p: nat | p in ins'
      ensures 1 <= p < top - m && p + 2 < limit - m && p + m in ins && HashAt(z, w', p) == HashAt(z, w, p + m)
    {
      InSlid(ins, m, p);
    }
    forall h | 0 <= h < |head'| && head'[h] != 0 ensures head'[h] in ins' && HashAt(z, w', head'[h]) == h {
      SlidIs(head[h], m);
      InSlid(ins, m, head'[h]);
    }
    forall p: nat | p in ins' && p + m !in ins' && prev'[p % m] != 0
      ensures prev'[p % m] in ins' && prev'[p % m] < p && HashAt(z, w', prev'[p % m]) == HashAt(z, w', p)
    {
      ModSlide(p, m);
      InSlid(ins, m, p);
      assert p + m in ins && (p + m) + m !in ins;
      SlidIs(prev[p % m], m);
      InSlid(ins, m, prev'[p % m]);
    }
  }

  lemma SlidIs(v: nat, m: nat)
    ensures Slid(v, m) != 0 ==> v == Slid(v, m) + m
  {
  }
}
