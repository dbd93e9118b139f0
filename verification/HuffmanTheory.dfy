/** Code lengths under Kraft's inequality, and why merging two lightest nodes loses nothing. */
module HuffmanTheory {
  import opened Arithmetic
  import opened SetSums

  /** The share of a code of length l[x], in units of 2^-bound. */
  ghost function Terms(l: seq<nat>, bound: nat): (r: seq<int>)
    ensures |r| == |l| && forall i :: 0 <= i < |l| ==> r[i] == Pow2(bound - l[i])
  {
    seq(|l|, i requires 0 <= i < |l| => Pow2(bound - l[i]))
  }

  ghost function Products(w: seq<nat>, l: seq<nat>): (r: seq<int>)
    requires |w| == |l|
    ensures |r| == |l| && forall i :: 0 <= i < |l| ==> r[i] == w[i] * l[i]
  {
    seq(|l|, i requires 0 <= i < |l| => w[i] * l[i])
  }

  ghost predicate Bounded(s: set<nat>, l: seq<nat>, bound: nat) {
    forall x :: x in s ==> x < |l| && l[x] <= bound
  }

  /** The lengths of s leave room for one another in a binary code. */
  ghost predicate Kraft(s: set<nat>, l: seq<nat>, bound: nat) {
    && Within(s, l) && Bounded(s, l, bound)
    && SumOver(s, Terms(l, bound)) <= Pow2(bound)
  }

  ghost function Cost(s: set<nat>, w: seq<nat>, l: seq<nat>): int
    requires |w| == |l| && Within(s, l)
  {
    SumOver(s, Products(w, l))
  }

  ghost predicate Lightest(s: set<nat>, w: seq<nat>, a: nat, b: nat) {
    && a in s && b in s && a != b && Within(s, w)
    && forall x :: x in s && x != a && x != b ==> w[a] <= w[x] && w[b] <= w[x]
  }

  lemma Update(s: set<nat>, w: seq<nat>, l: seq<nat>, bound: nat, x: nat, v: nat)
    requires |w| == |l| && x in s && Within(s, l)
    ensures Within(s, l[x := v])
    ensures SumOver(s, Terms(l[x := v], bound)) == SumOver(s, Terms(l, bound)) - Pow2(bound - l[x]) + Pow2(bound - v)
    ensures Cost(s, w, l[x := v]) == Cost(s, w, l) - w[x] * l[x] + w[x] * v
    ensures SumOver(s, l[x := v]) == SumOver(s, l) - l[x] + v
  {
    SumUpdate(s, Terms(l, bound), x, Pow2(bound - v));
    assert Terms(l[x := v], bound) == Terms(l, bound)[x := Pow2(bound - v)];
    SumUpdate(s, Products(w, l), x, w[x] * v);
    assert Products(w, l[x := v]) == Products(w, l)[x := w[x] * v];
    SumUpdate(s, l, x, v);
  }

  lemma KraftParts(s: set<nat>, l: seq<nat>, bound: nat)
    ensures Kraft(s, l, bound) <==> Within(s, l) && Bounded(s, l, bound) && SumOver(s, Terms(l, bound)) <= Pow2(bound)
  {
  }

  lemma BoundedUpdate(s: set<nat>, l: seq<nat>, bound: nat, x: nat, v: nat)
    requires Within(s, l) && Bounded(s, l, bound) && x < |l| && v <= bound
    ensures Within(s, l[x := v]) && Bounded(s, l[x := v], bound)
  {
  }

  lemma BoundedAt(s: set<nat>, l: seq<nat>, bound: nat, x: nat)
    requires Within(s, l) && x in s
    ensures x < |l| && (Bounded(s, l, bound) ==> l[x] <= bound)
  {
  }

  lemma SwapGain(wx: nat, wy: nat, lx: nat, ly: nat)
    requires wx <= wy && lx <= ly
    ensures wx * ly + wy * lx <= wx * lx + wy * ly
  {
    assert (wy - wx) * (ly - lx) >= 0;
  }

  /** Giving the shorter code to the heavier of two nodes costs no more. */
  lemma SwapLengths(s: set<nat>, w: seq<nat>, l: seq<nat>, bound: nat, x: nat, y: nat)
    requires |w| == |l| && Within(s, l) && x in s && y in s && x != y && Kraft(s, l, bound)
    requires x < |l| && y < |l| && w[x] <= w[y] && l[x] <= l[y]
    ensures Kraft(s, l[x := l[y]][y := l[x]], bound)
    ensures Within(s, l[x := l[y]][y := l[x]]) && Cost(s, w, l[x := l[y]][y := l[x]]) <= Cost(s, w, l)
  {
    hide *;
    var l1 := l[x := l[y]];
    var l2 := l1[y := l[x]];
    KraftParts(s, l, bound);
    BoundedAt(s, l, bound, x);
    BoundedAt(s, l, bound, y);
    BoundedUpdate(s, l, bound, x, l[y]);
    BoundedUpdate(s, l1, bound, y, l[x]);
    Update(s, w, l, bound, x, l[y]);
    Update(s, w, l1, bound, y, l[x]);
    KraftParts(s, l2, bound);
    SwapGain(w[x], w[y], l[x], l[y]);
  }

  lemma Longest(s: set<nat>, l: seq<nat>) returns (y: nat)
    requires s != {} && Within(s, l)
    ensures y in s && forall x :: x in s ==> l[x] <= l[y]
    decreases s
  {
    y :| y in s;
    if s != {y} {
      var z := Longest(s - {y}, l);
      if l[z] > l[y] { y := z; }
    }
  }

  lemma NotAllZero(s: set<nat>, l: seq<nat>, bound: nat, a: nat, b: nat)
    requires a in s && b in s && a != b && Kraft(s, l, bound)
    ensures l[a] > 0 || l[b] > 0
  {
    var t := Terms(l, bound);
    SumRemove(s, t, a);
    SumRemove(s - {a}, t, b);
    SumNonNegative(s - {a} - {b}, t);
  }

  /** Shorter codes than the longest take up an even number of its units. */
  lemma {:induction false} EvenShare(s: set<nat>, l: seq<nat>, bound: nat, m: nat) returns (k: nat)
    requires Within(s, l) && m <= bound && forall x :: x in s ==> l[x] < m
    ensures SumOver(s, Terms(l, bound)) == 2 * k * Pow2(bound - m)
    decreases s
  {
    if s == {} {
      k := 0;
    } else {
      var x :| x in s;
      SumRemove(s, Terms(l, bound), x);
      var k' := EvenShare(s - {x}, l, bound, m);
      Pow2Add(m - l[x] - 1, bound - m);
      var u := Pow2(m - l[x] - 1);
      assert Pow2(bound - l[x]) == 2 * Pow2(bound - l[x] - 1);
      k := k' + u;
      Distribute(k', u, Pow2(bound - m));
    }
  }

  lemma Distribute(k: int, u: int, p: int)
    ensures 2 * (k + u) * p == 2 * k * p + 2 * (u * p)
  {
  }

  lemma OddBelowEven(k: nat, h: nat, u: nat, total: nat)
    requires u > 0 && total == h * u * 2 && u + 2 * k * u <= total
    ensures 2 * u + 2 * k * u <= total
  {
    Spread(1, 2 * k, u);
    assert h * u * 2 == (2 * h) * u;
    Cancel(1 + 2 * k, 2 * h, u);
    ScaleUp2(2 + 2 * k, 2 * h, u);
    Spread(2, 2 * k, u);
  }

  lemma PowerParts(bound: nat, m: nat)
    requires 0 < m <= bound
    ensures Pow2(bound) == Pow2(m - 1) * Pow2(bound - m) * 2
    ensures Pow2(bound - (m - 1)) == 2 * Pow2(bound - m)
  {
    Pow2Add(m - 1, bound - m);
    assert Pow2(bound) == 2 * Pow2(bound - 1);
  }

  /** If one code alone is longest, it can be shortened. */
  lemma Shorten(s: set<nat>, w: seq<nat>, l: seq<nat>, bound: nat, y: nat)
    requires |w| == |l| && Within(s, l) && Kraft(s, l, bound) && y in s && y < |l| && l[y] > 0
    requires forall x :: x in s && x != y ==> x < |l| && l[x] < l[y]
    ensures Kraft(s, l[y := l[y] - 1], bound)
    ensures Within(s, l[y := l[y] - 1]) && Cost(s, w, l[y := l[y] - 1]) <= Cost(s, w, l)
    ensures SumOver(s, l[y := l[y] - 1]) == SumOver(s, l) - 1
  {
    hide *;
    var m, t := l[y], Terms(l, bound);
    KraftParts(s, l, bound);
    BoundedAt(s, l, bound, y);
    BoundedUpdate(s, l, bound, y, m - 1);
    Update(s, w, l, bound, y, m - 1);
    WithinSame(s, l, t);
    SumRemove(s, t, y);
    WithinLess(s, l, y);
    var k := EvenShare(s - {y}, l, bound, m);
    PowerParts(bound, m);
    var u := Pow2(bound - m);
    OddBelowEven(k, Pow2(m - 1), u, Pow2(bound));
    KraftParts(s, l[y := m - 1], bound);
    OneLess(w[y], m);
  }

  lemma OneLess(a: nat, m: nat)
    requires m > 0
    ensures a * (m - 1) <= a * m
  {
  }

  lemma WithinSame(s: set<nat>, f: seq<int>, g: seq<int>)
    requires Within(s, f) && |f| == |g|
    ensures Within(s, g)
  {
  }

  lemma WithinLess(s: set<nat>, f: seq<int>, x: nat)
    requires Within(s, f)
    ensures Within(s - {x}, f)
  {
  }

  ghost predicate SomeoneElse(s: set<nat>, l: seq<nat>, y: nat)
    requires Within(s, l) && y < |l|
  {
    exists x :: x in s && x != y && l[x] == l[y]
  }

  /** At least two nodes share the greatest length m. */
  ghost predicate TwoLongest(s: set<nat>, l: seq<nat>, y: nat, z: nat) {
    && y in s && z in s && y != z && Within(s, l)
    && l[y] == l[z] && forall x :: x in s ==> l[x] <= l[y]
  }

  /** Moves a greatest length onto the light node a; other is the node to keep out of it. */
  lemma Promote(s: set<nat>, w: seq<nat>, l: seq<nat>, bound: nat, a: nat, other: nat, y: nat, z: nat)
    returns (l': seq<nat>)
    requires |w| == |l| && Kraft(s, l, bound) && TwoLongest(s, l, y, z) && a in s && other in s && a != other
    requires forall x :: x in s && x != a && x != other ==> w[a] <= w[x]
    ensures |l'| == |l| && Kraft(s, l', bound) && Cost(s, w, l') <= Cost(s, w, l)
    ensures l'[a] == l[y] && l'[other] == l[other]
    ensures forall x :: x in s ==> l'[x] <= l[y]
    ensures exists x :: x in s && x != a && l'[x] == l[y]
  {
    if l[a] == l[y] {
      l' := l;
      assert if a == y then z != a && l[z] == l[y] else y != a;
    } else {
      var t := if y == other then z else y;
      SwapLengths(s, w, l, bound, a, t);
      l' := l[a := l[t]][t := l[a]];
      var u := if y == other then y else z;
      assert u != a && u != t && l'[u] == l[y];
    }
  }

  /** Any workable lengths can be changed, at no cost, so that two lightest nodes have equal lengths. */
  lemma {:induction false} Pair(s: set<nat>, w: seq<nat>, l: seq<nat>, bound: nat, a: nat, b: nat)
    returns (l': seq<nat>)
    requires |w| == |l| && Kraft(s, l, bound) && Lightest(s, w, a, b)
    ensures |l'| == |l| && Kraft(s, l', bound) && Cost(s, w, l') <= Cost(s, w, l)
    ensures a < |l'| && b < |l'| && l'[a] == l'[b] && l'[a] > 0
    decreases SumOver(s, l)
  {
    var y := Longest(s, l);
    NotAllZero(s, l, bound, a, b);
    SumNonNegative(s, l);
    if SomeoneElse(s, l, y) {
      var z :| z in s && z != y && l[z] == l[y];
      var l1 := Promote(s, w, l, bound, a, b, y, z);
      var x :| x in s && x != a && l1[x] == l[y];
      l' := Promote(s, w, l1, bound, b, a, a, x);
    } else {
      Shorten(s, w, l, bound, y);
      var l1 := l[y := l[y] - 1];
      SumNonNegative(s, l1);
      l' := Pair(s, w, l1, bound, a, b);
    }
  }

  /** No workable lengths for s cost less than d does. */
  ghost predicate Optimal(s: set<nat>, w: seq<nat>, d: seq<nat>) {
    && |w| == |d| && Within(s, d)
    && forall l: seq<nat>, bound: nat :: |l| == |d| && Kraft(s, l, bound) ==> Cost(s, w, d) <= Cost(s, w, l)
  }

  /** s' is s with a and b replaced by their parent p. */
  ghost predicate Merged(s: set<nat>, s': set<nat>, w: seq<nat>, d: seq<nat>, a: nat, b: nat, p: nat) {
    && |w| == |d| && Within(s, d) && p < |d| && p !in s && a in s && b in s && a != b
    && s' == s - {a, b} + {p}
    && w[p] == w[a] + w[b] && d[a] == d[p] + 1 && d[b] == d[p] + 1
  }

  lemma MergeSum(s: set<nat>, s': set<nat>, f: seq<int>, a: nat, b: nat, p: nat)
    requires Within(s, f) && p < |f| && p !in s && a in s && b in s && a != b && s' == s - {a, b} + {p}
    ensures Within(s', f) && SumOver(s, f) == SumOver(s', f) - f[p] + f[a] + f[b]
  {
    SumRemove(s, f, a);
    SumRemove(s - {a}, f, b);
    assert s - {a} - {b} == s - {a, b};
    SumAdd(s - {a, b}, f, p);
  }

  lemma MergeCost(s: set<nat>, s': set<nat>, w: seq<nat>, d: seq<nat>, a: nat, b: nat, p: nat)
    requires Merged(s, s', w, d, a, b, p)
    ensures Within(s', d) && Cost(s, w, d) == Cost(s', w, d) + w[p]
  {
    MergeSum(s, s', Products(w, d), a, b, p);
    SplitProduct(w[a], w[b], d[p]);
  }

  lemma SplitProduct(x: nat, y: nat, k: nat)
    ensures x * (k + 1) + y * (k + 1) == (x + y) * k + (x + y)
  {
  }

  /** Merging keeps the space the codes take up. */
  lemma MergeSpace(s: set<nat>, s': set<nat>, w: seq<nat>, d: seq<nat>, a: nat, b: nat, p: nat, bound: nat)
    requires Merged(s, s', w, d, a, b, p) && d[a] <= bound
    ensures Within(s', d) && SumOver(s, Terms(d, bound)) == SumOver(s', Terms(d, bound))
  {
    MergeSum(s, s', Terms(d, bound), a, b, p);
    assert Pow2(bound - d[p]) == 2 * Pow2(bound - d[p] - 1);
  }

  /** If d is optimal after merging the two lightest nodes, it was optimal before. */
  lemma MergeOptimal(s: set<nat>, s': set<nat>, w: seq<nat>, d: seq<nat>, a: nat, b: nat, p: nat)
    requires Merged(s, s', w, d, a, b, p) && Lightest(s, w, a, b) && Optimal(s', w, d)
    ensures Optimal(s, w, d)
  {
    MergeCost(s, s', w, d, a, b, p);
    forall l: seq<nat>, bound: nat | |l| == |d| && Kraft(s, l, bound) ensures Cost(s, w, d) <= Cost(s, w, l) {
      MergeBeats(s, s', w, d, l, bound, a, b, p);
    }
  }

  lemma MergeBeats(s: set<nat>, s': set<nat>, w: seq<nat>, d: seq<nat>, l: seq<nat>, bound: nat, a: nat, b: nat, p: nat)
    requires Merged(s, s', w, d, a, b, p) && Lightest(s, w, a, b) && Optimal(s', w, d)
    requires |l| == |d| && Kraft(s, l, bound)
    ensures Cost(s, w, d) <= Cost(s, w, l)
  {
    var l1 := Pair(s, w, l, bound, a, b);
    var l2 := l1[p := l1[a] - 1];
    OutsideUpdate(s, w, l1, bound, p, l1[a] - 1);
    assert Merged(s, s', w, l2, a, b, p);
    MergeCost(s, s', w, l2, a, b, p);
    MergeSpace(s, s', w, l2, a, b, p, bound);
    assert Bounded(s', l2, bound);
    assert Kraft(s', l2, bound);
    MergeCost(s, s', w, d, a, b, p);
  }

  lemma OutsideUpdate(s: set<nat>, w: seq<nat>, l: seq<nat>, bound: nat, p: nat, v: nat)
    requires |w| == |l| && Within(s, l) && p < |l| && p !in s
    ensures Cost(s, w, l[p := v]) == Cost(s, w, l)
    ensures SumOver(s, Terms(l[p := v], bound)) == SumOver(s, Terms(l, bound))
  {
    SumSame(s, Products(w, l), Products(w, l[p := v]));
    SumSame(s, Terms(l, bound), Terms(l[p := v], bound));
  }
}
