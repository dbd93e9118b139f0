/** The tree that repeated merging of two lightest nodes builds: depths, heights and optimality. */
module HuffmanTree {
  import opened SetSums
  import opened HuffmanTheory

  /** A forest over nodes 1..m: leaves 1..n, then one node per merge; root entries of par are -1. */
  datatype Forest = Forest(w: seq<nat>, par: seq<int>, left: seq<nat>, right: seq<nat>, height: seq<nat>)

  ghost predicate Sized(f: Forest, m: nat) {
    |f.w| == |f.par| == |f.left| == |f.right| == |f.height| && m < |f.w|
  }

  /** Node x has no parent among nodes 1..k. */
  ghost predicate IsOpen(f: Forest, k: int, x: int) {
    1 <= x <= k && x < |f.par| && (f.par[x] == -1 || f.par[x] > k)
  }

  ghost function Open(f: Forest, k: int): (s: set<nat>)
    ensures forall x: nat :: x in s <==> IsOpen(f, k, x)
  {
    set x: nat | 1 <= x < |f.par| && IsOpen(f, k, x)
  }

  /** Node k joins two nodes that were open and no heavier than any other open node. */
  ghost predicate JoinOk(f: Forest, k: nat)
    requires Sized(f, k)
  {
    var a, b := f.left[k], f.right[k];
    && 1 <= a < k && 1 <= b < k && a != b && f.par[a] == k && f.par[b] == k
    && f.w[k] == f.w[a] + f.w[b]
    && f.height[k] == 1 + (if f.height[a] > f.height[b] then f.height[a] else f.height[b])
    && forall x :: IsOpen(f, k - 1, x) && x != a && x != b ==> f.w[a] <= f.w[x] && f.w[b] <= f.w[x]
  }

  ghost predicate ParentOk(f: Forest, n: nat, m: nat, x: nat)
    requires Sized(f, m) && x <= m
  {
    f.par[x] == -1 || (n < f.par[x] <= m && x < f.par[x] && (x == f.left[f.par[x]] || x == f.right[f.par[x]]))
  }

  ghost predicate Grown(f: Forest, n: nat, m: nat) {
    && 1 <= n <= m && Sized(f, m)
    && (forall x :: 1 <= x <= m ==> ParentOk(f, n, m, x))
    && (forall k :: n < k <= m ==> JoinOk(f, k))
    && (forall x :: 1 <= x <= n ==> f.w[x] >= 1 && f.height[x] == 0)
  }

  /** The forest after joining a and b under node m + 1. */
  ghost function Join(f: Forest, m: nat, a: nat, b: nat): (g: Forest)
    requires Sized(f, m + 1) && 1 <= a <= m && 1 <= b <= m
    ensures Sized(g, m + 1)
  {
    Forest(f.w[m + 1 := f.w[a] + f.w[b]], f.par[a := m + 1][b := m + 1][m + 1 := -1],
           f.left[m + 1 := a], f.right[m + 1 := b],
           f.height[m + 1 := 1 + (if f.height[a] > f.height[b] then f.height[a] else f.height[b])])
  }

  lemma JoinOpen(f: Forest, n: nat, m: nat, a: nat, b: nat)
    requires Grown(f, n, m) && Sized(f, m + 1) && a != b && IsOpen(f, m, a) && IsOpen(f, m, b)
    ensures forall k, x :: k < m + 1 ==> (IsOpen(Join(f, m, a, b), k, x) <==> IsOpen(f, k, x))
    ensures Open(Join(f, m, a, b), m + 1) == Open(f, m) - {a, b} + {m + 1}
  {
    var g := Join(f, m, a, b);
    assert f.par[a] == -1 && f.par[b] == -1 by { assert ParentOk(f, n, m, a) && ParentOk(f, n, m, b); }
    forall k, x | k < m + 1 ensures IsOpen(g, k, x) <==> IsOpen(f, k, x) {
    }
    var m' := m + 1;
    forall x: nat ensures x in Open(g, m') <==> x in Open(f, m) - {a, b} + {m'} {
      if 1 <= x <= m { assert ParentOk(f, n, m, x); }
    }
  }

  lemma JoinParents(f: Forest, n: nat, m: nat, a: nat, b: nat, x: nat)
    requires Grown(f, n, m) && Sized(f, m + 1) && a != b && IsOpen(f, m, a) && IsOpen(f, m, b) && 1 <= x <= m + 1
    ensures ParentOk(Join(f, m, a, b), n, m + 1, x)
  {
    if x <= m { assert ParentOk(f, n, m, x); }
  }

  lemma JoinKeeps(f: Forest, n: nat, m: nat, a: nat, b: nat, k: nat)
    requires Grown(f, n, m) && Sized(f, m + 1) && a != b && IsOpen(f, m, a) && IsOpen(f, m, b) && n < k <= m
    ensures JoinOk(Join(f, m, a, b), k)
  {
    JoinOpen(f, n, m, a, b);
    assert JoinOk(f, k);
    OpenChildren(f, n, m, k, a);
    OpenChildren(f, n, m, k, b);
  }

  lemma JoinNew(f: Forest, n: nat, m: nat, a: nat, b: nat)
    requires Grown(f, n, m) && Sized(f, m + 1) && a != b && IsOpen(f, m, a) && IsOpen(f, m, b)
    requires forall x :: IsOpen(f, m, x) && x != a && x != b ==> f.w[a] <= f.w[x] && f.w[b] <= f.w[x]
    ensures JoinOk(Join(f, m, a, b), m + 1)
  {
    JoinOpen(f, n, m, a, b);
  }

  lemma JoinGrows(f: Forest, n: nat, m: nat, a: nat, b: nat)
    requires Grown(f, n, m) && Sized(f, m + 1) && a != b && IsOpen(f, m, a) && IsOpen(f, m, b)
    requires forall x :: IsOpen(f, m, x) && x != a && x != b ==> f.w[a] <= f.w[x] && f.w[b] <= f.w[x]
    ensures Grown(Join(f, m, a, b), n, m + 1)
  {
    hide JoinOk, ParentOk;
    var g := Join(f, m, a, b);
    var m' := m + 1;
    forall x | 1 <= x <= m' ensures ParentOk(g, n, m', x) { JoinParents(f, n, m, a, b, x); }
    forall k | n < k <= m' ensures JoinOk(g, k) {
      if k <= m { JoinKeeps(f, n, m, a, b, k); } else { JoinNew(f, n, m, a, b); }
    }
  }

  /** An open node is nobody's child. */
  lemma OpenChildren(f: Forest, n: nat, m: nat, k: nat, a: nat)
    requires Grown(f, n, m) && n < k <= m && IsOpen(f, m, a)
    ensures a != f.left[k] && a != f.right[k]
  {
    assert JoinOk(f, k) && ParentOk(f, n, m, a);
  }

  /* ---- depths ---- */

  /** How many parent links lead from x to its root. */
  ghost function Depth(par: seq<int>, x: nat): (r: nat)
    decreases |par| - x
  {
    if x < |par| && x < par[x] < |par| then 1 + Depth(par, par[x]) else 0
  }

  ghost function Depths(par: seq<int>): (d: seq<nat>)
    ensures |d| == |par| && forall x :: 0 <= x < |d| ==> d[x] == Depth(par, x)
  {
    seq(|par|, x requires 0 <= x < |par| => Depth(par, x))
  }

  /** Before node k was made, its two children stood in its place. */
  lemma Undo(f: Forest, n: nat, m: nat, k: nat)
    requires Grown(f, n, m) && n < k <= m
    ensures Merged(Open(f, k - 1), Open(f, k), f.w, Depths(f.par), f.left[k], f.right[k], k)
    ensures Lightest(Open(f, k - 1), f.w, f.left[k], f.right[k])
  {
    assert JoinOk(f, k);
    var a, b := f.left[k], f.right[k];
    assert ParentOk(f, n, m, k);
    forall x: nat ensures x in Open(f, k) <==> x in Open(f, k - 1) - {a, b} + {k} {
      if 1 <= x <= m { assert ParentOk(f, n, m, x); }
    }
  }

  lemma RootOnly(f: Forest, m: nat)
    requires Sized(f, m) && Open(f, m) == {m} && f.par[m] == -1
    ensures Optimal(Open(f, m), f.w, Depths(f.par))
    ensures forall bound: nat :: SumOver(Open(f, m), Terms(Depths(f.par), bound)) == Pow2(bound)
  {
    var s, d := Open(f, m), Depths(f.par);
    assert m in s && d[m] == 0;
    SumRemove(s, Products(f.w, d), m);
    assert s - {m} == {};
    forall l: seq<nat>, bound: nat | |l| == |d| && Kraft(s, l, bound) ensures Cost(s, f.w, d) <= Cost(s, f.w, l) {
      SumRemove(s, Products(f.w, l), m);
    }
    forall bound: nat ensures SumOver(s, Terms(d, bound)) == Pow2(bound) { SumRemove(s, Terms(d, bound), m); }
  }

  ghost predicate DepthsFit(f: Forest, m: nat, bound: nat) {
    forall x :: 1 <= x <= m ==> Depth(f.par, x) <= bound
  }

  lemma ChildFits(f: Forest, n: nat, m: nat, k: nat, bound: nat)
    requires Grown(f, n, m) && n < k <= m && DepthsFit(f, m, bound)
    ensures |f.left| == |f.par| == |Depths(f.par)| && f.left[k] < |f.par| && Depths(f.par)[f.left[k]] <= bound
  {
    assert JoinOk(f, k);
    assert Depth(f.par, f.left[k]) <= bound;
  }

  lemma GrownSize(f: Forest, n: nat, m: nat)
    requires Grown(f, n, m)
    ensures Sized(f, m) && |f.w| == |f.par| == |f.left| == |f.right| && m < |f.w|
  {
  }

  /** The depths are optimal, and fill the code space exactly, at every stage of the merging. */
  lemma {:induction false} DepthsOptimal(f: Forest, n: nat, m: nat, k: nat, bound: nat)
    requires Grown(f, n, m) && n <= k <= m && Open(f, m) == {m} && f.par[m] == -1 && DepthsFit(f, m, bound)
    ensures Optimal(Open(f, k), f.w, Depths(f.par))
    ensures SumOver(Open(f, k), Terms(Depths(f.par), bound)) == Pow2(bound)
    decreases m - k
  {
    hide *;
    GrownSize(f, n, m);
    if k == m {
      RootOnly(f, m);
    } else {
      DepthsOptimal(f, n, m, k + 1, bound);
      Undo(f, n, m, k + 1);
      MergeOptimal(Open(f, k), Open(f, k + 1), f.w, Depths(f.par), f.left[k + 1], f.right[k + 1], k + 1);
      ChildFits(f, n, m, k + 1, bound);
      MergeSpace(Open(f, k), Open(f, k + 1), f.w, Depths(f.par), f.left[k + 1], f.right[k + 1], k + 1, bound);
    }
  }

  /* ---- heights ---- */

  lemma {:induction false} DepthPlusHeight(f: Forest, n: nat, m: nat, x: nat)
    requires Grown(f, n, m) && Open(f, m) == {m} && f.par[m] == -1 && 1 <= x <= m
    ensures Depth(f.par, x) + f.height[x] <= f.height[m]
    decreases m - x
  {
    assert ParentOk(f, n, m, x);
    if f.par[x] == -1 {
      assert x in Open(f, m);
    } else {
      var k := f.par[x];
      assert JoinOk(f, k);
      DepthPlusHeight(f, n, m, k);
    }
  }

  /** Least weight of a node of given height. */
  ghost function Fib(h: nat): (r: nat)
    ensures r >= 1
  {
    if h == 0 then 1 else if h == 1 then 2 else Fib(h - 1) + Fib(h - 2)
  }

  lemma {:induction false} FibGrows(g: nat, h: nat)
    requires g <= h
    ensures Fib(g) <= Fib(h)
    decreases h - g
  {
    if g < h { FibGrows(g, h - 1); }
  }

  /** No node open at or after the making of c is lighter than the children of c. */
  lemma {:induction false} Floor(f: Forest, n: nat, m: nat, c: nat, x: nat)
    requires Grown(f, n, m) && n < c <= m && 1 <= x <= m && (x >= c || f.par[x] > c || f.par[x] == -1)
    ensures 1 <= f.left[c] < c && 1 <= f.right[c] < c && f.w[f.left[c]] <= f.w[x] && f.w[f.right[c]] <= f.w[x]
    decreases x
  {
    assert JoinOk(f, c);
    if x < c {
      assert IsOpen(f, c - 1, x);
    } else if x > c {
      assert JoinOk(f, x);
      Floor(f, n, m, c, f.left[x]);
    }
  }

  /** Heights grow no faster than Fibonacci weights allow. */
  lemma {:induction false} HeightWeight(f: Forest, n: nat, m: nat, x: nat)
    requires Grown(f, n, m) && 1 <= x <= m
    ensures Fib(f.height[x]) <= f.w[x]
    decreases x, 1
  {
    if x > n {
      assert JoinOk(f, x);
      var a, b := f.left[x], f.right[x];
      HeightWeight(f, n, m, a);
      HeightWeight(f, n, m, b);
      if f.height[a] > f.height[b] { Taller(f, n, m, x, a, b); } else { Taller(f, n, m, x, b, a); }
    }
  }

  /** Of two joined nodes, c the taller: the other weighs at least what a node one step less tall does. */
  lemma {:induction false} Taller(f: Forest, n: nat, m: nat, x: nat, c: nat, o: nat)
    requires Grown(f, n, m) && n < x <= m && 1 <= c < x && 1 <= o < x && c != o && f.par[c] == x && f.par[o] == x
    requires Fib(f.height[c]) <= f.w[c] && 1 <= f.w[o]
    ensures Fib(f.height[c] + 1) <= f.w[c] + f.w[o]
    decreases x, 0
  {
    if c > n {
      assert JoinOk(f, c);
      Floor(f, n, m, c, o);
      var g := if f.height[f.left[c]] > f.height[f.right[c]] then f.left[c] else f.right[c];
      assert f.height[c] == f.height[g] + 1;
      HeightWeight(f, n, m, g);
    }
  }
}
