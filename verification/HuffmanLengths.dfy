/** Construction of length-limited code lengths for a table of symbol frequencies. */
module HuffmanLengths {
  import opened BzConstants
  import opened Arithmetic
  import opened MachineInts
  import opened SetSums
  import opened HuffmanTheory
  import opened HuffmanTree
  import opened HuffmanHeap

  /* ---- sums over sequences, as a caller states them ---- */

  ghost function Total(s: seq<int>): int {
    if s == [] then 0 else Total(s[..|s| - 1]) + s[|s| - 1]
  }

  ghost function Leaves(n: nat): (s: set<nat>)
    ensures forall x: nat :: x in s <==> 1 <= x <= n
  {
    if n == 0 then {} else Leaves(n - 1) + {n}
  }

  /** f continues s from index 1. */
  ghost predicate Extends(f: seq<int>, s: seq<int>) {
    |s| < |f| && forall i :: 0 <= i < |s| ==> f[i + 1] == s[i]
  }

  lemma {:induction false} LeafSum(f: seq<int>, s: seq<int>, n: nat)
    requires Extends(f, s) && n <= |s|
    ensures Within(Leaves(n), f) && SumOver(Leaves(n), f) == Total(s[..n])
  {
    if n > 0 {
      LeafSum(f, s, n - 1);
      SumAdd(Leaves(n - 1), f, n);
      assert s[..n][..n - 1] == s[..n - 1];
      assert f[(n - 1) + 1] == s[n - 1];
    }
  }

  /** The lengths can be those of a binary prefix code. */
  ghost predicate Workable(len: seq<nat>, bound: nat) {
    (forall i :: 0 <= i < |len| ==> len[i] <= bound) && Total(Terms(len, bound)) <= Pow2(bound)
  }

  /** No workable lengths give these weights a smaller weighted total. */
  ghost predicate OptimalFor(ws: seq<nat>, len: seq<nat>) {
    && |ws| == |len|
    && forall l: seq<nat>, bound: nat :: |l| == |len| && Workable(l, bound) ==>
         Total(Products(ws, len)) <= Total(Products(ws, l))
  }

  lemma LeafTotal(f: seq<int>, s: seq<int>)
    requires Extends(f, s)
    ensures Within(Leaves(|s|), f) && SumOver(Leaves(|s|), f) == Total(s)
  {
    LeafSum(f, s, |s|);
    assert s[..|s|] == s;
  }

  lemma ExtendsTerms(p: seq<nat>, l: seq<nat>, bound: nat)
    requires Extends(p, l)
    ensures Extends(Terms(p, bound), Terms(l, bound))
  {
  }

  lemma ExtendsProducts(w: seq<nat>, ws: seq<nat>, p: seq<nat>, l: seq<nat>)
    requires |w| == |p| && |ws| == |l| && Extends(w, ws) && Extends(p, l)
    ensures Extends(Products(w, p), Products(ws, l))
  {
  }

  ghost function Padded(l: seq<nat>, n: nat): (r: seq<nat>)
    requires |l| < n
    ensures |r| == n && Extends(r, l)
  {
    [0] + l + seq(n - |l| - 1, i => 0)
  }

  lemma PaddedBounded(l: seq<nat>, bound: nat, n: nat)
    requires Workable(l, bound) && |l| < n
    ensures Bounded(Leaves(|l|), Padded(l, n), bound)
  {
    var p := Padded(l, n);
    forall x | x in Leaves(|l|) ensures x < |p| && p[x] <= bound {
      assert p[(x - 1) + 1] == l[x - 1];
    }
  }

  lemma WorkableFits(l: seq<nat>, bound: nat)
    requires Workable(l, bound)
    ensures Total(Terms(l, bound)) <= Pow2(bound)
  {
  }

  lemma WorkableKraft(l: seq<nat>, bound: nat, n: nat)
    requires Workable(l, bound) && |l| < n
    ensures Kraft(Leaves(|l|), Padded(l, n), bound)
  {
    hide *;
    var p := Padded(l, n);
    PaddedBounded(l, bound, n);
    ExtendsTerms(p, l, bound);
    LeafTotal(Terms(p, bound), Terms(l, bound));
    LeafTotal(p, l);
    WorkableFits(l, bound);
    KraftParts(Leaves(|l|), p, bound);
  }

  lemma OptimalAt(s: set<nat>, w: seq<nat>, d: seq<nat>, l: seq<nat>, bound: nat)
    requires Optimal(s, w, d) && |l| == |d| && Kraft(s, l, bound)
    ensures |w| == |d| && Within(s, d) && Within(s, l) && Cost(s, w, d) <= Cost(s, w, l)
  {
  }

  lemma CostIs(s: set<nat>, w: seq<nat>, l: seq<nat>)
    requires |w| == |l| && Within(s, l)
    ensures Within(s, Products(w, l)) && Cost(s, w, l) == SumOver(s, Products(w, l))
  {
  }

  lemma BeatsSequence(w: seq<nat>, d: seq<nat>, ws: seq<nat>, len: seq<nat>, l: seq<nat>, bound: nat)
    requires |ws| == |len| == |l| < |w| == |d| && Extends(w, ws) && Extends(d, len)
    requires Optimal(Leaves(|ws|), w, d) && Workable(l, bound)
    ensures Total(Products(ws, len)) <= Total(Products(ws, l))
  {
    hide *;
    var s, p := Leaves(|ws|), Padded(l, |d|);
    WorkableKraft(l, bound, |d|);
    OptimalAt(s, w, d, p, bound);
    ExtendsProducts(w, ws, p, l);
    ExtendsProducts(w, ws, d, len);
    LeafTotal(Products(w, p), Products(ws, l));
    LeafTotal(Products(w, d), Products(ws, len));
    CostIs(s, w, p);
    CostIs(s, w, d);
  }

  /** What a finished tree says about the lengths read off it. */
  lemma LengthsOptimal(w: seq<nat>, d: seq<nat>, ws: seq<nat>, len: seq<nat>)
    requires |ws| == |len| < |w| == |d| && Extends(w, ws) && Extends(d, len)
    requires Optimal(Leaves(|ws|), w, d)
    ensures OptimalFor(ws, len)
  {
    forall l: seq<nat>, bound: nat | |l| == |len| && Workable(l, bound)
      ensures Total(Products(ws, len)) <= Total(Products(ws, l))
    {
      BeatsSequence(w, d, ws, len, l, bound);
    }
  }

  lemma LengthsFill(d: seq<nat>, len: seq<nat>, bound: nat)
    requires Extends(d, len) && Within(Leaves(|len|), Terms(d, bound))
    requires SumOver(Leaves(|len|), Terms(d, bound)) == Pow2(bound)
    ensures Total(Terms(len, bound)) == Pow2(bound)
  {
    hide *;
    ExtendsTerms(d, len, bound);
    LeafTotal(Terms(d, bound), Terms(len, bound));
  }

  /* ---- packed weights: the weight in the upper 24 bits, the height in the low 8 ---- */

  function WeightOf(z: nat): nat { z - z % 256 }

  function DepthOf(z: nat): nat { z % 256 }

  /** Bitwise or with a number that fits in the low byte, which is clear. */
  function OrLow(z: nat, d: nat): (r: nat)
    requires z % 256 == 0 && d < 256
    ensures r / 256 == z / 256 && r % 256 == d
  {
    z + d
  }

  function Max(a: nat, b: nat): nat { if a > b then a else b }

  function AddWeights(a: nat, b: nat): (r: nat)
    requires a % 256 < 255 && b % 256 < 255
    ensures r == 256 * (a / 256 + b / 256) + 1 + Max(a % 256, b % 256)
  {
    OrLow(WeightOf(a) + WeightOf(b), 1 + Max(DepthOf(a), DepthOf(b)))
  }

  ghost predicate Packed(v: seq<nat>, par: seq<int>, f: Forest, m: nat) {
    && |v| == |par| && Sized(f, m) && |v| == |f.w| && v[0] == 0
    && forall x :: 1 <= x <= m ==> v[x] == 256 * f.w[x] + f.height[x] && f.height[x] < 256 && par[x] == f.par[x]
  }

  /** The forest that tree building starts from: each leaf a tree of its own. */
  ghost function Bare(ws: seq<nat>, size: nat): (f: Forest)
    requires |ws| < size
  {
    Forest(Padded(ws, size), seq(size, i => -1), seq(size, i => 0), seq(size, i => 0), seq(size, i => 0))
  }

  ghost predicate Positive(ws: seq<nat>) {
    forall i :: 0 <= i < |ws| ==> ws[i] >= 1
  }

  lemma BareGrown(ws: seq<nat>, size: nat)
    requires 1 <= |ws| < size && Positive(ws)
    ensures Grown(Bare(ws, size), |ws|, |ws|)
    ensures Open(Bare(ws, size), |ws|) == Leaves(|ws|)
    ensures SumOver(Leaves(|ws|), Bare(ws, size).w) == Total(ws)
  {
    var f := Bare(ws, size);
    LeafTotal(f.w, ws);
    forall x | 1 <= x <= |ws| ensures f.w[x] >= 1 {
      assert f.w[(x - 1) + 1] == ws[x - 1];
    }
    forall x: nat ensures x in Open(f, |ws|) <==> x in Leaves(|ws|) {
    }
  }

  lemma FibTable()
    ensures Fib(12) == 377 && Fib(13) == 610 && Fib(33) == 9227465
  {
    assert Fib(8) == 55 && Fib(9) == 89;
    assert Fib(12) == 377 && Fib(13) == 610;
    assert Fib(20) == 17711 && Fib(21) == 28657;
    assert Fib(26) == 317811 && Fib(27) == 514229;
    assert Fib(32) == 5702887 && Fib(33) == 9227465;
  }

  /** With a total below 2^23 no open node is taller than 32. */
  lemma HeightBound(f: Forest, n: nat, m: nat, x: nat)
    requires Grown(f, n, m) && x in Open(f, m) && Within(Open(f, m), f.w) && SumOver(Open(f, m), f.w) < 0x80_0000
    ensures f.height[x] <= 32
  {
    SumAtLeast(Open(f, m), f.w, x);
    HeightWeight(f, n, m, x);
    if f.height[x] > 32 {
      FibGrows(33, f.height[x]);
      FibTable();
    }
  }

  /** Lightest by packed weight means lightest by weight: the height only breaks ties. */
  ghost predicate PackedLightest(s: set<nat>, v: seq<nat>, a: nat, b: nat) {
    && a in s && b in s && a != b && Within(s, v)
    && (forall x :: x in s ==> v[a] <= v[x])
    && (forall x :: x in s && x != a ==> v[b] <= v[x])
  }

  lemma PackedOrder(f: Forest, m: nat, v: seq<nat>, par: seq<int>, a: nat, b: nat)
    requires Packed(v, par, f, m) && PackedLightest(Open(f, m), v, a, b)
    ensures forall x :: IsOpen(f, m, x) && x != a && x != b ==> f.w[a] <= f.w[x] && f.w[b] <= f.w[x]
  {
    forall x | IsOpen(f, m, x) && x != a && x != b ensures f.w[a] <= f.w[x] && f.w[b] <= f.w[x] {
      assert x in Open(f, m);
    }
  }

  lemma PackedStep(f: Forest, m: nat, v: seq<nat>, par: seq<int>, a: nat, b: nat)
    requires Packed(v, par, f, m) && Sized(f, m + 1) && 1 <= a <= m && 1 <= b <= m
    requires f.height[a] <= 32 && f.height[b] <= 32
    ensures v[a] % 256 < 255 && v[b] % 256 < 255
    ensures Packed(v[m + 1 := AddWeights(v[a], v[b])], par[a := m + 1][b := m + 1][m + 1 := -1], Join(f, m, a, b),
                   m + 1)
  {
    assert v[a] % 256 == f.height[a] && v[a] / 256 == f.w[a];
    assert v[b] % 256 == f.height[b] && v[b] / 256 == f.w[b];
  }

  lemma OpenRange(f: Forest, m: nat, x: nat)
    requires x in Open(f, m)
    ensures 1 <= x <= m && IsOpen(f, m, x)
  {
  }

  /** The state in which tree building can merge once more. */
  ghost predicate Ready(f: Forest, n: nat, m: nat, v: seq<nat>, par: seq<int>, total: int) {
    && Grown(f, n, m) && Packed(v, par, f, m)
    && Within(Open(f, m), f.w) && SumOver(Open(f, m), f.w) == total
  }

  lemma ReadyParts(f: Forest, n: nat, m: nat, v: seq<nat>, par: seq<int>, total: int)
    ensures Ready(f, n, m, v, par, total) <==>
      Grown(f, n, m) && Packed(v, par, f, m) && Within(Open(f, m), f.w) && SumOver(Open(f, m), f.w) == total
    ensures Ready(f, n, m, v, par, total) ==> Sized(f, m) && |v| == |par| == |f.w| && m < |v| && v[0] == 0
  {
  }

  lemma SizedNext(f: Forest, m: nat)
    requires Sized(f, m) && m + 1 < |f.w|
    ensures Sized(f, m + 1)
  {
  }

  lemma PackedLightestParts(s: set<nat>, v: seq<nat>, a: nat, b: nat)
    ensures PackedLightest(s, v, a, b) ==> a in s && b in s && a != b
  {
  }

  /** One merge, on the forest and on the packed weights. */
  lemma MergeStep(f: Forest, n: nat, m: nat, v: seq<nat>, par: seq<int>, total: int, a: nat, b: nat)
    requires Ready(f, n, m, v, par, total) && total < 0x80_0000 && m + 1 < |v| == |par|
    requires PackedLightest(Open(f, m), v, a, b)
    ensures 1 <= a <= m && 1 <= b <= m && Sized(f, m + 1) && v[a] % 256 < 255 && v[b] % 256 < 255
    ensures Ready(Join(f, m, a, b), n, m + 1, v[m + 1 := AddWeights(v[a], v[b])],
                  par[a := m + 1][b := m + 1][m + 1 := -1], total)
    ensures Open(Join(f, m, a, b), m + 1) == Open(f, m) - {a, b} + {m + 1} && m + 1 !in Open(f, m)
  {
    hide *;
    ReadyParts(f, n, m, v, par, total);
    SizedNext(f, m);
    PackedLightestParts(Open(f, m), v, a, b);
    OpenRange(f, m, a);
    OpenRange(f, m, b);
    if m + 1 in Open(f, m) { OpenRange(f, m, m + 1); }
    HeightBound(f, n, m, a);
    HeightBound(f, n, m, b);
    PackedOrder(f, m, v, par, a, b);
    PackedStep(f, m, v, par, a, b);
    JoinGrows(f, n, m, a, b);
    JoinOpen(f, n, m, a, b);
    MergeTotal(f, n, m, a, b);
    var g := Join(f, m, a, b);
    ReadyParts(g, n, m + 1, v[m + 1 := AddWeights(v[a], v[b])], par[a := m + 1][b := m + 1][m + 1 := -1], total);
  }

  lemma MergeTotal(f: Forest, n: nat, m: nat, a: nat, b: nat)
    requires Grown(f, n, m) && Sized(f, m + 1) && a != b && a in Open(f, m) && b in Open(f, m)
    requires Within(Open(f, m), f.w)
    ensures var g := Join(f, m, a, b);
      var s' := Open(f, m) - {a, b} + {m + 1};
      Within(s', g.w) && SumOver(s', g.w) == SumOver(Open(f, m), f.w)
  {
    var g := Join(f, m, a, b);
    var s := Open(f, m);
    SumSame(s, f.w, g.w);
    MergeSum(s, s - {a, b} + {m + 1}, g.w, a, b, m + 1);
  }

  lemma HeapOtherWeight(h: seq<nat>, v: seq<nat>, n: nat, s: set<nat>, x: nat, w: nat)
    requires HeapOf(h, v, n, s) && x < |v| && x !in s && x > 0
    ensures HeapOf(h, v[x := w], n, s)
  {
    var v' := v[x := w];
    forall k | 0 <= k <= n ensures WeightAt(h, v', k) == WeightAt(h, v, k) {
    }
    forall k | 2 <= k <= n ensures WeightAt(h, v', k / 2) <= WeightAt(h, v', k) {
      assert WeightAt(h, v, k / 2) <= WeightAt(h, v, k);
    }
  }

  lemma HeapNone(h: seq<nat>, v: seq<nat>)
    requires |h| > 0 && |v| > 0 && h[0] == 0 && v[0] == 0
    ensures HeapOf(h, v, 0, {})
  {
  }

  /* ---- the tables the method works on ---- */

  /** The leaves carry the weights ws, shifted into the upper bits. */
  ghost predicate LeafWeights(v: seq<nat>, ws: seq<nat>) {
    && |ws| < |v| && forall i :: 0 <= i < |ws| ==> v[i + 1] == 256 * ws[i]
  }

  lemma BareReady(v: seq<nat>, par: seq<int>, ws: seq<nat>, n: nat)
    requires n == |ws| && 1 <= n < |v| == |par| && Positive(ws) && LeafWeights(v, ws) && v[0] == 0
    requires forall x :: 1 <= x <= n ==> par[x] == -1
    ensures Ready(Bare(ws, |v|), n, n, v, par, Total(ws)) && Open(Bare(ws, |v|), n) == Leaves(n)
  {
    BareGrown(ws, |v|);
    var f := Bare(ws, |v|);
    forall x | 1 <= x <= n ensures v[x] == 256 * f.w[x] + f.height[x] {
      assert v[(x - 1) + 1] == 256 * ws[x - 1] && f.w[(x - 1) + 1] == ws[x - 1];
    }
  }

  lemma LeavesNext(i: nat)
    ensures Leaves(i + 1) == Leaves(i) + {i + 1} && i + 1 !in Leaves(i)
  {
  }

  lemma HeapEmpty(h: seq<nat>, v: seq<nat>)
    requires |h| > 0 && |v| > 0 && h[0] == 0 && v[0] == 0
    ensures HeapOf(h, v, 0, Leaves(0))
  {
    HeapNone(h, v);
  }

  /** Puts every leaf on the heap. */
  method StartHeap(heap: array<nat>, weight: array<nat>, parent: array<int>, n: nat)
    requires heap != weight && 1 <= n <= MAX_ALPHA_SIZE && heap.Length == MAX_ALPHA_SIZE + 2
    requires weight.Length == parent.Length == 2 * MAX_ALPHA_SIZE
    modifies heap, weight, parent
    ensures HeapOf(heap[..], weight[..], n, Leaves(n)) && weight[..] == old(weight[..])[0 := 0]
    ensures forall x :: 1 <= x <= n ==> parent[x] == -1
  {
    hide *;
    MaxAlpha();
    heap[0] := 0;
    weight[0] := 0;
    parent[0] := -2;
    ghost var v := weight[..];
    HeapEmpty(heap[..], weight[..]);
    for i := 0 to n
      invariant weight[..] == v && HeapOf(heap[..], weight[..], i, Leaves(i))
      invariant forall x :: 1 <= x <= i ==> parent[x] == -1
    {
      parent[i + 1] := -1;
      LeavesNext(i);
      assert weight[..] == v;
      Push(heap, weight, i, i + 1, Leaves(i));
    }
  }

  lemma PoppedPair(s: set<nat>, v: seq<nat>, a: nat, b: nat)
    requires a in s && b in s - {a}
    requires forall x :: x in s ==> 0 < x < |v|
    requires forall x :: x in s ==> v[a] <= v[x]
    requires forall x :: x in s - {a} ==> v[b] <= v[x]
    ensures PackedLightest(s, v, a, b)
  {
  }

  /** Merges the two lightest nodes under the next node number. */
  method MergeTwo(heap: array<nat>, weight: array<nat>, parent: array<int>, n: nat, nNodes: nat, nHeap: nat,
                  ghost f: Forest, ghost total: int)
    returns (ghost g: Forest)
    requires heap != weight && heap.Length == MAX_ALPHA_SIZE + 2 && weight.Length == parent.Length
    requires nNodes + 1 < weight.Length
    requires 2 <= nHeap <= MAX_ALPHA_SIZE && total < 0x80_0000
    requires Ready(f, n, nNodes, weight[..], parent[..], total)
    requires HeapOf(heap[..], weight[..], nHeap, Open(f, nNodes))
    modifies heap, weight, parent
    ensures Ready(g, n, nNodes + 1, weight[..], parent[..], total)
    ensures HeapOf(heap[..], weight[..], nHeap - 1, Open(g, nNodes + 1))
    ensures forall x :: 0 <= x <= n && x <= nNodes ==> weight[x] == old(weight[x])
    ensures |g.w| == |f.w| && forall x :: 0 <= x <= n && x <= nNodes && x < |f.w| ==> g.w[x] == f.w[x]
  {
    hide *;
    MaxAlpha();
    ghost var s, v, par := Open(f, nNodes), weight[..], parent[..];
    var n1 := Pop(heap, weight, nHeap, s);
    assert weight[..] == v;
    var n2 := Pop(heap, weight, nHeap - 1, s - {n1});
    assert weight[..] == v && parent[..] == par;
    PoppedPair(s, v, n1, n2);
    MergeStep(f, n, nNodes, v, par, total, n1, n2);
    g := Join(f, nNodes, n1, n2);
    JoinKeeps(f, nNodes, n1, n2);
    ghost var rest := s - {n1} - {n2};
    assert rest == s - {n1, n2};
    ReadyParts(f, n, nNodes, v, par, total);
    var m := nNodes + 1;
    parent[n1], parent[n2] := m, m;
    weight[m] := AddWeights(weight[n1], weight[n2]);
    parent[m] := -1;
    ghost var v' := v[m := AddWeights(v[n1], v[n2])];
    assert weight[..] == v' && parent[..] == par[n1 := m][n2 := m][m := -1];
    HeapOtherWeight(heap[..], v, nHeap - 2, rest, m, AddWeights(v[n1], v[n2]));
    Push(heap, weight, nHeap - 2, m, rest);
    assert weight[..] == v' && parent[..] == par[n1 := m][n2 := m][m := -1];
  }

  lemma JoinKeeps(f: Forest, m: nat, a: nat, b: nat)
    requires Sized(f, m + 1) && 1 <= a <= m && 1 <= b <= m
    ensures |Join(f, m, a, b).w| == |f.w| && forall x :: 0 <= x <= m ==> Join(f, m, a, b).w[x] == f.w[x]
  {
  }

  /* ---- one pass: build the tree and read off the depths ---- */

  /** A single tree with root m has been built over the leaves ws. */
  ghost predicate Finished(f: Forest, ws: seq<nat>, m: nat) {
    && Grown(f, |ws|, m) && Extends(f.w, ws) && m < |f.par| && Open(f, m) == {m} && f.par[m] == -1
    && Within(Open(f, m), f.w) && SumOver(Open(f, m), f.w) == Total(ws)
  }

  lemma OneLeft(h: seq<nat>, v: seq<nat>, s: set<nat>, m: nat)
    requires HeapOf(h, v, 1, s) && m in s
    ensures s == {m}
  {
    forall x | x in s ensures x == m {
      var i :| 1 <= i <= 1 && h[i] == x;
      var j :| 1 <= j <= 1 && h[j] == m;
    }
  }

  lemma RootOpen(f: Forest, n: nat, m: nat)
    requires Grown(f, n, m)
    ensures m in Open(f, m) && f.par[m] == -1
  {
    assert ParentOk(f, n, m, m);
  }

  lemma FinishedAt(h: seq<nat>, v: seq<nat>, f: Forest, par: seq<int>, ws: seq<nat>, m: nat)
    requires Ready(f, |ws|, m, v, par, Total(ws)) && HeapOf(h, v, 1, Open(f, m)) && Extends(f.w, ws)
    ensures Finished(f, ws, m)
  {
    RootOpen(f, |ws|, m);
    OneLeft(h, v, Open(f, m), m);
  }

  lemma BareExtends(ws: seq<nat>, size: nat)
    requires |ws| < size
    ensures |Bare(ws, size).w| == size && Extends(Bare(ws, size).w, ws)
  {
  }

  lemma ExtendsKept(f: seq<nat>, g: seq<nat>, s: seq<nat>)
    requires Extends(f, s) && |g| == |f| && forall x :: 0 <= x <= |s| ==> g[x] == f[x]
    ensures Extends(g, s)
  {
  }

  lemma LeafWeightsKept(v: seq<nat>, v': seq<nat>, ws: seq<nat>)
    requires LeafWeights(v, ws) && |v'| == |v| && forall x :: 1 <= x <= |ws| ==> v'[x] == v[x]
    ensures LeafWeights(v', ws)
  {
  }

  ghost predicate Limits(ws: seq<nat>) {
    2 <= |ws| <= MAX_ALPHA_SIZE && Positive(ws) && Total(ws) < 0x80_0000
  }

  lemma LimitParts(ws: seq<nat>)
    ensures Limits(ws) <==> 2 <= |ws| <= MAX_ALPHA_SIZE && Positive(ws) && Total(ws) < 0x80_0000
  {
  }

  /** Builds the tree for the leaf weights ws; afterwards parent leads from every node to the root. */
  method BuildTree(heap: array<nat>, weight: array<nat>, parent: array<int>, n: nat, ghost ws: seq<nat>)
    returns (nNodes: nat, ghost f: Forest)
    requires heap != weight && heap.Length == MAX_ALPHA_SIZE + 2 && weight.Length == parent.Length == 2 * MAX_ALPHA_SIZE
    requires n == |ws| && Limits(ws) && LeafWeights(weight[..], ws)
    modifies heap, weight, parent
    ensures Finished(f, ws, nNodes) && Packed(weight[..], parent[..], f, nNodes)
    ensures nNodes == 2 * n - 1 && LeafWeights(weight[..], ws)
  {
    hide *;
    MaxAlpha();
    LimitParts(ws);
    ghost var v := weight[..];
    StartHeap(heap, weight, parent, n);
    LeafWeightsKept(v, weight[..], ws);
    BareReady(weight[..], parent[..], ws, n);
    BareExtends(ws, |v|);
    nNodes, f := n, Bare(ws, |v|);
    var nHeap := n;
    while nHeap > 1
      invariant 1 <= nHeap <= n && nNodes + nHeap == 2 * n
      invariant Ready(f, n, nNodes, weight[..], parent[..], Total(ws))
      invariant HeapOf(heap[..], weight[..], nHeap, Open(f, nNodes))
      invariant |f.w| == |v| && Extends(f.w, ws) && LeafWeights(weight[..], ws)
    {
      ghost var w, g := weight[..], f;
      f := MergeTwo(heap, weight, parent, n, nNodes, nHeap, f, Total(ws));
      ExtendsKept(g.w, f.w, ws);
      LeafWeightsKept(w, weight[..], ws);
      nNodes, nHeap := nNodes + 1, nHeap - 1;
    }
    FinishedAt(heap[..], weight[..], f, parent[..], ws, nNodes);
    ReadyParts(f, n, nNodes, weight[..], parent[..], Total(ws));
  }

  /** One parent link further up. */
  lemma DepthStep(f: Forest, n: nat, m: nat, x: nat)
    requires Grown(f, n, m) && 1 <= x <= m
    ensures f.par[x] >= 0 ==> x < f.par[x] <= m && Depth(f.par, x) == 1 + Depth(f.par, f.par[x])
    ensures f.par[x] < 0 ==> Depth(f.par, x) == 0
  {
    assert ParentOk(f, n, m, x);
  }

  lemma PackedParent(v: seq<nat>, par: seq<int>, f: Forest, m: nat, x: nat)
    requires Packed(v, par, f, m) && 1 <= x <= m
    ensures x < |par| && m < |f.par| && par[x] == f.par[x]
  {
  }

  lemma FinishedParts(f: Forest, ws: seq<nat>, m: nat)
    requires Finished(f, ws, m)
    ensures Grown(f, |ws|, m) && m < |f.par| && |ws| <= m
  {
  }

  /** The depth of one leaf, found by following parent links. */
  method LeafDepth(parent: array<int>, i: nat, m: nat, ghost f: Forest, ghost n: nat, ghost v: seq<nat>)
    returns (j: nat)
    requires 1 <= i <= m && Grown(f, n, m) && Packed(v, parent[..], f, m)
    ensures j == Depth(f.par, i)
  {
    hide *;
    j := 0;
    var k := i;
    PackedParent(v, parent[..], f, m, k);
    DepthStep(f, n, m, k);
    while parent[k] >= 0
      invariant 1 <= k <= m && k < parent.Length && m < |f.par| && parent[k] == f.par[k]
      invariant j + Depth(f.par, k) == Depth(f.par, i)
      invariant f.par[k] >= 0 ==> k < f.par[k] <= m && Depth(f.par, k) == 1 + Depth(f.par, f.par[k])
      invariant f.par[k] < 0 ==> Depth(f.par, k) == 0
      decreases m - k
    {
      k := parent[k];
      j := j + 1;
      PackedParent(v, parent[..], f, m, k);
      DepthStep(f, n, m, k);
    }
  }

  /** The root is no taller than its weight allows, so every depth fits a byte. */
  lemma DepthBound(f: Forest, ws: seq<nat>, m: nat, x: nat)
    requires Finished(f, ws, m) && 1 <= x <= m && Limits(ws)
    ensures Depth(f.par, x) <= 32
  {
    DepthPlusHeight(f, |ws|, m, x);
    HeightBound(f, |ws|, m, m);
  }

  /** A leaf deeper than 12 takes some weight of at least three. */
  lemma DeepNeedsWeight(f: Forest, ws: seq<nat>, m: nat, x: nat)
    requires Finished(f, ws, m) && 1 <= x <= m && Limits(ws) && (forall i :: 0 <= i < |ws| ==> ws[i] <= 2)
    ensures Depth(f.par, x) <= 12
  {
    DepthPlusHeight(f, |ws|, m, x);
    HeightWeight(f, |ws|, m, m);
    SumAtLeast(Open(f, m), f.w, m);
    SmallTotal(ws, |ws|);
    assert ws[..|ws|] == ws;
    if f.height[m] > 12 {
      FibGrows(13, f.height[m]);
      FibTable();
    }
  }

  lemma {:induction false} SmallTotal(ws: seq<nat>, k: nat)
    requires k <= |ws| && forall i :: 0 <= i < |ws| ==> ws[i] <= 2
    ensures Total(ws[..k]) <= 2 * k
  {
    if k > 0 {
      SmallTotal(ws, k - 1);
      assert ws[..k][..k - 1] == ws[..k - 1];
    }
  }

  ghost predicate AreDepths(len: seq<nat>, f: Forest, k: nat) {
    k <= |len| && forall i :: 0 <= i < k ==> len[i] == Depth(f.par, i + 1)
  }

  /** One of the first n lengths exceeds the limit. */
  ghost predicate AnyOver(len: seq<nat>, n: nat, maxLen: nat) {
    n <= |len| && exists k :: 0 <= k < n && len[k] > maxLen
  }

  lemma OverNext(len: seq<nat>, i: nat, j: nat, maxLen: nat)
    requires i < |len|
    ensures AnyOver(len[i := j], i + 1, maxLen) <==> AnyOver(len, i, maxLen) || j > maxLen
  {
    var len' := len[i := j];
    if AnyOver(len, i, maxLen) {
      var k :| 0 <= k < i && len[k] > maxLen;
      assert len'[k] > maxLen;
    }
    if j > maxLen { assert len'[i] > maxLen; }
    if AnyOver(len', i + 1, maxLen) {
      var k :| 0 <= k < i + 1 && len'[k] > maxLen;
      if k < i { assert len[k] > maxLen; }
    }
  }

  lemma OverNone(len: seq<nat>, maxLen: nat)
    ensures !AnyOver(len, 0, maxLen)
  {
  }

  lemma OverIs(len: seq<nat>, n: nat, maxLen: nat)
    requires n <= |len|
    ensures AnyOver(len, n, maxLen) <==> exists k :: 0 <= k < n && len[k] > maxLen
  {
  }

  /** Reads off all depths; reports whether one exceeds the limit. */
  method ReadDepths(len: array<Byte>, parent: array<int>, n: nat, maxLen: nat, m: nat, ghost f: Forest,
                    ghost v: seq<nat>, ghost ws: seq<nat>)
    returns (tooLong: bool)
    requires n == |ws| <= len.Length && Finished(f, ws, m) && Limits(ws) && Packed(v, parent[..], f, m)
    modifies len
    ensures AreDepths(len[..], f, n)
    ensures tooLong <==> exists i :: 0 <= i < n && len[i] > maxLen
  {
    hide *;
    FinishedParts(f, ws, m);
    tooLong := false;
    OverNone(len[..], maxLen);
    ghost var par := parent[..];
    for i := 0 to n
      invariant parent[..] == par
      invariant forall k :: 0 <= k < i ==> len[k] == Depth(f.par, k + 1)
      invariant tooLong <==> AnyOver(len[..], i, maxLen)
    {
      ghost var before: seq<nat> := len[..];
      var j := LeafDepth(parent, i + 1, m, f, n, v);
      DepthBound(f, ws, m, i + 1);
      OverNext(before, i, j, maxLen);
      len[i] := j;
      assert len[..] == before[i := j];
      if j > maxLen { tooLong := true; }
    }
    OverIs(len[..], n, maxLen);
    assert forall k :: 0 <= k < n ==> len[..][k] == len[k];
    AreDepthsIs(len[..], f, n);
  }

  lemma AreDepthsIs(len: seq<nat>, f: Forest, k: nat)
    requires k <= |len| && forall i :: 0 <= i < k ==> len[i] == Depth(f.par, i + 1)
    ensures AreDepths(len, f, k)
  {
  }

  lemma TreeFits(f: Forest, ws: seq<nat>, m: nat, bound: nat)
    requires Finished(f, ws, m) && Limits(ws) && bound >= 32
    ensures DepthsFit(f, m, bound)
  {
    forall x | 1 <= x <= m ensures Depth(f.par, x) <= bound { DepthBound(f, ws, m, x); }
  }

  lemma DepthsExtend(f: Forest, len: seq<nat>)
    requires AreDepths(len, f, |len|) && |len| < |f.par|
    ensures Extends(Depths(f.par), len)
  {
  }

  lemma FinishedOpen(f: Forest, ws: seq<nat>, m: nat)
    requires Finished(f, ws, m)
    ensures Open(f, m) == {m} && f.par[m] == -1 && Sized(f, m) && |f.w| == |f.par| && Extends(f.w, ws)
  {
  }

  /** The depths of a finished tree make the best lengths there are, and leave no code space unused. */
  lemma TreeIsBest(f: Forest, ws: seq<nat>, m: nat, len: seq<nat>, bound: nat)
    requires Finished(f, ws, m) && Limits(ws) && |len| == |ws| && AreDepths(len, f, |ws|) && bound >= 32
    ensures OptimalFor(ws, len) && Total(Terms(len, bound)) == Pow2(bound)
  {
    hide *;
    FinishedParts(f, ws, m);
    FinishedOpen(f, ws, m);
    DepthsExtend(f, len);
    OpenLeaves(f, |ws|, m);
    TreeFits(f, ws, m, bound);
    DepthsOptimal(f, |ws|, m, |ws|, bound);
    LengthsOptimal(f.w, Depths(f.par), ws, len);
    LeafTotal(Depths(f.par), len);
    WithinSame(Leaves(|ws|), Depths(f.par), Terms(Depths(f.par), bound));
    LengthsFill(Depths(f.par), len, bound);
  }

  lemma AllPositive(f: Forest, ws: seq<nat>, m: nat, len: seq<nat>)
    requires Finished(f, ws, m) && 2 <= |ws| && |len| == |ws| && AreDepths(len, f, |ws|)
    ensures forall i :: 0 <= i < |len| ==> 1 <= len[i]
  {
    forall i | 0 <= i < |len| ensures 1 <= len[i] { LeafNotRoot(f, ws, m, i + 1); }
  }

  lemma {:induction false} ScaleTotal(len: seq<nat>, bound: nat, more: nat, k: nat)
    requires bound <= more && k <= |len| && forall i :: 0 <= i < |len| ==> len[i] <= bound
    ensures Total(Terms(len, more)[..k]) == Total(Terms(len, bound)[..k]) * Pow2(more - bound)
  {
    if k > 0 {
      ScaleTotal(len, bound, more, k - 1);
      var a, b := Terms(len, more), Terms(len, bound);
      assert a[..k][..k - 1] == a[..k - 1] && b[..k][..k - 1] == b[..k - 1];
      Pow2Add(bound - len[k - 1], more - bound);
      SpreadProduct(Total(b[..k - 1]), b[k - 1], Pow2(more - bound));
    }
  }

  lemma SpreadProduct(a: int, b: int, p: int)
    ensures (a + b) * p == a * p + b * p
  {
  }

  /** Lengths that fill the space at a generous bound fill it at any bound they respect. */
  lemma FillsAt(len: seq<nat>, bound: nat, more: nat)
    requires bound <= more && Total(Terms(len, more)) == Pow2(more)
    requires forall i :: 0 <= i < |len| ==> len[i] <= bound
    ensures Total(Terms(len, bound)) == Pow2(bound)
  {
    hide *;
    var a, b := Terms(len, more), Terms(len, bound);
    ScaleTotal(len, bound, more, |len|);
    assert a[..|len|] == a && b[..|len|] == b;
    Pow2Add(bound, more - bound);
    var p := Pow2(more - bound);
    Cancel(Total(b), Pow2(bound), p);
    Cancel(Pow2(bound), Total(b), p);
  }

  lemma OpenLeaves(f: Forest, n: nat, m: nat)
    requires Grown(f, n, m)
    ensures Open(f, n) == Leaves(n)
  {
    forall x: nat ensures x in Open(f, n) <==> x in Leaves(n) {
      if 1 <= x <= n { assert ParentOk(f, n, m, x); }
    }
  }

  lemma LeafNotRoot(f: Forest, ws: seq<nat>, m: nat, x: nat)
    requires Finished(f, ws, m) && 2 <= |ws| && 1 <= x <= |ws|
    ensures Depth(f.par, x) >= 1
  {
    RootOpen(f, |ws|, m);
    assert ParentOk(f, |ws|, m, x);
    OpenLeaves(f, |ws|, m);
    assert f.par[x] == -1 ==> x in Open(f, m);
    assert 1 in Leaves(|ws|) && 2 in Leaves(|ws|);
  }

  /* ---- rescaling and the whole construction ---- */

  /** The weight a frequency starts with. */
  function StartWeight(freq: nat): nat { if freq == 0 then 1 else freq }

  function Halved(w: nat): nat { 1 + w / 2 }

  ghost function HalvedAll(ws: seq<nat>): (r: seq<nat>)
    ensures |r| == |ws| && forall i :: 0 <= i < |ws| ==> r[i] == Halved(ws[i])
  {
    seq(|ws|, i requires 0 <= i < |ws| => Halved(ws[i]))
  }

  /** The leaf weights after k rounds of scaling down. */
  ghost function Rescaled(ws: seq<nat>, k: nat): (r: seq<nat>)
    ensures |r| == |ws|
  {
    if k == 0 then ws else HalvedAll(Rescaled(ws, k - 1))
  }

  lemma {:induction false} HalvedTotal(ws: seq<nat>, k: nat)
    requires Positive(ws) && k <= |ws|
    ensures Total(HalvedAll(ws)[..k]) <= Total(ws[..k])
    ensures (exists i :: 0 <= i < k && ws[i] > 2) ==> Total(HalvedAll(ws)[..k]) < Total(ws[..k])
  {
    if k > 0 {
      HalvedTotal(ws, k - 1);
      var h := HalvedAll(ws);
      assert ws[..k][..k - 1] == ws[..k - 1] && h[..k][..k - 1] == h[..k - 1];
    }
  }

  /** Scaling down keeps the weights usable, and makes them smaller as long as one exceeds two. */
  lemma HalvedLimits(ws: seq<nat>)
    requires Limits(ws)
    ensures Limits(HalvedAll(ws)) && Total(HalvedAll(ws)) <= Total(ws)
    ensures (exists i :: 0 <= i < |ws| && ws[i] > 2) ==> Total(HalvedAll(ws)) < Total(ws)
  {
    HalvedTotal(ws, |ws|);
    assert ws[..|ws|] == ws && HalvedAll(ws)[..|ws|] == HalvedAll(ws);
  }

  /** Overlong codes mean that scaling down still makes progress. */
  lemma TooLongShrinks(f: Forest, ws: seq<nat>, m: nat, len: seq<nat>, i: nat, maxLen: nat)
    requires Finished(f, ws, m) && Limits(ws) && |len| == |ws| && AreDepths(len, f, |ws|)
    requires maxLen >= 12 && i < |len| && len[i] > maxLen
    ensures Total(HalvedAll(ws)) < Total(ws)
  {
    HalvedLimits(ws);
    if forall i :: 0 <= i < |ws| ==> ws[i] <= 2 {
      FinishedParts(f, ws, m);
      DeepNeedsWeight(f, ws, m, i + 1);
    }
  }

  /** Overlong codes need a large total weight. */
  lemma TooLongHeavy(f: Forest, ws: seq<nat>, m: nat, len: seq<nat>, i: nat, maxLen: nat)
    requires Finished(f, ws, m) && |len| == |ws| && AreDepths(len, f, |ws|) && i < |len| && len[i] > maxLen
    ensures Total(ws) >= Fib(maxLen + 1)
  {
    DepthPlusHeight(f, |ws|, m, i + 1);
    HeightWeight(f, |ws|, m, m);
    SumAtLeast(Open(f, m), f.w, m);
    FibGrows(maxLen + 1, f.height[m]);
  }

  lemma TotalNonNegative(ws: seq<nat>)
    ensures Total(ws) >= 0
  {
  }

  method ScaleDown(weight: array<nat>, n: nat, ghost ws: seq<nat>)
    requires n == |ws| && LeafWeights(weight[..], ws)
    modifies weight
    ensures LeafWeights(weight[..], HalvedAll(ws))
  {
    for i := 1 to n + 1
      invariant forall k :: 0 <= k < i - 1 ==> weight[k + 1] == 256 * Halved(ws[k])
      invariant forall k :: i - 1 <= k < n ==> weight[k + 1] == 256 * ws[k]
    {
      assert weight[(i - 1) + 1] == 256 * ws[i - 1];
      var j := weight[i] / 256;
      j := 1 + j / 2;
      weight[i] := j * 256;
    }
  }

  /** What a pass that kept within the limit has achieved. */
  ghost predicate GoodLengths(len: seq<nat>, ws: seq<nat>, maxLen: nat) {
    && |len| == |ws| && (forall i :: 0 <= i < |len| ==> 1 <= len[i] <= maxLen)
    && Total(Terms(len, maxLen)) == Pow2(maxLen)
    && OptimalFor(ws, len)
  }

  lemma PassGood(f: Forest, ws: seq<nat>, m: nat, len: seq<nat>, maxLen: nat)
    requires Finished(f, ws, m) && Limits(ws) && |len| == |ws| && AreDepths(len, f, |ws|)
    requires forall i :: 0 <= i < |len| ==> len[i] <= maxLen
    ensures GoodLengths(len, ws, maxLen)
  {
    var more := if maxLen < 32 then 32 else maxLen;
    TreeIsBest(f, ws, m, len, more);
    FillsAt(len, maxLen, more);
    AllPositive(f, ws, m, len);
  }

  lemma DepthsPrefix(len: seq<nat>, f: Forest, n: nat)
    requires AreDepths(len, f, n)
    ensures n <= |len| && AreDepths(len[..n], f, n)
  {
  }

  lemma RescaledMore(ws: seq<nat>, k: nat)
    ensures Rescaled(ws, k + 1) == HalvedAll(Rescaled(ws, k)) && Rescaled(ws, 0) == ws
  {
  }

  ghost function StartWeights(freq: seq<nat>): (ws: seq<nat>)
    ensures |ws| == |freq| && forall i :: 0 <= i < |freq| ==> ws[i] == StartWeight(freq[i])
  {
    seq(|freq|, i requires 0 <= i < |freq| => StartWeight(freq[i]))
  }

  method LoadWeights(weight: array<nat>, freq: array<nat>, n: nat)
    requires weight != freq && n <= freq.Length && n < weight.Length
    modifies weight
    ensures LeafWeights(weight[..], StartWeights(freq[..n]))
  {
    for i := 0 to n
      invariant forall k :: 0 <= k < i ==> weight[k + 1] == 256 * StartWeight(freq[k])
    {
      weight[i + 1] := StartWeight(freq[i]) * 256;
    }
  }

  /** Computes code lengths of at most maxLen for the given frequencies. */
  method MakeCodeLengths(len: array<Byte>, freq: array<nat>, alphaSize: nat, maxLen: nat)
    returns (ghost ws: seq<nat>, ghost rounds: nat)
    requires alphaSize <= len.Length && alphaSize <= freq.Length && maxLen >= 12
    requires Limits(StartWeights(freq[..alphaSize]))
    modifies len
    ensures GoodLengths(len[..alphaSize], ws, maxLen)
    ensures ws == Rescaled(StartWeights(freq[..alphaSize]), rounds)
    ensures rounds > 0 ==> Total(StartWeights(freq[..alphaSize])) >= Fib(maxLen + 1)
  {
    hide *;
    MaxAlpha();
    var heap := new nat[MAX_ALPHA_SIZE + 2];
    var weight := new nat[2 * MAX_ALPHA_SIZE];
    var parent := new int[2 * MAX_ALPHA_SIZE];
    ghost var start := StartWeights(freq[..alphaSize]);
    LimitParts(start);
    LoadWeights(weight, freq, alphaSize);
    ws, rounds := start, 0;
    RescaledMore(start, 0);
    while true
      invariant |ws| == alphaSize && Limits(ws) && LeafWeights(weight[..], ws)
      invariant ws == Rescaled(start, rounds)
      invariant Total(ws) <= Total(start)
      invariant rounds > 0 ==> Total(start) >= Fib(maxLen + 1)
      decreases Total(ws)
    {
      TotalNonNegative(ws);
      var m, f := BuildTree(heap, weight, parent, alphaSize, ws);
      var tooLong := ReadDepths(len, parent, alphaSize, maxLen, m, f, weight[..], ws);
      DepthsPrefix(len[..], f, alphaSize);
      ghost var l := len[..alphaSize];
      assert l == len[..][..alphaSize];
      if !tooLong {
        PassGood(f, ws, m, l, maxLen);
        break;
      }
      ghost var i :| 0 <= i < alphaSize && l[i] > maxLen;
      TooLongShrinks(f, ws, m, l, i, maxLen);
      TooLongHeavy(f, ws, m, l, i, maxLen);
      HalvedLimits(ws);
      TotalNonNegative(HalvedAll(ws));
      RescaledMore(start, rounds);
      ScaleDown(weight, alphaSize, ws);
      ws, rounds := HalvedAll(ws), rounds + 1;
    }
  }
}
