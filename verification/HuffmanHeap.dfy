/** The heap of node numbers, lightest first, from which code lengths are built. */
module HuffmanHeap {
  import opened Permutations

  /** The weight of the node in heap place k. */
  ghost function WeightAt(h: seq<nat>, v: seq<nat>, k: int): nat {
    if 0 <= k < |h| && h[k] < |v| then v[h[k]] else 0
  }

  /** Place 0 holds the weightless sentinel node 0; places 1..n hold real nodes. */
  ghost predicate Places(h: seq<nat>, v: seq<nat>, n: nat) {
    && n < |h| && |v| > 0 && h[0] == 0 && v[0] == 0
    && forall k :: 1 <= k <= n ==> 0 < h[k] < |v|
  }

  ghost predicate HeapOrdered(h: seq<nat>, v: seq<nat>, n: nat) {
    forall k :: 2 <= k <= n ==> WeightAt(h, v, k / 2) <= WeightAt(h, v, k)
  }

  /** Node tmp is to go into place z or above; everything else is in order. */
  ghost predicate Rising(h0: seq<nat>, h: seq<nat>, v: seq<nat>, n: nat, z: nat, tmp: nat) {
    && 1 <= z <= n < |h| && Permuted(h0, h[z := tmp], 1, n)
    && (forall k :: 2 <= k <= n && k != z ==> WeightAt(h[z := tmp], v, k / 2) <= WeightAt(h[z := tmp], v, k))
    && (forall k :: 2 <= k <= n && k / 2 == z && z >= 2 ==>
      WeightAt(h[z := tmp], v, z / 2) <= WeightAt(h[z := tmp], v, k))
  }

  /** Node tmp is to go into place z or below; everything else is in order. */
  ghost predicate Sinking(h0: seq<nat>, h: seq<nat>, v: seq<nat>, n: nat, z: nat, tmp: nat) {
    && 1 <= z < |h| && n < |h| && (z <= n || z == 1) && Permuted(h0, h[z := tmp], 1, if n == 0 then 1 else n)
    && (forall k :: 2 <= k <= n && k / 2 != z ==> WeightAt(h[z := tmp], v, k / 2) <= WeightAt(h[z := tmp], v, k))
    && (forall k :: 2 <= k <= n && k / 2 == z && z >= 2 ==>
      WeightAt(h[z := tmp], v, z / 2) <= WeightAt(h[z := tmp], v, k))
  }

  lemma PlacesPermuted(h: seq<nat>, t: seq<nat>, v: seq<nat>, n: nat)
    requires Places(h, v, n) && Permuted(h, t, 1, n)
    ensures Places(t, v, n)
  {
    forall k | 1 <= k <= n ensures 0 < t[k] < |v| { var k' := CameFrom(h, t, 1, n, k); }
  }

  lemma MoveHole(h: seq<nat>, z: nat, y: nat, tmp: nat, n: nat)
    requires 1 <= z <= n < |h| && 1 <= y <= n && z != y
    ensures Permuted(h[z := tmp], h[z := h[y]][y := tmp], 1, n)
  {
    var g := h[z := tmp];
    PermutedSwap(g, z, y, 1, n);
    assert g[z := g[y]][y := g[z]] == h[z := h[y]][y := tmp];
  }

  lemma RiseWeights(g: seq<nat>, g': seq<nat>, v: seq<nat>, n: nat, z: nat)
    requires 2 <= z <= n < |g| == |g'| && g' == g[z := g[z / 2]][z / 2 := g[z]]
    requires forall k :: 2 <= k <= n && k != z ==> WeightAt(g, v, k / 2) <= WeightAt(g, v, k)
    requires forall k :: 2 <= k <= n && k / 2 == z ==> WeightAt(g, v, z / 2) <= WeightAt(g, v, k)
    requires WeightAt(g, v, z) < WeightAt(g, v, z / 2)
    ensures forall k :: 2 <= k <= n && k != z / 2 ==> WeightAt(g', v, k / 2) <= WeightAt(g', v, k)
    ensures forall k :: 2 <= k <= n && k / 2 == z / 2 && z / 2 >= 2 ==> WeightAt(g', v, z / 2 / 2) <= WeightAt(g', v, k)
  {
    var y := z / 2;
    assert forall k :: k != z && k != y ==> WeightAt(g', v, k) == WeightAt(g, v, k);
    assert WeightAt(g', v, z) == WeightAt(g, v, y) && WeightAt(g', v, y) == WeightAt(g, v, z);
    forall k | 2 <= k <= n && k / 2 == y && y >= 2 ensures WeightAt(g', v, y / 2) <= WeightAt(g', v, k) {
      assert WeightAt(g, v, y / 2) <= WeightAt(g, v, y);
    }
  }

  lemma RiseStep(h0: seq<nat>, h: seq<nat>, v: seq<nat>, n: nat, z: nat, tmp: nat)
    requires Rising(h0, h, v, n, z, tmp) && Places(h0, v, n) && z >= 2
    requires WeightAt(h[z := tmp], v, z) < WeightAt(h[z := tmp], v, z / 2)
    ensures Rising(h0, h[z := h[z / 2]], v, n, z / 2, tmp)
  {
    hide WeightAt, Permuted, Places;
    var y := z / 2;
    var g, g' := h[z := tmp], h[z := h[y]][y := tmp];
    MoveHole(h, z, y, tmp, n);
    PermutedTrans(h0, g, g', 1, n);
    assert g' == g[z := g[y]][y := g[z]];
    RiseWeights(g, g', v, n, z);
  }

  lemma RiseStarts(h: seq<nat>, v: seq<nat>, n: nat)
    requires 1 <= n < |h| && HeapOrdered(h, v, n - 1)
    ensures Rising(h, h, v, n, n, h[n])
  {
    assert h[n := h[n]] == h;
  }

  lemma RiseEnds(h0: seq<nat>, h: seq<nat>, v: seq<nat>, n: nat, z: nat, tmp: nat)
    requires Rising(h0, h, v, n, z, tmp)
    requires z >= 2 ==> WeightAt(h[z := tmp], v, z / 2) <= WeightAt(h[z := tmp], v, z)
    ensures Permuted(h0, h[z := tmp], 1, n) && HeapOrdered(h[z := tmp], v, n)
  {
  }

  /** The two weights the rising loop compares. */
  lemma RiseReads(h0: seq<nat>, h: seq<nat>, v: seq<nat>, n: nat, z: nat, tmp: nat)
    requires Rising(h0, h, v, n, z, tmp) && Places(h0, v, n)
    ensures 0 <= z / 2 < |h| && 0 < tmp < |v| && h[z / 2] < |v|
    ensures WeightAt(h[z := tmp], v, z) == v[tmp] && WeightAt(h[z := tmp], v, z / 2) == v[h[z / 2]]
    ensures z == 1 ==> v[h[z / 2]] == 0
  {
    var g := h[z := tmp];
    PlacesPermuted(h0, g, v, n);
    assert g[z] == tmp && g[z / 2] == h[z / 2];
    assert g[0] == h0[0];
  }

  method UpHeap(heap: array<nat>, weight: array<nat>, nHeap: nat)
    requires heap != weight && 1 <= nHeap && Places(heap[..], weight[..], nHeap) && nHeap < heap.Length
    requires HeapOrdered(heap[..], weight[..], nHeap - 1)
    modifies heap
    ensures Permuted(old(heap[..]), heap[..], 1, nHeap) && HeapOrdered(heap[..], weight[..], nHeap)
  {
    hide *;
    ghost var h0, h, v := heap[..], heap[..], weight[..];
    var zz := nHeap;
    var tmp := heap[zz];
    RiseStarts(h, v, nHeap);
    RiseReads(h0, h, v, nHeap, zz, tmp);
    while weight[tmp] < weight[heap[zz / 2]]
      invariant 1 <= zz <= nHeap && heap[..] == h && |h| == |h0| && tmp < weight.Length && 0 <= zz / 2 < |h|
      invariant h[zz / 2] < |v|
      invariant Rising(h0, h, v, nHeap, zz, tmp)
      invariant WeightAt(h[zz := tmp], v, zz) == v[tmp] && WeightAt(h[zz := tmp], v, zz / 2) == v[h[zz / 2]]
      invariant zz == 1 ==> v[h[zz / 2]] == 0
      decreases zz
    {
      RiseStep(h0, h, v, nHeap, zz, tmp);
      heap[zz] := heap[zz / 2];
      h := h[zz := h[zz / 2]];
      zz := zz / 2;
      RiseReads(h0, h, v, nHeap, zz, tmp);
    }
    RiseEnds(h0, h, v, nHeap, zz, tmp);
    heap[zz] := tmp;
    assert heap[..] == h[zz := tmp];
  }

  lemma SinkStarts(h: seq<nat>, v: seq<nat>, n: nat)
    requires n < |h| && 1 < |h|
    requires forall k :: 2 <= k <= n && k / 2 != 1 ==> WeightAt(h, v, k / 2) <= WeightAt(h, v, k)
    ensures Sinking(h, h, v, n, 1, h[1])
  {
    assert h[1 := h[1]] == h;
  }

  lemma SinkEnds(h0: seq<nat>, h: seq<nat>, v: seq<nat>, n: nat, z: nat, tmp: nat)
    requires Sinking(h0, h, v, n, z, tmp)
    requires forall k :: 2 <= k <= n && k / 2 == z ==> WeightAt(h[z := tmp], v, z) <= WeightAt(h[z := tmp], v, k)
    ensures Permuted(h0, h[z := tmp], 1, if n == 0 then 1 else n) && HeapOrdered(h[z := tmp], v, n)
  {
  }

  /** y is the lighter child of place z. */
  ghost predicate LighterChild(h: seq<nat>, v: seq<nat>, n: nat, z: nat, y: nat) {
    && 2 <= y <= n && y / 2 == z
    && forall k :: 2 <= k <= n && k / 2 == z ==> WeightAt(h, v, y) <= WeightAt(h, v, k)
  }

  lemma SinkStep(h0: seq<nat>, h: seq<nat>, v: seq<nat>, n: nat, z: nat, y: nat, tmp: nat)
    requires Sinking(h0, h, v, n, z, tmp) && LighterChild(h[z := tmp], v, n, z, y)
    requires WeightAt(h[z := tmp], v, y) <= WeightAt(h[z := tmp], v, z)
    ensures Sinking(h0, h[z := h[y]], v, n, y, tmp)
  {
    var g, g' := h[z := tmp], h[z := h[y]][y := tmp];
    MoveHole(h, z, y, tmp, n);
    PermutedTrans(h0, g, g', 1, n);
    assert forall k :: k != z && k != y ==> WeightAt(g', v, k) == WeightAt(g, v, k);
    assert WeightAt(g', v, z) == WeightAt(g, v, y) && WeightAt(g', v, y) == WeightAt(g, v, z);
    forall k | 2 <= k <= n && k / 2 != y ensures WeightAt(g', v, k / 2) <= WeightAt(g', v, k) {
      if k == z { assert WeightAt(g, v, z / 2) <= WeightAt(g, v, y); }
    }
  }

  lemma SinkReads(h0: seq<nat>, h: seq<nat>, v: seq<nat>, n: nat, z: nat, tmp: nat)
    requires Sinking(h0, h, v, n, z, tmp) && Places(h0, v, n) && h0[1] < |v|
    ensures tmp < |v| && WeightAt(h[z := tmp], v, z) == v[tmp]
    ensures forall k :: 2 <= k <= n && k / 2 == z ==> h[k] < |v| && WeightAt(h[z := tmp], v, k) == v[h[k]]
  {
    var n' := if n == 0 then 1 else n;
    var g := h[z := tmp];
    var k' := CameFrom(h0, g, 1, n', z);
    forall k | 2 <= k <= n && k / 2 == z ensures h[k] < |v| && WeightAt(g, v, k) == v[h[k]] {
      var j := CameFrom(h0, g, 1, n', k);
    }
  }

  lemma Children(h: seq<nat>, v: seq<nat>, n: nat, z: nat, y: nat)
    requires 1 <= z && 2 * z <= n
    requires y == if 2 * z < n && WeightAt(h, v, 2 * z + 1) < WeightAt(h, v, 2 * z) then 2 * z + 1 else 2 * z
    ensures LighterChild(h, v, n, z, y)
  {
    assert forall k :: 2 <= k <= n && k / 2 == z ==> k == 2 * z || k == 2 * z + 1;
  }

  method DownHeap(heap: array<nat>, weight: array<nat>, nHeap: nat)
    requires heap != weight && nHeap < heap.Length && 1 < heap.Length
    requires Places(heap[..], weight[..], nHeap) && heap[1] < weight.Length
    requires Sinking(heap[..], heap[..], weight[..], nHeap, 1, heap[1])
    modifies heap
    ensures Permuted(old(heap[..]), heap[..], 1, if nHeap == 0 then 1 else nHeap)
    ensures HeapOrdered(heap[..], weight[..], nHeap)
  {
    hide *;
    ghost var h0, h, v := heap[..], heap[..], weight[..];
    var zz := 1;
    var tmp := heap[zz];
    SinkReads(h0, h, v, nHeap, zz, tmp);
    while true
      invariant 1 <= zz < heap.Length && heap[..] == h && |h| == |h0| && tmp < weight.Length
      invariant Sinking(h0, h, v, nHeap, zz, tmp) && WeightAt(h[zz := tmp], v, zz) == v[tmp]
      invariant forall k :: 2 <= k <= nHeap && k / 2 == zz ==> h[k] < |v| && WeightAt(h[zz := tmp], v, k) == v[h[k]]
      decreases nHeap + 1 - zz
    {
      var yy := 2 * zz;
      if yy > nHeap {
        NoChildren(nHeap, zz);
        break;
      }
      ChildIndex(zz);
      if yy < nHeap && weight[heap[yy + 1]] < weight[heap[yy]] { yy := yy + 1; }
      Children(h[zz := tmp], v, nHeap, zz, yy);
      LighterIs(h[zz := tmp], v, nHeap, zz, yy);
      if weight[tmp] < weight[heap[yy]] { break; }
      SinkStep(h0, h, v, nHeap, zz, yy, tmp);
      heap[zz] := heap[yy];
      h := h[zz := h[yy]];
      zz := yy;
      SinkReads(h0, h, v, nHeap, zz, tmp);
    }
    SinkEnds(h0, h, v, nHeap, zz, tmp);
    heap[zz] := tmp;
    assert heap[..] == h[zz := tmp];
  }

  lemma NoChildren(n: nat, z: nat)
    requires 2 * z > n
    ensures forall k :: 2 <= k <= n ==> k / 2 != z
  {
  }

  lemma ChildIndex(z: nat)
    ensures (2 * z) / 2 == z && (2 * z + 1) / 2 == z
  {
  }

  lemma LighterIs(h: seq<nat>, v: seq<nat>, n: nat, z: nat, y: nat)
    requires LighterChild(h, v, n, z, y)
    ensures 2 <= y <= n && y / 2 == z
    ensures forall k :: 2 <= k <= n && k / 2 == z ==> WeightAt(h, v, y) <= WeightAt(h, v, k)
  {
  }

  /* ---- the nodes a heap holds ---- */

  /** Places 1..n hold exactly the nodes of s, each once. */
  ghost predicate Holds(h: seq<nat>, n: nat, s: set<nat>) {
    && n < |h|
    && (forall i, j :: 1 <= i < j <= n ==> h[i] != h[j])
    && (forall i :: 1 <= i <= n ==> h[i] in s)
    && (forall x :: x in s ==> exists i :: 1 <= i <= n && h[i] == x)
  }

  lemma HoldsPermuted(h: seq<nat>, t: seq<nat>, n: nat, s: set<nat>)
    requires Holds(h, n, s) && Permuted(h, t, 1, n) && n > 0
    ensures Holds(t, n, s)
  {
    forall i, j | 1 <= i < j <= n ensures t[i] != t[j] { PermutedDistinct(h, t, n, i, j); }
    forall i | 1 <= i <= n ensures t[i] in s { var i' := CameFrom(h, t, 1, n, i); }
    forall x | x in s ensures exists i :: 1 <= i <= n && t[i] == x {
      var i :| 1 <= i <= n && h[i] == x;
      PermutedSym(h, t, n);
      var i' := CameFrom(t, h, 1, n, i);
    }
  }

  lemma PermutedSym(h: seq<nat>, t: seq<nat>, n: nat)
    requires Permuted(h, t, 1, n)
    ensures Permuted(t, h, 1, n)
  {
  }

  lemma PermutedDistinct(h: seq<nat>, t: seq<nat>, n: nat, i: nat, j: nat)
    requires Permuted(h, t, 1, n) && n < |h| && 1 <= i < j <= n
    requires forall i, j :: 1 <= i < j <= n ==> h[i] != h[j]
    ensures t[i] != t[j]
  {
    var a, b := h[1..n + 1], t[1..n + 1];
    PermutedRange(h, t, 1, n);
    InjectiveOnce(a, t[i]);
    assert b[i - 1] == t[i] && b[j - 1] == t[j];
    if t[i] == t[j] { TwiceIsTwo(b, i - 1, j - 1); }
  }

  /** The first place of an ordered heap holds a lightest node. */
  lemma {:induction false} TopIsLightest(h: seq<nat>, v: seq<nat>, n: nat, k: nat)
    requires HeapOrdered(h, v, n) && 1 <= k <= n
    ensures WeightAt(h, v, 1) <= WeightAt(h, v, k)
  {
    if k > 1 { TopIsLightest(h, v, n, k / 2); }
  }

  lemma TopOfSet(h: seq<nat>, v: seq<nat>, n: nat, s: set<nat>)
    requires HeapOrdered(h, v, n) && Places(h, v, n) && Holds(h, n, s) && n > 0
    ensures h[1] in s && h[1] < |v| && forall x :: x in s ==> 0 < x < |v| && v[h[1]] <= v[x]
  {
    forall x | x in s ensures 0 < x < |v| && v[h[1]] <= v[x] {
      var k :| 1 <= k <= n && h[k] == x;
      TopIsLightest(h, v, n, k);
    }
  }

  lemma LastHolds(h: seq<nat>, n: nat, s: set<nat>)
    requires n > 0 && Holds(h, n, s)
    ensures Holds(h[1 := h[n]], n - 1, s - {h[1]})
  {
    var t := h[1 := h[n]];
    forall x | x in s - {h[1]} ensures exists i :: 1 <= i <= n - 1 && t[i] == x {
      var i :| 1 <= i <= n && h[i] == x;
      assert t[if i == n then 1 else i] == x;
    }
  }

  /** The last node takes the place of the first, which is then sunk. */
  lemma LastToTop(h: seq<nat>, v: seq<nat>, n: nat, s: set<nat>)
    requires n > 0 && HeapOrdered(h, v, n) && Places(h, v, n) && Holds(h, n, s)
    ensures Places(h[1 := h[n]], v, n - 1) && h[n] < |v|
    ensures Sinking(h[1 := h[n]], h[1 := h[n]], v, n - 1, 1, h[n])
    ensures Holds(h[1 := h[n]], n - 1, s - {h[1]})
  {
    LastHolds(h, n, s);
    hide Holds;
    var t := h[1 := h[n]];
    forall k | 2 <= k <= n - 1 && k / 2 != 1 ensures WeightAt(t, v, k / 2) <= WeightAt(t, v, k) {
      assert WeightAt(h, v, k / 2) <= WeightAt(h, v, k);
    }
    SinkStarts(t, v, n - 1);
  }

  lemma EmptyHeap(h: seq<nat>, t: seq<nat>, s: set<nat>)
    requires Holds(h, 0, s) && |t| > 0
    ensures Holds(t, 0, s) && s == {}
  {
  }

  lemma AfterSink(h: seq<nat>, t: seq<nat>, v: seq<nat>, n: nat, s: set<nat>)
    requires Permuted(h, t, 1, if n == 0 then 1 else n) && Places(h, v, n) && Holds(h, n, s)
    ensures Places(t, v, n) && Holds(t, n, s)
  {
    if n == 0 {
      EmptyHeap(h, t, s);
    } else {
      PlacesPermuted(h, t, v, n);
      HoldsPermuted(h, t, n, s);
    }
  }

  /** A heap that holds the nodes of s. */
  ghost predicate HeapOf(h: seq<nat>, v: seq<nat>, n: nat, s: set<nat>) {
    Places(h, v, n) && HeapOrdered(h, v, n) && Holds(h, n, s)
  }

  lemma HeapParts(h: seq<nat>, v: seq<nat>, n: nat, s: set<nat>)
    ensures HeapOf(h, v, n, s) <==> Places(h, v, n) && HeapOrdered(h, v, n) && Holds(h, n, s)
    ensures HeapOf(h, v, n, s) ==> n < |h|
  {
  }

  /** Removes a lightest node. */
  method Pop(heap: array<nat>, weight: array<nat>, nHeap: nat, ghost s: set<nat>) returns (top: nat)
    requires heap != weight && nHeap > 0 && nHeap < heap.Length && HeapOf(heap[..], weight[..], nHeap, s)
    modifies heap
    ensures top in s && top < weight.Length && forall x :: x in s ==> 0 < x < weight.Length && weight[top] <= weight[x]
    ensures HeapOf(heap[..], weight[..], nHeap - 1, s - {top})
  {
    hide *;
    ghost var h, v := heap[..], weight[..];
    HeapParts(h, v, nHeap, s);
    TopOfSet(h, v, nHeap, s);
    LastToTop(h, v, nHeap, s);
    top := heap[1];
    heap[1] := heap[nHeap];
    ghost var t := h[1 := h[nHeap]];
    assert heap[..] == t;
    DownHeap(heap, weight, nHeap - 1);
    AfterSink(t, heap[..], v, nHeap - 1, s - {top});
    HeapParts(heap[..], v, nHeap - 1, s - {top});
  }

  lemma Appended(h: seq<nat>, v: seq<nat>, n: nat, s: set<nat>, x: nat)
    requires HeapOf(h, v, n, s) && n + 1 < |h| && 0 < x < |v| && x !in s
    ensures Places(h[n + 1 := x], v, n + 1) && HeapOrdered(h[n + 1 := x], v, n) && Holds(h[n + 1 := x], n + 1, s + {x})
  {
    var t := h[n + 1 := x];
    forall k | 2 <= k <= n ensures WeightAt(t, v, k / 2) <= WeightAt(t, v, k) {
      assert WeightAt(h, v, k / 2) <= WeightAt(h, v, k);
    }
    forall y | y in s + {x} ensures exists i :: 1 <= i <= n + 1 && t[i] == y {
      if y == x { assert t[n + 1] == y; } else { var i :| 1 <= i <= n && h[i] == y; assert t[i] == y; }
    }
  }

  /** Adds a node. */
  method Push(heap: array<nat>, weight: array<nat>, nHeap: nat, x: nat, ghost s: set<nat>)
    requires heap != weight && nHeap + 1 < heap.Length && HeapOf(heap[..], weight[..], nHeap, s)
    requires 0 < x < weight.Length && x !in s
    modifies heap
    ensures HeapOf(heap[..], weight[..], nHeap + 1, s + {x})
  {
    hide *;
    ghost var h, v := heap[..], weight[..];
    Appended(h, v, nHeap, s, x);
    heap[nHeap + 1] := x;
    ghost var t := h[nHeap + 1 := x];
    assert heap[..] == t;
    UpHeap(heap, weight, nHeap + 1);
    PlacesPermuted(t, heap[..], v, nHeap + 1);
    HoldsPermuted(t, heap[..], nHeap + 1, s + {x});
    HeapParts(heap[..], v, nHeap + 1, s + {x});
  }
}
