/** Sums over finite sets of indices, and powers of two. */
module SetSums {

  function Pow2(n: int): (r: nat)
    ensures r > 0
  {
    if n <= 0 then 1 else 2 * Pow2(n - 1)
  }

  lemma {:induction false} Pow2Add(a: nat, b: nat)
    ensures Pow2(a + b) == Pow2(a) * Pow2(b)
  {
    if a > 0 {
      Pow2Add(a - 1, b);
      assert Pow2(a + b) == 2 * (Pow2(a - 1) * Pow2(b));
    }
  }

  lemma {:induction false} Pow2Grows(a: int, b: int)
    requires a <= b
    ensures Pow2(a) <= Pow2(b)
    decreases b - a
  {
    if a < b { Pow2Grows(a, b - 1); }
  }

  ghost predicate Within(s: set<nat>, f: seq<int>) {
    forall x :: x in s ==> x < |f|
  }

  ghost function SumOver(s: set<nat>, f: seq<int>): int
    requires Within(s, f)
  {
    if s == {} then 0 else var x :| x in s; f[x] + SumOver(s - {x}, f)
  }

  lemma {:induction false} SumRemove(s: set<nat>, f: seq<int>, x: nat)
    requires Within(s, f) && x in s
    ensures SumOver(s, f) == f[x] + SumOver(s - {x}, f)
    decreases s
  {
    var y :| y in s && SumOver(s, f) == f[y] + SumOver(s - {y}, f);
    if y != x {
      SumRemove(s - {y}, f, x);
      SumRemove(s - {x}, f, y);
      assert s - {y} - {x} == s - {x} - {y};
    }
  }

  lemma SumAdd(s: set<nat>, f: seq<int>, x: nat)
    requires Within(s, f) && x !in s && x < |f|
    ensures SumOver(s + {x}, f) == SumOver(s, f) + f[x]
  {
    SumRemove(s + {x}, f, x);
    assert s + {x} - {x} == s;
  }

  lemma {:induction false} SumSame(s: set<nat>, f: seq<int>, g: seq<int>)
    requires Within(s, f) && Within(s, g) && forall x :: x in s ==> f[x] == g[x]
    ensures SumOver(s, f) == SumOver(s, g)
    decreases s
  {
    if s != {} {
      var x :| x in s;
      SumRemove(s, f, x);
      SumRemove(s, g, x);
      SumSame(s - {x}, f, g);
    }
  }

  lemma {:induction false} SumMono(s: set<nat>, f: seq<int>, g: seq<int>)
    requires Within(s, f) && Within(s, g) && forall x :: x in s ==> f[x] <= g[x]
    ensures SumOver(s, f) <= SumOver(s, g)
    ensures forall x :: x in s && f[x] < g[x] ==> SumOver(s, f) < SumOver(s, g)
    decreases s
  {
    if s != {} {
      var x :| x in s;
      SumRemove(s, f, x);
      SumRemove(s, g, x);
      SumMono(s - {x}, f, g);
    }
  }

  /** Changing one value changes the sum by the difference. */
  lemma SumUpdate(s: set<nat>, f: seq<int>, x: nat, v: int)
    requires Within(s, f) && x in s
    ensures SumOver(s, f[x := v]) == SumOver(s, f) - f[x] + v
  {
    SumRemove(s, f, x);
    SumRemove(s, f[x := v], x);
    SumSame(s - {x}, f, f[x := v]);
  }

  lemma {:induction false} SumNonNegative(s: set<nat>, f: seq<int>)
    requires Within(s, f) && forall x :: x in s ==> f[x] >= 0
    ensures SumOver(s, f) >= 0
    decreases s
  {
    if s != {} {
      var x :| x in s;
      SumRemove(s, f, x);
      SumNonNegative(s - {x}, f);
    }
  }

  lemma SumAtLeast(s: set<nat>, f: seq<int>, x: nat)
    requires Within(s, f) && x in s && forall y :: y in s ==> f[y] >= 0
    ensures f[x] <= SumOver(s, f)
  {
    SumRemove(s, f, x);
    SumNonNegative(s - {x}, f);
  }
}
