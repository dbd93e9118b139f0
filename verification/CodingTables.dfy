/** Improving the code tables of a block: choose tables for the groups, then rebuild each table for what it codes. */
module CodingTables {
  import opened MachineInts
  import opened Counting
  import opened BzConstants
  import opened Words
  import opened MtfEncode
  import opened HuffmanLengths
  import opened PrefixCodes
  import opened CanonicalCode
  import opened TableChoice

  /* ---- the frequencies of a row add up to the symbols it codes ---- */

  ghost function CountsOf(out: seq<nat>, n: nat): (r: seq<nat>)
    ensures |r| == n && forall v :: 0 <= v < n ==> r[v] == Count(out, v)
  {
    seq(n, v requires 0 <= v => Count(out, v))
  }

  lemma {:induction false} TotalUpdate(s: seq<int>, i: nat, x: int)
    requires i < |s|
    ensures Total(s[i := x]) == Total(s) - s[i] + x
    decreases |s|
  {
    var s', n := s[i := x], |s| - 1;
    if i < n {
      assert s'[..n] == s[..n][i := x];
      TotalUpdate(s[..n], i, x);
    } else {
      assert s'[..n] == s[..n];
    }
  }

  lemma {:induction false} TotalZero(s: seq<int>)
    requires forall i :: 0 <= i < |s| ==> s[i] == 0
    ensures Total(s) == 0
  {
    if s != [] { TotalZero(s[..|s| - 1]); }
  }

  lemma {:induction false} TotalCounts(out: seq<nat>, n: nat)
    requires SymsBelow(out, n)
    ensures Total(CountsOf(out, n)) == |out|
  {
    if out == [] {
      TotalZero(CountsOf(out, n));
    } else {
      var o, x := out[..|out| - 1], out[|out| - 1];
      assert out == o + [x];
      TotalCounts(o, n);
      forall v | 0 <= v < n ensures CountsOf(out, n)[v] == CountsOf(o, n)[x := CountsOf(o, n)[x] + 1][v] {
        CountPush(o, x, v);
      }
      assert CountsOf(out, n) == CountsOf(o, n)[x := CountsOf(o, n)[x] + 1];
      TotalUpdate(CountsOf(o, n), x, CountsOf(o, n)[x] + 1);
    }
  }

  /** Giving unused symbols weight one adds at most one per symbol. */
  lemma {:induction false} StartTotal(freq: seq<nat>, k: nat)
    requires k <= |freq|
    ensures Total(StartWeights(freq)[..k]) <= Total(freq[..k]) + k
  {
    if k > 0 {
      StartTotal(freq, k - 1);
      assert StartWeights(freq)[..k][..k - 1] == StartWeights(freq)[..k - 1];
      assert freq[..k][..k - 1] == freq[..k - 1];
    }
  }

  lemma RowLimits(freq: seq<nat>, out: seq<nat>)
    requires 2 <= |freq| <= MAX_ALPHA_SIZE && Tallied(freq, out, |freq| - 1) && SymsBelow(out, |freq|)
    requires |out| <= 900_100
    ensures Limits(StartWeights(freq))
  {
    assert freq == CountsOf(out, |freq|);
    TotalCounts(out, |freq|);
    StartTotal(freq, |freq|);
    assert StartWeights(freq)[..|freq|] == StartWeights(freq) && freq[..|freq|] == freq;
  }

  lemma {:induction false} CodedByIn(syms: seq<nat>, selector: seq<nat>, t: nat, n: nat)
    requires SymsBelow(syms, n)
    ensures SymsBelow(CodedBy(syms, selector, t), n) && |CodedBy(syms, selector, t)| <= 50 * |selector|
  {
    if selector != [] { CodedByIn(syms, selector[..|selector| - 1], t, n); }
  }

  /* ---- rebuilding the tables ---- */

  /** Lengths for the weights that freq starts from, after some rounds of scaling down. */
  ghost predicate Fitted(len: seq<Byte>, freq: seq<nat>, rounds: nat) {
    GoodLengths(len, Rescaled(StartWeights(freq), rounds), 17)
  }

  ghost predicate AllFitted(lens: seq<seq<Byte>>, nGroups: nat, rfreq: seq<seq<nat>>, rounds: seq<nat>) {
    && |lens| == |rfreq| == 6 && |rounds| <= nGroups <= 6
    && forall t :: 0 <= t < |rounds| ==> Fitted(lens[t], rfreq[t], rounds[t])
  }

  lemma FittedMeans(len: seq<Byte>, freq: seq<nat>, rounds: nat)
    requires Fitted(len, freq, rounds)
    ensures LengthsIn(len, 1, 17) && Fits(len, 17)
  {
    GoodLengthsFit(len, Rescaled(StartWeights(freq), rounds), 17);
  }

  method FitRow(row: seq<nat>, alphaSize: nat, ghost out: seq<nat>) returns (len: seq<Byte>, ghost rounds: nat)
    requires |row| == alphaSize && 2 <= alphaSize <= 258 && Tallied(row, out, alphaSize - 1)
    requires SymsBelow(out, alphaSize) && |out| <= 900_100
    ensures |len| == alphaSize && Fitted(len, row, rounds)
    ensures forall v :: 0 <= v < alphaSize ==> len[v] <= 17
  {
    var length := new Byte[alphaSize];
    var freq := new nat[alphaSize](i requires 0 <= i < alphaSize => row[i]);
    assert freq[..alphaSize] == row;
    RowLimits(row, out);
    ghost var ws;
    ws, rounds := MakeCodeLengths(length, freq, alphaSize, 17);
    len := length[..];
    assert length[..alphaSize] == len;
    FittedMeans(len, row, rounds);
  }

  lemma FittedMore(lens: seq<seq<Byte>>, alphaSize: nat, nGroups: nat, rfreq: seq<seq<nat>>, rounds: seq<nat>,
                   len: seq<Byte>, r: nat)
    requires AllFitted(lens, nGroups, rfreq, rounds) && Rows(lens, alphaSize, 20)
    requires |rounds| < nGroups && |len| == alphaSize && Fitted(len, rfreq[|rounds|], r)
    requires forall v :: 0 <= v < alphaSize ==> len[v] <= 17
    ensures Rows(lens[|rounds| := len], alphaSize, 20)
    ensures AllFitted(lens[|rounds| := len], nGroups, rfreq, rounds + [r])
  {
    var l', r' := lens[|rounds| := len], rounds + [r];
    forall t | 0 <= t < |r'| ensures Fitted(l'[t], rfreq[t], r'[t]) {
      if t < |rounds| { assert r'[t] == rounds[t]; }
    }
  }

  lemma NoneFitted(lens: seq<seq<Byte>>, nGroups: nat, rfreq: seq<seq<nat>>)
    requires |lens| == |rfreq| == 6 && nGroups <= 6
    ensures AllFitted(lens, nGroups, rfreq, [])
  {
  }

  method FitTables(lens0: seq<seq<Byte>>, nGroups: nat, alphaSize: nat, rfreq: seq<seq<nat>>, ghost syms: seq<nat>,
                   ghost selector: seq<nat>)
    returns (lens: seq<seq<Byte>>, ghost rounds: seq<nat>)
    requires nGroups <= 6 && 2 <= alphaSize <= 258 && Rows(lens0, alphaSize, 20) && SymsBelow(syms, alphaSize)
    requires Counted(rfreq, alphaSize, syms, selector) && |selector| <= 18002
    ensures Rows(lens, alphaSize, 20) && |rounds| == nGroups && AllFitted(lens, nGroups, rfreq, rounds)
  {
    hide *;
    lens, rounds := lens0, [];
    RowsParts(lens, alphaSize, 20, 0);
    CountedParts(rfreq, alphaSize, syms, selector, 0);
    NoneFitted(lens, nGroups, rfreq);
    for t := 0 to nGroups
      invariant |rounds| == t && |lens| == 6 && |rfreq| == 6
      invariant Rows(lens, alphaSize, 20) && AllFitted(lens, nGroups, rfreq, rounds)
    {
      CountedParts(rfreq, alphaSize, syms, selector, t);
      CodedByIn(syms, selector, t, alphaSize);
      var len, r := FitRow(rfreq[t], alphaSize, CodedBy(syms, selector, t));
      FittedMore(lens, alphaSize, nGroups, rfreq, rounds, len, r);
      lens := lens[t := len];
      rounds := rounds + [r];
    }
  }

  /* ---- the tables of a block ---- */

  /** The frequencies cover all symbols, and the end-of-block symbol occurs. */
  lemma {:induction false} SumIsTotal(f: seq<nat>, n: nat)
    requires n <= |f|
    ensures SumFrom(f, 0, n) == Total(f[..n])
  {
    if n > 0 {
      SumIsTotal(f, n - 1);
      assert f[..n][..n - 1] == f[..n - 1];
    }
  }

  lemma {:induction false} Occurs(s: seq<nat>, i: nat)
    requires i < |s|
    ensures Count(s, s[i]) > 0
  {
    if i < |s| - 1 { Occurs(s[..|s| - 1], i); }
  }

  lemma FreqReady(freq: seq<nat>, syms: seq<nat>, alphaSize: nat)
    requires 0 < alphaSize <= |freq| && Tallied(freq, syms, alphaSize - 1) && SymsBelow(syms, alphaSize)
    requires |syms| > 0 && syms[|syms| - 1] == alphaSize - 1
    ensures freq[alphaSize - 1] > 0 && SumFrom(freq, 0, alphaSize) == |syms|
  {
    Occurs(syms, |syms| - 1);
    SumIsTotal(freq, alphaSize);
    assert freq[..alphaSize] == CountsOf(syms, alphaSize);
    TotalCounts(syms, alphaSize);
  }

  lemma RowsWiden(lens: seq<seq<Byte>>, alphaSize: nat)
    requires Rows(lens, alphaSize, 15)
    ensures Rows(lens, alphaSize, 20)
  {
  }

  /** Four times: choose the cheapest table for each group, then refit the tables to what they code. */
  method BuildTables(arr1: array<UInt32>, nMTF: nat, mtfFreq: array<nat>, alphaSize: nat, nGroups: nat,
                     selector: array<Byte>, ghost syms: seq<nat>)
    returns (lens: seq<seq<Byte>>, nSelectors: nat, ghost prev: seq<seq<Byte>>, ghost rfreq: seq<seq<nat>>,
             ghost rounds: seq<nat>)
    requires 2 <= nGroups <= 6 && 2 <= alphaSize <= 258 && mtfFreq.Length == 258 && selector.Length == 18002
    requires nMTF <= 2 * arr1.Length && syms == HalfView(arr1[..], nMTF) && 0 < nMTF <= 900_050
    requires SymsBelow(syms, alphaSize) && syms[|syms| - 1] == alphaSize - 1
    requires Tallied(mtfFreq[..], syms, alphaSize - 1)
    modifies selector
    ensures Rows(lens, alphaSize, 20) && nSelectors == GroupCount(nMTF) <= 18002
    ensures forall g :: 0 <= g < nSelectors ==> selector[g] < nGroups
    ensures Selected(prev, nGroups, syms, selector[..nSelectors])
    ensures Counted(rfreq, alphaSize, syms, selector[..nSelectors])
    ensures |rounds| == nGroups && AllFitted(lens, nGroups, rfreq, rounds)
  {
    hide *;
    GroupSizes();
    HalfSize(arr1[..], nMTF);
    FreqReady(mtfFreq[..], syms, alphaSize);
    lens := InitialTables(mtfFreq, alphaSize, nMTF, nGroups);
    RowsWiden(lens, alphaSize);
    nSelectors, prev, rfreq, rounds := 0, lens, [], [];
    for iter := 0 to BZ_N_ITERS
      invariant Rows(lens, alphaSize, 20) && syms == HalfView(arr1[..], nMTF)
      invariant iter > 0 ==> nSelectors == GroupCount(nMTF) <= 18002
      invariant iter > 0 ==> forall g :: 0 <= g < nSelectors ==> selector[g] < nGroups
      invariant iter > 0 ==> Selected(prev, nGroups, syms, selector[..nSelectors])
      invariant iter > 0 ==> Counted(rfreq, alphaSize, syms, selector[..nSelectors])
      invariant iter > 0 ==> |rounds| == nGroups && AllFitted(lens, nGroups, rfreq, rounds)
    {
      var freq;
      nSelectors, freq := ChooseTables(lens, nGroups, alphaSize, arr1, nMTF, selector, syms);
      prev, rfreq := lens, freq;
      lens, rounds := FitTables(lens, nGroups, alphaSize, freq, syms, selector[..nSelectors]);
    }
  }
}
