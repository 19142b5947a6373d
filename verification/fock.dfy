/** The Fock-space indexer: the bijection between occupation vectors of N
    bosons in M orbitals and the integers 0 .. Configs(N, M) - 1 that the program
    uses to address the coefficient vector C.

    The ranking (FockToIndex) walks the orbitals from the last to the second
    and, for every particle found in orbital i, skips the Configs(n, i)
    configurations in which that particle sits in one of the first i
    orbitals, n being the number of particles not yet accounted for. The
    occupation of orbital 0 is never read. The unranking (IndexToFock) is the
    greedy inverse. */
module Fock {
  import opened Combinatorics

  /** Total number of particles of an occupation vector. */
  function Sum(v: seq<int>): int
  {
    if |v| == 0 then 0 else Sum(v[..|v| - 1]) + v[|v| - 1]
  }

  predicate NonNegative(v: seq<int>)
  {
    forall i :: 0 <= i < |v| ==> v[i] >= 0
  }

  /** v is a configuration of n bosons in m orbitals. */
  predicate IsConfig(v: seq<int>, n: int, m: int)
  {
    |v| == m && NonNegative(v) && Sum(v) == n
  }

  /** What FockToIndex needs of its input: at least one orbital, non-negative
      occupations from orbital 1 on, and no more than n particles there. The
      occupation of orbital 0 may be anything, since it is never read. */
  predicate Indexable(v: seq<int>, n: int)
  {
    |v| >= 1 && n >= 0 &&
    (forall i :: 1 <= i < |v| ==> v[i] >= 0) &&
    Sum(v) - v[0] <= n
  }

  function Zeros(m: nat): (z: seq<int>)
    ensures |z| == m && forall i :: 0 <= i < m ==> z[i] == 0
  {
    seq(m, _ => 0)
  }

  lemma {:induction false} SumAppend(a: seq<int>, b: seq<int>)
    ensures Sum(a + b) == Sum(a) + Sum(b)
    decreases |b|
  {
    if |b| > 0 {
      assert (a + b)[..|a + b| - 1] == a + b[..|b| - 1];
      SumAppend(a, b[..|b| - 1]);
    } else {
      assert a + b == a;
    }
  }

  lemma {:induction false} SumUpdate(v: seq<int>, i: int, x: int)
    requires 0 <= i < |v|
    ensures Sum(v[i := x]) == Sum(v) - v[i] + x
    decreases |v|
  {
    var m := |v| - 1;
    var w := v[i := x];
    if i < m {
      assert w[..m] == v[..m][i := x];
      SumUpdate(v[..m], i, x);
    } else {
      assert w[..m] == v[..m];
    }
  }

  lemma {:induction false} SumZeros(m: nat)
    ensures Sum(Zeros(m)) == 0
  {
    if m > 0 {
      assert Zeros(m)[..m - 1] == Zeros(m - 1);
      SumZeros(m - 1);
    }
  }

  lemma {:induction false} SumNonNegative(v: seq<int>)
    requires NonNegative(v)
    ensures Sum(v) >= 0
    decreases |v|
  {
    if |v| > 0 {
      SumNonNegative(v[..|v| - 1]);
    }
  }

  /** The occupations from orbital 1 on add up to at least any one of them. */
  lemma {:induction false} UpperSumBound(v: seq<int>, j: int)
    requires 1 <= j < |v|
    requires forall i :: 1 <= i < |v| ==> v[i] >= 0
    ensures Sum(v) - v[0] >= v[j]
    decreases |v|
  {
    var m := |v| - 1;
    assert Sum(v) == Sum(v[..m]) + v[m];
    if j < m {
      UpperSumBound(v[..m], j);
    } else {
      UpperSumNonNegative(v[..m]);
    }
  }

  lemma {:induction false} UpperSumNonNegative(v: seq<int>)
    requires 1 <= |v|
    requires forall i :: 1 <= i < |v| ==> v[i] >= 0
    ensures Sum(v) - v[0] >= 0
    decreases |v|
  {
    var m := |v| - 1;
    if m >= 1 {
      assert Sum(v) == Sum(v[..m]) + v[m];
      UpperSumNonNegative(v[..m]);
    } else {
      assert v[..0] == [];
    }
  }

  lemma ConfigIndexable(v: seq<int>, n: int, m: int)
    requires IsConfig(v, n, m) && m >= 1
    ensures Indexable(v, n)
  {
    SumNonNegative(v);
  }

  /** FockToIndex in functional form: the rank of v among the configurations
      of n bosons in |v| orbitals. One particle is peeled off the last
      occupied orbital at each step, exactly as the loops of the program do. */
  function Rank(v: seq<int>, n: int): (r: nat)
    requires Indexable(v, n)
    ensures r < Configs(n, |v|)
    decreases |v|, v[|v| - 1]
  {
    var m := |v|;
    if m == 1 then
      0
    else if v[m - 1] == 0 then
      assert Sum(v) == Sum(v[..m - 1]) + v[m - 1];
      Rank(v[..m - 1], n)
    else
      UpperSumBound(v, m - 1);
      SumUpdate(v, m - 1, v[m - 1] - 1);
      Configs(n, m - 1) + Rank(v[m - 1 := v[m - 1] - 1], n - 1)
  }

  /** IndexToFock in functional form: the configuration of rank k. Either
      k is small enough for the last orbital to be empty, or one particle
      sits there and the rest is the configuration of rank k - NC(n, m - 1)
      of n - 1 particles. */
  function Unrank(k: nat, n: nat, m: nat): (v: seq<int>)
    requires m >= 1 && k < Configs(n, m)
    ensures |v| == m && NonNegative(v)
    decreases m, n
  {
    if m == 1 then
      [n]
    else if k < Configs(n, m - 1) then
      Unrank(k, n, m - 1) + [0]
    else
      var w := Unrank(k - Configs(n, m - 1), n - 1, m);
      w[m - 1 := w[m - 1] + 1]
  }

  /** Unranking yields a configuration of exactly n particles. */
  lemma {:induction false} UnrankIsConfig(k: nat, n: nat, m: nat)
    requires m >= 1 && k < Configs(n, m)
    ensures IsConfig(Unrank(k, n, m), n, m)
    decreases m, n
  {
    var v := Unrank(k, n, m);
    if m == 1 {
      assert Sum(v) == Sum(v[..0]) + v[0];
    } else if k < Configs(n, m - 1) {
      var w := Unrank(k, n, m - 1);
      UnrankIsConfig(k, n, m - 1);
      assert v[..m - 1] == w;
      assert Sum(v) == Sum(w) + 0;
    } else {
      var w := Unrank(k - Configs(n, m - 1), n - 1, m);
      UnrankIsConfig(k - Configs(n, m - 1), n - 1, m);
      SumUpdate(w, m - 1, w[m - 1] + 1);
    }
  }

  /** The occupation of orbital 0 does not influence the index. */
  lemma {:induction false} RankIgnoresFirst(v: seq<int>, n: int, x: int)
    requires Indexable(v, n)
    ensures Indexable(v[0 := x], n) && Rank(v[0 := x], n) == Rank(v, n)
    decreases |v|, v[|v| - 1]
  {
    SumUpdate(v, 0, x);
    var w := v[0 := x];
    var m := |v|;
    if m > 1 {
      if v[m - 1] == 0 {
        assert Sum(v) == Sum(v[..m - 1]) + v[m - 1];
        assert w[..m - 1] == v[..m - 1][0 := x];
        RankIgnoresFirst(v[..m - 1], n, x);
      } else {
        UpperSumBound(v, m - 1);
        SumUpdate(v, m - 1, v[m - 1] - 1);
        var v' := v[m - 1 := v[m - 1] - 1];
        assert w[m - 1 := w[m - 1] - 1] == v'[0 := x];
        RankIgnoresFirst(v', n - 1, x);
      }
    }
  }

  /** The two ways FockToIndex proceeds, as single steps. */
  lemma RankDrop(v: seq<int>, n: int)
    requires Indexable(v, n) && |v| >= 2 && v[|v| - 1] == 0
    ensures Indexable(v[..|v| - 1], n)
    ensures Rank(v, n) == Rank(v[..|v| - 1], n)
  {
    assert Sum(v) == Sum(v[..|v| - 1]) + v[|v| - 1];
  }

  lemma RankPeel(v: seq<int>, n: int)
    requires Indexable(v, n) && |v| >= 2 && v[|v| - 1] > 0
    ensures n >= 1 && Indexable(v[|v| - 1 := v[|v| - 1] - 1], n - 1)
    ensures Rank(v, n) == Configs(n, |v| - 1) + Rank(v[|v| - 1 := v[|v| - 1] - 1], n - 1)
  {
    UpperSumBound(v, |v| - 1);
    SumUpdate(v, |v| - 1, v[|v| - 1] - 1);
  }

  /** The two ways IndexToFock proceeds, as single steps. */
  lemma UnrankAppend(k: nat, n: nat, m: nat)
    requires m >= 2 && k < Configs(n, m - 1)
    ensures Unrank(k, n, m) == Unrank(k, n, m - 1) + [0]
  {
  }

  lemma UnrankPeel(k: nat, n: nat, m: nat)
    requires m >= 2 && Configs(n, m - 1) <= k < Configs(n, m)
    ensures n >= 1 && k - Configs(n, m - 1) < Configs(n - 1, m)
    ensures Unrank(k, n, m) == Unrank(k - Configs(n, m - 1), n - 1, m)[m - 1 := Unrank(k - Configs(n, m - 1), n - 1, m)[m - 1] + 1]
  {
  }

  /** Ranking undoes unranking: every index in range is reached. */
  lemma {:induction false} RankUnrank(k: nat, n: nat, m: nat)
    requires m >= 1 && k < Configs(n, m)
    ensures Indexable(Unrank(k, n, m), n)
    ensures Rank(Unrank(k, n, m), n) == k
    decreases m, n
  {
    var v := Unrank(k, n, m);
    UnrankIsConfig(k, n, m);
    ConfigIndexable(v, n, m);
    if m == 1 {
      assert Rank(v, n) == 0;
    } else if k < Configs(n, m - 1) {
      var w := Unrank(k, n, m - 1);
      UnrankAppend(k, n, m);
      assert v[..m - 1] == w;
      RankDrop(v, n);
      RankUnrank(k, n, m - 1);
    } else {
      var w := Unrank(k - Configs(n, m - 1), n - 1, m);
      UnrankPeel(k, n, m);
      assert v[m - 1 := v[m - 1] - 1] == w;
      RankPeel(v, n);
      RankUnrank(k - Configs(n, m - 1), n - 1, m);
    }
  }

  /** Unranking undoes ranking: every configuration has exactly the rank
      computed by FockToIndex. */
  lemma {:induction false} UnrankRank(v: seq<int>, n: nat, m: nat)
    requires IsConfig(v, n, m) && m >= 1
    ensures Indexable(v, n)
    ensures Unrank(Rank(v, n), n, m) == v
    decreases m, v[m - 1], 1
  {
    ConfigIndexable(v, n, m);
    if m == 1 {
      assert Sum(v) == Sum(v[..0]) + v[0];
      assert v == [n];
    } else if v[m - 1] == 0 {
      UnrankRankDrop(v, n, m);
    } else {
      UnrankRankPeel(v, n, m);
    }
  }

  lemma {:induction false} UnrankRankDrop(v: seq<int>, n: nat, m: nat)
    requires IsConfig(v, n, m) && m >= 2 && v[m - 1] == 0
    ensures Indexable(v, n)
    ensures Unrank(Rank(v, n), n, m) == v
    decreases m, v[m - 1], 0
  {
    ConfigIndexable(v, n, m);
    var k := Rank(v, n);
    var u := v[..m - 1];
    RankDrop(v, n);
    assert IsConfig(u, n, m - 1) by {
      assert Sum(v) == Sum(u) + v[m - 1];
    }
    UnrankRank(u, n, m - 1);
    UnrankAppend(k, n, m);
    assert u + [0] == v;
  }

  lemma {:induction false} UnrankRankPeel(v: seq<int>, n: nat, m: nat)
    requires IsConfig(v, n, m) && m >= 2 && v[m - 1] > 0
    ensures Indexable(v, n)
    ensures Unrank(Rank(v, n), n, m) == v
    decreases m, v[m - 1], 0
  {
    ConfigIndexable(v, n, m);
    var u := v[m - 1 := v[m - 1] - 1];
    RankPeel(v, n);
    var j := Rank(u, n - 1);
    assert Rank(v, n) == Configs(n, m - 1) + j;
    assert IsConfig(u, n - 1, m) by {
      SumUpdate(v, m - 1, v[m - 1] - 1);
    }
    UnrankRank(u, n - 1, m);
    assert Unrank(j, n - 1, m) == u;
    var k := Rank(v, n);
    UnrankPeel(k, n, m);
    assert k - Configs(n, m - 1) == j;
    RestoreLast(v, m - 1);
    assert Unrank(k, n, m) == u[m - 1 := u[m - 1] + 1];
  }

  /** Taking a particle out of orbital i and putting it back. */
  lemma RestoreLast(v: seq<int>, i: nat)
    requires i < |v|
    ensures var u := v[i := v[i] - 1]; u[i := u[i] + 1] == v
  {
    var u := v[i := v[i] - 1];
    assert u[i := u[i] + 1] == v[i := v[i]];
  }

  /** Index 0 is the configuration with every particle in orbital 0. */
  lemma {:induction false} UnrankZero(n: nat, m: nat)
    requires m >= 1
    ensures Unrank(0, n, m) == [n] + Zeros(m - 1)
    decreases m
  {
    if m > 1 {
      UnrankZero(n, m - 1);
      assert [n] + Zeros(m - 2) + [0] == [n] + Zeros(m - 1);
    }
  }

  /** Two configurations with the same index are equal. */
  lemma RankInjective(u: seq<int>, v: seq<int>, n: nat, m: nat)
    requires IsConfig(u, n, m) && IsConfig(v, n, m) && m >= 1
    requires Indexable(u, n) && Indexable(v, n)
    requires Rank(u, n) == Rank(v, n)
    ensures u == v
  {
    UnrankRank(u, n, m);
    UnrankRank(v, n, m);
  }

  /** The indices skipped when c particles of orbital i are counted, n
      particles being still unaccounted for before the first of them. */
  function Skipped(n: int, i: nat, c: nat): (r: nat)
    requires c <= n
    ensures c > 0 ==> r >= c
    decreases c
  {
    if c == 0 then 0 else Configs(n, i) + Skipped(n - 1, i, c - 1)
  }

  /** Counting all the particles of the last orbital at once, then dropping
      that orbital. */
  lemma {:induction false} RankPeelAll(w: seq<int>, n: int)
    requires Indexable(w, n) && |w| >= 2
    ensures 0 <= w[|w| - 1] <= n && Indexable(w[..|w| - 1], n - w[|w| - 1])
    ensures Rank(w, n) == Skipped(n, |w| - 1, w[|w| - 1]) + Rank(w[..|w| - 1], n - w[|w| - 1])
    decreases w[|w| - 1], 1
  {
    if w[|w| - 1] == 0 {
      RankDrop(w, n);
    } else {
      RankPeelOne(w, n);
    }
  }

  /** The step of RankPeelAll for an occupied last orbital: peel one
      particle, then the rest. */
  lemma {:induction false} RankPeelOne(w: seq<int>, n: int)
    requires Indexable(w, n) && |w| >= 2 && w[|w| - 1] > 0
    ensures 0 <= w[|w| - 1] <= n && Indexable(w[..|w| - 1], n - w[|w| - 1])
    ensures Rank(w, n) == Skipped(n, |w| - 1, w[|w| - 1]) + Rank(w[..|w| - 1], n - w[|w| - 1])
    decreases w[|w| - 1], 0
  {
    RankPeel(w, n);
    PeelShape(w);
    RankPeelAll(w[|w| - 1 := w[|w| - 1] - 1], n - 1);
    var u := w[|w| - 1 := w[|w| - 1] - 1];
    RankSame(u[..|u| - 1], n - 1 - u[|u| - 1], w[..|w| - 1], n - w[|w| - 1]);
    SkippedPeel(n, |w| - 1, w[|w| - 1]);
    SkippedSame(n - 1, |u| - 1, u[|u| - 1], |w| - 1, w[|w| - 1] - 1);
    AddSkipped(Rank(w, n), Configs(n, |w| - 1), Rank(u, n - 1), Skipped(n - 1, |u| - 1, u[|u| - 1]),
               Rank(w[..|w| - 1], n - w[|w| - 1]), Skipped(n, |w| - 1, w[|w| - 1]));
  }

  /** The first of c skipped particles adds NC(n, i). */
  lemma SkippedPeel(n: int, i: nat, c: nat)
    requires 0 < c <= n
    ensures Skipped(n, i, c) == Configs(n, i) + Skipped(n - 1, i, c - 1)
  {
  }

  /** Taking one particle out of the last orbital keeps the other orbitals. */
  lemma PeelShape(w: seq<int>)
    requires |w| >= 1
    ensures var u := w[|w| - 1 := w[|w| - 1] - 1];
      |u| == |w| && u[..|u| - 1] == w[..|w| - 1] && u[|u| - 1] == w[|w| - 1] - 1
  {
    var u := w[|w| - 1 := w[|w| - 1] - 1];
    assert u[..|u| - 1] == w[..|w| - 1];
  }

  /** Equal configurations with equal particle counts have equal ranks. */
  lemma RankSame(v: seq<int>, a: int, u: seq<int>, b: int)
    requires Indexable(v, a) && v == u && a == b
    ensures Indexable(u, b) && Rank(v, a) == Rank(u, b)
  {
  }

  /** Skipped read at equal arguments. */
  lemma SkippedSame(n: int, i: nat, c: nat, j: nat, d: nat)
    requires c <= n && i == j && c == d
    ensures Skipped(n, i, c) == Skipped(n, j, d)
  {
  }

  /** Peeling one particle adds c and leaves s1 + rest; so the whole
      orbital adds s = c + s1. */
  lemma AddSkipped(r: int, c: int, ru: int, s1: int, rest: int, s: int)
    requires r == c + ru && ru == s1 + rest && s == c + s1
    ensures r == s + rest
  {
  }

  /** The inner loop of the C FockToIndex: every particle of orbital i adds
      NC(n, i), n being the particles not yet counted. */
  method SkipOrbital(v: seq<int>, i: nat, n0: int, k0: nat, ncmat: seq<seq<nat>>, N: nat, M: nat)
    returns (k: nat, n: int)
    requires IsNCTable(ncmat, N, M) && 1 <= i < M && i < |v| && 0 <= v[i] <= n0 <= N
    ensures n == n0 - v[i] && k == k0 + Skipped(n0, i, v[i])
  {
    k, n := k0, n0;
    var left := v[i];
    while left > 0
      invariant 0 <= left <= n && n == n0 - (v[i] - left)
      invariant k + Skipped(n, i, left) == k0 + Skipped(n0, i, v[i])
      decreases left
    {
      k := k + ncmat[n][i];
      n := n - 1;
      left := left - 1;
    }
  }

  /** The C FockToIndex: the same walk as Rank, written as the nested loops
      of the program. */
  method FockToIndex(N: nat, M: nat, ncmat: seq<seq<nat>>, v: seq<int>) returns (k: nat)
    requires M >= 1 && |v| == M && Indexable(v, N) && IsNCTable(ncmat, N, M)
    ensures k == Rank(v, N)
    ensures k < Configs(N, M)
  {
    k := 0;
    var n: int := N;
    var i := M - 1;
    assert v[..i + 1] == v;
    while i > 0
      invariant 0 <= i < M && 0 <= n <= N
      invariant Indexable(v[..i + 1], n)
      invariant k + Rank(v[..i + 1], n) == Rank(v, N)
      decreases i
    {
      RankPeelAll(v[..i + 1], n);
      assert v[..i + 1][..i] == v[..i] && v[..i + 1][i] == v[i];
      k, n := SkipOrbital(v, i, n, k, ncmat, N, M);
      i := i - 1;
    }
  }

  /** w with u added to its first |u| entries. */
  function AddPrefix(w: seq<int>, u: seq<int>): (r: seq<int>)
    requires |u| <= |w|
    ensures |r| == |w|
    ensures forall j :: 0 <= j < |u| ==> r[j] == w[j] + u[j]
    ensures forall j :: |u| <= j < |w| ==> r[j] == w[j]
  {
    seq(|w|, j requires 0 <= j < |w| => if j < |u| then w[j] + u[j] else w[j])
  }

  /** Lowering the orbital: while the table says kk < NC(n, m), orbital m
      is empty and the search goes on at m - 1 (the ensures are written
      with m - 1 as the loop's next value). */
  lemma LowerStep(kk: nat, n: nat, m: nat, m0: nat, ncmat: seq<seq<nat>>, N: nat, M: nat)
    requires IsNCTable(ncmat, N, M) && n <= N && m <= m0 < M && kk < ncmat[n][m]
    requires kk < Configs(n, m0 + 1) && kk < Configs(n, m + 1)
    requires Unrank(kk, n, m0 + 1) == Unrank(kk, n, m + 1) + Zeros(m0 - m)
    ensures m >= 1 && kk < Configs(n, m - 1 + 1)
    ensures Unrank(kk, n, m0 + 1) == Unrank(kk, n, m - 1 + 1) + Zeros(m0 - (m - 1))
  {
    assert m != 0 by {
      assert ncmat[n][0] == 0;
    }
    assert kk < Configs(n, m);
    UnrankAppend(kk, n, m + 1);
    assert [0] + Zeros(m0 - m) == Zeros(m0 - (m - 1));
    assert m - 1 + 1 == m;
  }

  lemma AddPrefixZeros(v: seq<int>, u: seq<int>, j: nat)
    requires |u| + j <= |v|
    ensures AddPrefix(v, u + Zeros(j)) == AddPrefix(v, u)
  {
  }

  /** Putting one particle into orbital m. */
  lemma PeelStep(v: seq<int>, kk: nat, n: nat, m: nat)
    requires 1 <= m < |v| && Configs(n, m) <= kk < Configs(n, m + 1)
    ensures n >= 1 && kk - Configs(n, m) < Configs(n - 1, m + 1)
    ensures AddPrefix(v[m := v[m] + 1], Unrank(kk - Configs(n, m), n - 1, m + 1))
         == AddPrefix(v, Unrank(kk, n, m + 1))
  {
    UnrankPeel(kk, n, m + 1);
    AddPrefixBump(v, Unrank(kk - Configs(n, m), n - 1, m + 1), m);
  }

  /** Moving one particle of orbital m from the pending part to v. */
  lemma AddPrefixBump(v: seq<int>, u: seq<int>, m: nat)
    requires m < |u| <= |v|
    ensures AddPrefix(v[m := v[m] + 1], u) == AddPrefix(v, u[m := u[m] + 1])
  {
    var a, b := AddPrefix(v[m := v[m] + 1], u), AddPrefix(v, u[m := u[m] + 1]);
    forall j | 0 <= j < |v|
      ensures a[j] == b[j]
    {
    }
  }

  /** With index 0 left, the remaining particles all go to orbital 0. */
  lemma FinishStep(v: seq<int>, n: nat, m: nat)
    requires m < |v|
    ensures AddPrefix(v, Unrank(0, n, m + 1)) == v[0 := v[0] + n]
  {
    UnrankZero(n, m + 1);
  }

  /** The first inner loop of the C IndexToFock: lower the orbital m while
      the index is below NC(n, m). Orbital 0 is never reached, since
      NCmat[n][0] = 0 and the index is positive. */
  method LowerOrbital(kk: nat, n: nat, m0: nat, ncmat: seq<seq<nat>>, N: nat, M: nat)
    returns (m: nat)
    requires IsNCTable(ncmat, N, M) && n <= N && m0 < M
    requires 0 < kk < Configs(n, m0 + 1)
    ensures 1 <= m <= m0
    ensures Configs(n, m) <= kk < Configs(n, m + 1)
    ensures Unrank(kk, n, m0 + 1) == Unrank(kk, n, m + 1) + Zeros(m0 - m)
  {
    m := m0;
    assert Unrank(kk, n, m0 + 1) == Unrank(kk, n, m + 1) + Zeros(0);
    while kk < ncmat[n][m]
      invariant m <= m0 && kk < Configs(n, m + 1)
      invariant Unrank(kk, n, m0 + 1) == Unrank(kk, n, m + 1) + Zeros(m0 - m)
      decreases m
    {
      LowerStep(kk, n, m, m0, ncmat, N, M);
      m := m - 1;
    }
    LowerExit(kk, n, m, ncmat, N, M);
  }

  /** The search stops at an orbital m >= 1 with NC(n, m) <= kk: at m = 0
      the index would be below NC(n, 1) = 1, and it is positive. */
  lemma LowerExit(kk: nat, n: nat, m: nat, ncmat: seq<seq<nat>>, N: nat, M: nat)
    requires IsNCTable(ncmat, N, M) && n <= N && m <= M && 0 < kk < Configs(n, m + 1)
    requires kk >= ncmat[n][m]
    ensures 1 <= m && Configs(n, m) <= kk
  {
  }

  /** Filling orbital m: v plus the configuration of index kk of the n
      particles still pending in orbitals 0 .. m is the goal. */
  predicate FillState(v: seq<int>, kk: nat, n: nat, m: nat, M: nat, goal: seq<int>)
  {
    1 <= m < M && |v| == M && kk < Configs(n, m + 1) && AddPrefix(v, Unrank(kk, n, m + 1)) == goal
  }

  /** One particle goes to orbital m when the index is at least NC(n, m). */
  lemma FillAdvance(v: seq<int>, kk: nat, n: nat, m: nat, M: nat, goal: seq<int>)
    requires FillState(v, kk, n, m, M, goal) && kk >= Configs(n, m)
    ensures n >= 1 && FillState(v[m := v[m] + 1], kk - Configs(n, m), n - 1, m, M, goal)
  {
    PeelStep(v, kk, n, m);
  }

  /** The second inner loop of the C IndexToFock as a recursion: while
      the index is at least NC(n, m), one more particle goes to orbital m. */
  function FillLoop(v: seq<int>, kk: nat, n: nat, m: nat): (r: (seq<int>, nat, nat))
    requires 1 <= m < |v| && kk < Configs(n, m + 1)
    ensures |r.0| == |v| && r.2 <= n && r.1 <= kk && r.1 < Configs(r.2, m)
    ensures kk >= Configs(n, m) ==> r.1 < kk
    decreases kk
  {
    if kk >= Configs(n, m) then
      PeelBound(kk, n, m);
      FillLoop(v[m := v[m] + 1], kk - Configs(n, m), n - 1, m)
    else
      (v, kk, n)
  }

  lemma PeelBound(kk: nat, n: nat, m: nat)
    requires 1 <= m && Configs(n, m) <= kk < Configs(n, m + 1)
    ensures n >= 1 && kk - Configs(n, m) < Configs(n - 1, m + 1)
  {
  }

  /** What the recursion keeps: v plus the pending configuration is the goal. */
  lemma {:induction false} FillLoopKeeps(v: seq<int>, kk: nat, n: nat, m: nat, M: nat, goal: seq<int>)
    requires FillState(v, kk, n, m, M, goal)
    ensures var r := FillLoop(v, kk, n, m); FillState(r.0, r.1, r.2, m, M, goal)
    decreases kk
  {
    if kk >= Configs(n, m) {
      FillAdvance(v, kk, n, m, M, goal);
      FillLoopKeeps(v[m := v[m] + 1], kk - Configs(n, m), n - 1, m, M, goal);
    }
  }

  /** The second inner loop of the C IndexToFock: put particles into orbital
      m while subtracting NC(n, m) keeps the index non-negative. */
  method FillOrbital(v0: seq<int>, kk0: nat, n0: nat, m: nat, ncmat: seq<seq<nat>>, N: nat, M: nat)
    returns (v: seq<int>, kk: nat, n: nat)
    requires IsNCTable(ncmat, N, M) && n0 <= N && 1 <= m < M && |v0| == M
    requires kk0 < Configs(n0, m + 1)
    ensures (v, kk, n) == FillLoop(v0, kk0, n0, m)
  {
    v, kk, n := v0, kk0, n0;
    var x := kk - ncmat[n][m];
    while x >= 0
      invariant 1 <= m < |v| && n <= N && kk < Configs(n, m + 1)
      invariant x == kk - Configs(n, m)
      invariant FillLoop(v, kk, n, m) == FillLoop(v0, kk0, n0, m)
      decreases kk
    {
      PeelBound(kk, n, m);
      v := v[m := v[m] + 1];
      n := n - 1;
      kk := x;
      x := x - ncmat[n][m];
    }
  }

  /** One pass of the outer loop of the C IndexToFock: lower the orbital,
      then fill it. The index strictly decreases. */
  method PeelOrbital(v0: seq<int>, kk0: nat, n0: nat, m0: nat, ncmat: seq<seq<nat>>, N: nat, M: nat)
    returns (v: seq<int>, kk: nat, n: nat, m: nat)
    requires IsNCTable(ncmat, N, M) && n0 <= N && m0 < M && |v0| == M
    requires 0 < kk0 < Configs(n0, m0 + 1)
    ensures m < M && n <= N && |v| == M && kk < kk0 && kk < Configs(n, m + 1)
    ensures AddPrefix(v, Unrank(kk, n, m + 1)) == AddPrefix(v0, Unrank(kk0, n0, m0 + 1))
  {
    m := LowerOrbital(kk0, n0, m0, ncmat, N, M);
    AddPrefixZeros(v0, Unrank(kk0, n0, m + 1), m0 - m);
    v, kk, n := FillOrbital(v0, kk0, n0, m, ncmat, N, M);
    FillLoopKeeps(v0, kk0, n0, m, M, AddPrefix(v0, Unrank(kk0, n0, m + 1)));
  }

  /** The last loop of the C IndexToFock: the particles left go to orbital 0
      one at a time. */
  method FillFirst(v0: seq<int>, n: nat) returns (v: seq<int>)
    requires |v0| >= 1
    ensures v == v0[0 := v0[0] + n]
  {
    v := v0;
    var left := n;
    while left > 0
      invariant 0 <= left <= n && |v| == |v0|
      invariant v[0 := v[0] + left] == v0[0 := v0[0] + n]
    {
      v := v[0 := v[0] + 1];
      left := left - 1;
    }
    assert v[0 := v[0] + left] == v;
  }

  /** The C IndexToFock: lower the orbital until the index reaches NC(n, m),
      then put particles into that orbital while the index allows, and
      finally give the particles left to orbital 0. */
  method IndexToFock(k: nat, N: nat, M: nat, ncmat: seq<seq<nat>>) returns (v: seq<int>)
    requires M >= 1 && k < Configs(N, M) && IsNCTable(ncmat, N, M)
    ensures IsConfig(v, N, M)
    ensures v == Unrank(k, N, M)
    ensures Indexable(v, N) && Rank(v, N) == k
  {
    ghost var target := Unrank(k, N, M);
    v := Zeros(M);
    var kk: nat := k;
    var n := N;
    var m := M - 1;
    assert AddPrefix(v, Unrank(kk, n, m + 1)) == target;
    while kk > 0
      invariant 0 <= m < M && 0 <= n <= N && |v| == M
      invariant kk < Configs(n, m + 1)
      invariant AddPrefix(v, Unrank(kk, n, m + 1)) == target
      decreases kk
    {
      v, kk, n, m := PeelOrbital(v, kk, n, m, ncmat, N, M);
    }
    assert kk == 0;
    FinishStep(v, n, m);
    v := FillFirst(v, n);
    assert v == target;
    UnrankIsConfig(k, N, M);
    RankUnrank(k, N, M);
  }

  /** The configurations in the order of their indices, as stored in the
      table IF of the program. */
  predicate IsFockTable(IF: seq<seq<int>>, N: nat, M: nat)
  {
    M >= 1 && |IF| == Configs(N, M) &&
    forall k :: 0 <= k < |IF| ==> IF[k] == Unrank(k, N, M)
  }

  /** Row k of a Fock table is a configuration whose index is k. */
  lemma FockTableRow(IF: seq<seq<int>>, N: nat, M: nat, k: int)
    requires IsFockTable(IF, N, M) && 0 <= k < |IF|
    ensures IsConfig(IF[k], N, M) && Indexable(IF[k], N) && Rank(IF[k], N) == k
  {
    UnrankIsConfig(k, N, M);
    RankUnrank(k, N, M);
  }

  /** Every configuration appears in a Fock table, at its own index. */
  lemma FockTableComplete(IF: seq<seq<int>>, N: nat, M: nat, v: seq<int>)
    requires IsFockTable(IF, N, M) && IsConfig(v, N, M)
    ensures Indexable(v, N) && Rank(v, N) < |IF| && IF[Rank(v, N)] == v
  {
    UnrankRank(v, N, M);
  }

  /** MountFocks: row k of the table is the configuration of index k, so
      the rows are pairwise distinct configurations. */
  method MountFocks(N: nat, M: nat, ncmat: seq<seq<nat>>) returns (IF: seq<seq<int>>)
    requires M >= 1 && IsNCTable(ncmat, N, M)
    ensures IsFockTable(IF, N, M)
    ensures forall k :: 0 <= k < |IF| ==> IsConfig(IF[k], N, M)
    ensures forall a, b :: 0 <= a < b < |IF| ==> IF[a] != IF[b]
  {
    IF := [];
    var k := 0;
    while k < NC(N, M)
      invariant 0 <= k <= Configs(N, M) && |IF| == k
      invariant forall j :: 0 <= j < k ==> IF[j] == Unrank(j, N, M)
    {
      var row := IndexToFock(k, N, M, ncmat);
      IF := IF + [row];
      k := k + 1;
    }
    forall k | 0 <= k < |IF|
      ensures IsConfig(IF[k], N, M)
    {
      FockTableRow(IF, N, M, k);
    }
    forall a, b | 0 <= a < b < |IF|
      ensures IF[a] != IF[b]
    {
      FockTableRow(IF, N, M, a);
      FockTableRow(IF, N, M, b);
    }
  }
}
