/** The scratch-vector discipline shared by applyHconf and the density
    matrices: to find the coefficient a creation/annihilation pair connects
    to, the program lowers one occupation, raises another, looks the
    resulting vector up with FockToIndex, and undoes the change. */
module Moves {
  import opened ComplexNumbers
  import opened Combinatorics
  import opened Fock

  /** `v[a] -= 1; v[c] += 1`: one particle hops from orbital a to orbital c. */
  function Move1(v: seq<int>, a: int, c: int): (u: seq<int>)
    requires 0 <= a < |v| && 0 <= c < |v|
    ensures |u| == |v|
  {
    v[a := v[a] - 1][c := v[c] + 1]
  }

  /** A hop out of an occupied orbital into another one keeps a
      configuration of n particles: the looked-up index stays in range. */
  lemma MoveConfig(v: seq<int>, n: int, a: int, c: int)
    requires IsConfig(v, n, |v|) && 0 <= a < |v| && 0 <= c < |v|
    requires a != c && v[a] >= 1
    ensures IsConfig(Move1(v, a, c), n, |v|)
    ensures Move1(v, a, c)[a] == v[a] - 1 && Move1(v, a, c)[c] == v[c] + 1
    ensures forall t :: 0 <= t < |v| && t != a && t != c ==> Move1(v, a, c)[t] == v[t]
    ensures Indexable(Move1(v, a, c), n) && Rank(Move1(v, a, c), n) < Configs(n, |v|)
  {
    SumUpdate(v, a, v[a] - 1);
    SumUpdate(v[a := v[a] - 1], c, v[c] + 1);
    ConfigIndexable(Move1(v, a, c), n, |v|);
  }

  /** The restoring statements `v[a] += 1; v[c] -= 1` give back the vector
      the hop started from. */
  lemma MoveRestore(v: seq<int>, a: int, c: int)
    requires 0 <= a < |v| && 0 <= c < |v| && a != c
    ensures Move1(Move1(v, a, c), c, a) == v
  {
  }

  /** A hop into an orbital and back out of it is no hop at all, whatever
      the pair: the two restoring statements commute with the moves. */
  lemma DoubleMoveRestore(v: seq<int>, a: int, c: int, b: int, d: int)
    requires 0 <= a < |v| && 0 <= c < |v| && 0 <= b < |v| && 0 <= d < |v|
    requires a != c && b != d
    ensures Move1(Move1(Move1(Move1(v, a, c), b, d), d, b), c, a) == v
  {
    MoveRestore(Move1(v, a, c), b, d);
    MoveRestore(v, a, c);
  }

  /** C[FockToIndex(u)]: the coefficient of configuration u. Only
      configurations of n particles in |C| = NC(n, m) slots may be looked up. */
  function Lookup<T>(C: seq<T>, u: seq<int>, n: nat, m: nat): T
    requires m >= 1 && |C| == Configs(n, m) && IsConfig(u, n, m)
  {
    ConfigIndexable(u, n, m);
    C[Rank(u, n)]
  }

  /** Looking up a row of the Fock table gives the coefficient stored at
      that row. */
  lemma LookupRow<T>(C: seq<T>, IF: seq<seq<int>>, n: nat, m: nat, i: int)
    requires IsFockTable(IF, n, m) && |C| == |IF| && 0 <= i < |IF|
    ensures IsConfig(IF[i], n, m) && Lookup(C, IF[i], n, m) == C[i]
  {
    FockTableRow(IF, n, m, i);
  }

  /** The occupations of v as real numbers, v[k] at index k. */
  function Occupation(v: seq<int>): int -> real
  {
    k => if 0 <= k < |v| then v[k] as real else 0.0
  }

  /** Summing the occupations in the order of the loops gives the number of
      particles. */
  lemma {:induction false} SumROccupation(v: seq<int>)
    ensures SumR(0, |v|, Occupation(v)) == Sum(v) as real
    decreases |v|
  {
    var m := |v|;
    if m > 0 {
      var w := v[..m - 1];
      SumROccupation(w);
      SumRExt(0, m - 1, Occupation(w), Occupation(v));
      SumRLast(0, m - 1, Occupation(v));
    }
  }
}
