/** The reduced density matrices of a state C in the Fock basis: OBrho, the
    one-body matrix rho[k][l] = <a_k^+ a_l>, and TBrho, the two-body array
    rho2[k + sM + qM^2 + lM^3] = <a_k^+ a_s^+ a_q a_l>. Each element is a sum
    over the configurations i of conj(C[i]) C[j] times a ladder factor, j being
    the configuration the operators lead to from i. */
module Density {
  import opened ComplexNumbers
  import opened Combinatorics
  import opened Fock
  import opened Layout
  import opened Moves

  /** A state: coefficients C indexed like the rows of the Fock table IF. */
  predicate State(N: nat, M: nat, IF: seq<seq<int>>, C: seq<Complex>)
  {
    IsFockTable(IF, N, M) && |C| == |IF|
  }

  /** |C[i]|^2, the weight of configuration i. */
  function Weight(C: seq<Complex>): int -> real
  {
    i => if 0 <= i < |C| then Norm2(C[i]) else 0.0
  }

  // ---------------------------------------------------------------------
  // One-body density matrix.
  // ---------------------------------------------------------------------

  /** |C[i]|^2 IF[i][k]: the weight of configuration i times its occupation
      of orbital k. */
  function Occupied(N: nat, M: nat, IF: seq<seq<int>>, C: seq<Complex>): (int, int) -> real
    requires State(N, M, IF, C)
  {
    (i, k) => if 0 <= i < |C| && 0 <= k < M then Norm2(C[i]) * IF[i][k] as real else 0.0
  }

  /** conj(C[i]) C[j] sqrt((v[l] + 1) v[k]) for the hop k -> l out of
      configuration i; nothing when orbital k is empty. */
  function HopTerm(N: nat, M: nat, IF: seq<seq<int>>, C: seq<Complex>, sq: int -> real, k: int, l: int, i: int): Complex
    requires State(N, M, IF, C) && 0 <= k < M && 0 <= l < M && k != l && 0 <= i < |C|
  {
    FockTableRow(IF, N, M, i);
    var v := IF[i];
    if v[k] < 1 then Zero
    else
      MoveConfig(v, N, k, l);
      Scale(sq((v[l] + 1) * v[k]), Mul(Conj(C[i]), Lookup(C, Move1(v, k, l), N, M)))
  }

  function HopFn(N: nat, M: nat, IF: seq<seq<int>>, C: seq<Complex>, sq: int -> real, k: int, l: int): int -> Complex
    requires State(N, M, IF, C) && 0 <= k < M && 0 <= l < M && k != l
  {
    i => if 0 <= i < |C| then HopTerm(N, M, IF, C, sq, k, l, i) else Zero
  }

  /** The diagonal element rho[k][k] = sum over i of |C[i]|^2 IF[i][k]. */
  function OBDiagonal(N: nat, M: nat, IF: seq<seq<int>>, C: seq<Complex>, k: int): Complex
    requires State(N, M, IF, C) && 0 <= k < M
  {
    FromReal(SumR(0, |C|, Col(Occupied(N, M, IF, C), k)))
  }

  /** The element above the diagonal, rho[k][l] with k < l. */
  function OBUpper(N: nat, M: nat, IF: seq<seq<int>>, C: seq<Complex>, sq: int -> real, k: int, l: int): Complex
    requires State(N, M, IF, C) && 0 <= k < l < M
  {
    SumC(0, |C|, HopFn(N, M, IF, C, sq, k, l))
  }

  /** Element (k, l) of OBrho: the diagonal and the upper triangle are
      summed over the configurations, the lower triangle is filled with
      conjugates. */
  function OBEntry(N: nat, M: nat, IF: seq<seq<int>>, C: seq<Complex>, sq: int -> real, k: int, l: int): Complex
    requires State(N, M, IF, C) && 0 <= k < M && 0 <= l < M
  {
    if k == l then OBDiagonal(N, M, IF, C, k)
    else if k < l then OBUpper(N, M, IF, C, sq, k, l)
    else Conj(OBUpper(N, M, IF, C, sq, l, k))
  }

  function OBRow(N: nat, M: nat, IF: seq<seq<int>>, C: seq<Complex>, sq: int -> real, k: int): (row: seq<Complex>)
    requires State(N, M, IF, C) && 0 <= k < M
    ensures |row| == M
  {
    seq(M, l requires 0 <= l < M => OBEntry(N, M, IF, C, sq, k, l))
  }

  /** OBrho, the M x M one-body density matrix. */
  function OBrho(N: nat, M: nat, IF: seq<seq<int>>, C: seq<Complex>, sq: int -> real): (rho: seq<seq<Complex>>)
    requires State(N, M, IF, C)
    ensures |rho| == M && forall k :: 0 <= k < M ==> |rho[k]| == M
  {
    seq(M, k requires 0 <= k < M => OBRow(N, M, IF, C, sq, k))
  }

  /** The diagonal holds occupation numbers: real and non-negative. */
  lemma OBrhoDiagonalReal(N: nat, M: nat, IF: seq<seq<int>>, C: seq<Complex>, sq: int -> real, k: int)
    requires State(N, M, IF, C) && 0 <= k < M
    ensures OBrho(N, M, IF, C, sq)[k][k].im == 0.0
    ensures OBrho(N, M, IF, C, sq)[k][k].re >= 0.0
  {
    forall i | 0 <= i < |C|
      ensures Col(Occupied(N, M, IF, C), k)(i) >= 0.0
    {
      FockTableRow(IF, N, M, i);
      MulNonNegative(Norm2(C[i]), IF[i][k] as real);
    }
    SumRNonNegative(0, |C|, Col(Occupied(N, M, IF, C), k));
    assert OBrho(N, M, IF, C, sq)[k] == OBRow(N, M, IF, C, sq, k);
  }

  /** The whole matrix is Hermitian: rho[l][k] = conj(rho[k][l]). */
  lemma OBrhoHermitian(N: nat, M: nat, IF: seq<seq<int>>, C: seq<Complex>, sq: int -> real)
    requires State(N, M, IF, C)
    ensures forall k, l :: 0 <= k < M && 0 <= l < M ==>
      OBrho(N, M, IF, C, sq)[l][k] == Conj(OBrho(N, M, IF, C, sq)[k][l])
  {
    var rho := OBrho(N, M, IF, C, sq);
    forall k, l | 0 <= k < M && 0 <= l < M
      ensures rho[l][k] == Conj(rho[k][l])
    {
      assert rho[k] == OBRow(N, M, IF, C, sq, k);
      assert rho[l] == OBRow(N, M, IF, C, sq, l);
    }
  }

  /** Row i of Occupied sums to |C[i]|^2 N: configuration i holds N particles. */
  lemma OccupiedRow(N: nat, M: nat, IF: seq<seq<int>>, C: seq<Complex>, i: int)
    requires State(N, M, IF, C) && 0 <= i < |C|
    ensures RowSums(Occupied(N, M, IF, C), M)(i) == N as real * Weight(C)(i)
  {
    var f := Occupied(N, M, IF, C);
    FockTableRow(IF, N, M, i);
    SumROccupation(IF[i]);
    forall k | 0 <= k < M
      ensures Row(f, i)(k) == Norm2(C[i]) * Occupation(IF[i])(k)
    {
    }
    SumRScale(0, M, Norm2(C[i]), Occupation(IF[i]), Row(f, i));
  }

  /** The trace is N times the squared norm of the state. */
  lemma OBrhoTrace(N: nat, M: nat, IF: seq<seq<int>>, C: seq<Complex>, sq: int -> real)
    requires State(N, M, IF, C)
    ensures forall k :: 0 <= k < M ==>
      OBrho(N, M, IF, C, sq)[k][k] == FromReal(ColSums(Occupied(N, M, IF, C), |C|)(k))
    ensures SumR(0, M, ColSums(Occupied(N, M, IF, C), |C|)) == N as real * SumR(0, |C|, Weight(C))
  {
    var f := Occupied(N, M, IF, C);
    SumRSwap(|C|, M, f);
    forall i | 0 <= i < |C|
      ensures RowSums(f, M)(i) == N as real * Weight(C)(i)
    {
      OccupiedRow(N, M, IF, C, i);
    }
    SumRScale(0, |C|, N as real, Weight(C), RowSums(f, M));
    forall k | 0 <= k < M
      ensures OBrho(N, M, IF, C, sq)[k][k] == FromReal(ColSums(f, |C|)(k))
    {
      assert OBrho(N, M, IF, C, sq)[k] == OBRow(N, M, IF, C, sq, k);
    }
  }

  // ---------------------------------------------------------------------
  // Two-body density matrix.
  // ---------------------------------------------------------------------

  /** The operator a_k^+ a_s^+ a_q a_l whose expectation each rule of TBrho
      sums, named after the rule: Rule1(k) is (k, k, k, k), Rule2(k, s) is
      (k, s, k, s), Rule3(k, q) is (k, k, q, q), Rule4(k, l) is (k, k, k, l),
      Rule5(k, s) is (k, s, s, s), Rule6(k, q, l) is (k, k, q, l),
      Rule7(k, s, l) is (k, s, s, l) and Rule8(k, s, q, l) has four
      different orbitals. */
  datatype Op =
    | Rule1(k: int)
    | Rule2(k: int, s: int)
    | Rule3(k: int, q: int)
    | Rule4(k: int, l: int)
    | Rule5(k: int, s: int)
    | Rule6(k: int, q: int, l: int)
    | Rule7(k: int, s: int, l: int)
    | Rule8(k: int, s: int, q: int, l: int)

  predicate InRange(M: int, x: int) { 0 <= x < M }

  /** The orbitals are in range and the ones the rule moves particles
      between are different. */
  predicate OpValid(op: Op, M: int)
  {
    match op
    case Rule1(k) => InRange(M, k)
    case Rule2(k, s) => InRange(M, k) && InRange(M, s)
    case Rule3(k, q) => InRange(M, k) && InRange(M, q) && k != q
    case Rule4(k, l) => InRange(M, k) && InRange(M, l) && k != l
    case Rule5(k, s) => InRange(M, k) && InRange(M, s) && k != s
    case Rule6(k, q, l) => InRange(M, k) && InRange(M, q) && InRange(M, l) && k != q && k != l
    case Rule7(k, s, l) => InRange(M, k) && InRange(M, s) && InRange(M, l) && k != l
    case Rule8(k, s, q, l) =>
      InRange(M, k) && InRange(M, s) && InRange(M, q) && InRange(M, l) &&
      k != s && k != q && k != l && s != q && s != l && q != l
  }

  /** conj(C[i]) C[j] sqrtOf, j being the configuration reached from i. */
  function Transition(N: nat, M: nat, C: seq<Complex>, i: int, u: seq<int>, x: real): Complex
    requires M >= 1 && |C| == Configs(N, M) && 0 <= i < |C| && IsConfig(u, N, M)
  {
    Scale(x, Mul(Conj(C[i]), Lookup(C, u, N, M)))
  }

  /** |C[i]|^2 n_k (n_k - 1): rule 1's value for configuration i. */
  function SameValue(C: seq<Complex>, v: seq<int>, i: int, k: int): real
    requires 0 <= i < |C| && 0 <= k < |v|
  {
    Norm2(C[i]) * (v[k] * (v[k] - 1)) as real
  }

  /** |C[i]|^2 n_k n_s: rule 2's value for configuration i. */
  function PairValue(C: seq<Complex>, v: seq<int>, i: int, k: int, s: int): real
    requires 0 <= i < |C| && 0 <= k < |v| && 0 <= s < |v|
  {
    Norm2(C[i]) * (v[k] * v[s]) as real
  }

  function Term1(N: nat, M: nat, C: seq<Complex>, v: seq<int>, i: int, k: int): Complex
    requires |C| == Configs(N, M) && 0 <= i < |C| && IsConfig(v, N, M) && InRange(M, k)
  {
    FromReal(SameValue(C, v, i, k))
  }

  function Term2(N: nat, M: nat, C: seq<Complex>, v: seq<int>, i: int, k: int, s: int): Complex
    requires |C| == Configs(N, M) && 0 <= i < |C| && IsConfig(v, N, M) && InRange(M, k) && InRange(M, s)
  {
    FromReal(PairValue(C, v, i, k, s))
  }

  function Term3(N: nat, M: nat, C: seq<Complex>, sq: int -> real, v: seq<int>, i: int, k: int, q: int): Complex
    requires M >= 1 && |C| == Configs(N, M) && 0 <= i < |C| && IsConfig(v, N, M)
    requires InRange(M, k) && InRange(M, q) && k != q
  {
    if v[k] < 2 then Zero
    else
      MoveConfig(v, N, k, q);
      MoveConfig(Move1(v, k, q), N, k, q);
      Transition(N, M, C, i, Move1(Move1(v, k, q), k, q), sq((v[k] - 1) * v[k] * (v[q] + 1) * (v[q] + 2)))
  }

  function Term4(N: nat, M: nat, C: seq<Complex>, sq: int -> real, v: seq<int>, i: int, k: int, l: int): Complex
    requires M >= 1 && |C| == Configs(N, M) && 0 <= i < |C| && IsConfig(v, N, M)
    requires InRange(M, k) && InRange(M, l) && k != l
  {
    if v[k] < 1 then Zero
    else
      MoveConfig(v, N, k, l);
      Transition(N, M, C, i, Move1(v, k, l), (v[k] - 1) as real * sq(v[k] * (v[l] + 1)))
  }

  function Term5(N: nat, M: nat, C: seq<Complex>, sq: int -> real, v: seq<int>, i: int, k: int, s: int): Complex
    requires M >= 1 && |C| == Configs(N, M) && 0 <= i < |C| && IsConfig(v, N, M)
    requires InRange(M, k) && InRange(M, s) && k != s
  {
    if v[k] < 1 then Zero
    else
      MoveConfig(v, N, k, s);
      Transition(N, M, C, i, Move1(v, k, s), v[s] as real * sq(v[k] * (v[s] + 1)))
  }

  function Term6(N: nat, M: nat, C: seq<Complex>, sq: int -> real, v: seq<int>, i: int, k: int, q: int, l: int): Complex
    requires M >= 1 && |C| == Configs(N, M) && 0 <= i < |C| && IsConfig(v, N, M)
    requires InRange(M, k) && InRange(M, q) && InRange(M, l) && k != q && k != l
  {
    if v[k] < 2 then Zero
    else
      MoveConfig(v, N, k, l);
      MoveConfig(Move1(v, k, l), N, k, q);
      Transition(N, M, C, i, Move1(Move1(v, k, l), k, q), sq(v[k] * (v[k] - 1) * (v[q] + 1) * (v[l] + 1)))
  }

  function Term7(N: nat, M: nat, C: seq<Complex>, sq: int -> real, v: seq<int>, i: int, k: int, s: int, l: int): Complex
    requires M >= 1 && |C| == Configs(N, M) && 0 <= i < |C| && IsConfig(v, N, M)
    requires InRange(M, k) && InRange(M, s) && InRange(M, l) && k != l
  {
    if v[k] < 1 then Zero
    else
      MoveConfig(v, N, k, l);
      Transition(N, M, C, i, Move1(v, k, l), v[s] as real * sq(v[k] * (v[l] + 1)))
  }

  function Term8(N: nat, M: nat, C: seq<Complex>, sq: int -> real, v: seq<int>, i: int, k: int, s: int, q: int, l: int): Complex
    requires M >= 1 && |C| == Configs(N, M) && 0 <= i < |C| && IsConfig(v, N, M)
    requires OpValid(Rule8(k, s, q, l), M)
  {
    if v[k] < 1 || v[s] < 1 then Zero
    else
      MoveConfig(v, N, k, q);
      MoveConfig(Move1(v, k, q), N, s, l);
      Transition(N, M, C, i, Move1(Move1(v, k, q), s, l), sq(v[k] * v[s] * (v[q] + 1) * (v[l] + 1)))
  }

  /** The contribution of configuration i to the expectation of op. */
  function OpTerm(N: nat, M: nat, IF: seq<seq<int>>, C: seq<Complex>, sq: int -> real, op: Op, i: int): Complex
    requires State(N, M, IF, C) && OpValid(op, M) && 0 <= i < |C|
  {
    FockTableRow(IF, N, M, i);
    var v := IF[i];
    match op
    case Rule1(k) => Term1(N, M, C, v, i, k)
    case Rule2(k, s) => Term2(N, M, C, v, i, k, s)
    case Rule3(k, q) => Term3(N, M, C, sq, v, i, k, q)
    case Rule4(k, l) => Term4(N, M, C, sq, v, i, k, l)
    case Rule5(k, s) => Term5(N, M, C, sq, v, i, k, s)
    case Rule6(k, q, l) => Term6(N, M, C, sq, v, i, k, q, l)
    case Rule7(k, s, l) => Term7(N, M, C, sq, v, i, k, s, l)
    case Rule8(k, s, q, l) => Term8(N, M, C, sq, v, i, k, s, q, l)
  }

  function OpFn(N: nat, M: nat, IF: seq<seq<int>>, C: seq<Complex>, sq: int -> real, op: Op): int -> Complex
    requires State(N, M, IF, C) && OpValid(op, M)
  {
    i => if 0 <= i < |C| then OpTerm(N, M, IF, C, sq, op, i) else Zero
  }

  /** The value RHO one rule accumulates over all configurations. */
  function Expect(N: nat, M: nat, IF: seq<seq<int>>, C: seq<Complex>, sq: int -> real, op: Op): Complex
    requires State(N, M, IF, C) && OpValid(op, M)
  {
    SumC(0, |C|, OpFn(N, M, IF, C, sq, op))
  }

  function Min(x: int, y: int): int { if x < y then x else y }

  function Max(x: int, y: int): int { if x < y then y else x }

  /** The entry (a, b, c, d) of rho2 when the routine returns: which rule
      computed it, or which of the completing assignments (the "CC rules")
      copied it, conjugated or not, from a computed entry. */
  function TBEntry(N: nat, M: nat, IF: seq<seq<int>>, C: seq<Complex>, sq: int -> real, a: int, b: int, c: int, d: int): Complex
    requires State(N, M, IF, C) && InRange(M, a) && InRange(M, b) && InRange(M, c) && InRange(M, d)
  {
    var E := (op: Op) requires OpValid(op, M) => Expect(N, M, IF, C, sq, op);
    if a == b && b == c && c == d then E(Rule1(a))
    else if a != b && ((a == c && b == d) || (a == d && b == c)) then E(Rule2(Min(a, b), Max(a, b)))
    else if a == b && c == d then
      (if a < c then E(Rule3(a, c)) else Conj(E(Rule3(c, a))))
    else if a == b && (b == c || b == d) then
      // (m, m, m, o) or (m, m, o, m)
      var o := if b == c then d else c;
      if a < o then E(Rule4(a, o)) else Conj(E(Rule5(o, a)))
    else if c == d && (a == c || b == c) then
      // (m, o, m, m) or (o, m, m, m)
      var o := if a == c then b else a;
      if c < o then Conj(E(Rule4(c, o))) else E(Rule5(o, c))
    else if a == b then
      E(Rule6(a, Min(c, d), Max(c, d)))
    else if c == d then
      Conj(E(Rule6(c, Min(a, b), Max(a, b))))
    else if a == c || a == d || b == c || b == d then
      // one orbital p is both created and annihilated; x is created, y annihilated
      var p := if a == c || a == d then a else b;
      var x := if p == a then b else a;
      var y := if p == c then d else c;
      if x < y then E(Rule7(x, p, y)) else Conj(E(Rule7(y, p, x)))
    else E(Rule8(a, b, c, d))
  }

  /** TBrho: the flat array of M^4 entries. */
  function TBrho(N: nat, M: nat, IF: seq<seq<int>>, C: seq<Complex>, sq: int -> real): (rho: seq<Complex>)
    requires State(N, M, IF, C)
    ensures |rho| == Pow4(M)
  {
    seq(Pow4(M), t requires 0 <= t < Pow4(M) =>
      FlatOfDigits(M, t);
      var (a, b, c, d) := Digits(M, t);
      TBEntry(N, M, IF, C, sq, a, b, c, d))
  }

  /** Entry (a, b, c, d) is found at a + bM + cM^2 + dM^3, inside the array. */
  lemma TBrhoAt(N: nat, M: nat, IF: seq<seq<int>>, C: seq<Complex>, sq: int -> real, a: int, b: int, c: int, d: int)
    requires State(N, M, IF, C) && InRange(M, a) && InRange(M, b) && InRange(M, c) && InRange(M, d)
    ensures 0 <= FlatIndex(M, a, b, c, d) < |TBrho(N, M, IF, C, sq)|
    ensures TBrho(N, M, IF, C, sq)[FlatIndex(M, a, b, c, d)] == TBEntry(N, M, IF, C, sq, a, b, c, d)
  {
    FlatIndexBound(M, a, b, c, d);
    DigitsOfFlat(M, a, b, c, d);
  }

  /** n (n - 1) >= 0 for every occupation n >= 0. */
  lemma PairsNonNegative(n: int)
    requires n >= 0
    ensures n * (n - 1) >= 0
  {
    if n >= 1 {
      assert n * (n - 1) == n * n - n;
    }
  }

  lemma IntMulNonNegative(x: int, y: int)
    requires x >= 0 && y >= 0
    ensures x * y >= 0
  {
  }

  lemma SameValueNonNegative(C: seq<Complex>, v: seq<int>, i: int, k: int)
    requires 0 <= i < |C| && 0 <= k < |v| && v[k] >= 0
    ensures SameValue(C, v, i, k) >= 0.0
  {
    PairsNonNegative(v[k]);
    MulNonNegative(Norm2(C[i]), (v[k] * (v[k] - 1)) as real);
  }

  lemma PairValueNonNegative(C: seq<Complex>, v: seq<int>, i: int, k: int, s: int)
    requires 0 <= i < |C| && 0 <= k < |v| && 0 <= s < |v| && v[k] >= 0 && v[s] >= 0
    ensures PairValue(C, v, i, k, s) >= 0.0
  {
    IntMulNonNegative(v[k], v[s]);
    MulNonNegative(Norm2(C[i]), (v[k] * v[s]) as real);
  }

  /** The weight rule 1 accumulates: |C[i]|^2 n_k (n_k - 1). */
  function SameWeight(N: nat, M: nat, IF: seq<seq<int>>, C: seq<Complex>, k: int): int -> real
    requires State(N, M, IF, C) && InRange(M, k)
  {
    i => if 0 <= i < |C| then FockTableRow(IF, N, M, i); SameValue(C, IF[i], i, k)
         else 0.0
  }

  /** The weight rule 2 accumulates: |C[i]|^2 n_k n_s. */
  function PairWeight(N: nat, M: nat, IF: seq<seq<int>>, C: seq<Complex>, k: int, s: int): int -> real
    requires State(N, M, IF, C) && InRange(M, k) && InRange(M, s)
  {
    i => if 0 <= i < |C| then FockTableRow(IF, N, M, i); PairValue(C, IF[i], i, k, s)
         else 0.0
  }

  /** Rule 1 computes a real, non-negative number: a sum of |C[i]|^2 times
      numbers of pairs. */
  lemma SamePairsReal(N: nat, M: nat, IF: seq<seq<int>>, C: seq<Complex>, sq: int -> real, k: int)
    requires State(N, M, IF, C) && InRange(M, k)
    ensures Expect(N, M, IF, C, sq, Rule1(k)) == FromReal(SumR(0, |C|, SameWeight(N, M, IF, C, k)))
    ensures SumR(0, |C|, SameWeight(N, M, IF, C, k)) >= 0.0
  {
    var w := SameWeight(N, M, IF, C, k);
    forall i | 0 <= i < |C|
      ensures w(i) >= 0.0
      ensures OpFn(N, M, IF, C, sq, Rule1(k))(i) == FromReal(w(i))
    {
      FockTableRow(IF, N, M, i);
      var v := IF[i];
      assert w(i) == SameValue(C, v, i, k);
      assert OpFn(N, M, IF, C, sq, Rule1(k))(i) == Term1(N, M, C, v, i, k);
      SameValueNonNegative(C, v, i, k);
    }
    SumRNonNegative(0, |C|, w);
    SumCOfReals(0, |C|, OpFn(N, M, IF, C, sq, Rule1(k)), w);
  }

  /** Rule 2 computes a real, non-negative number. */
  lemma PairsReal(N: nat, M: nat, IF: seq<seq<int>>, C: seq<Complex>, sq: int -> real, k: int, s: int)
    requires State(N, M, IF, C) && InRange(M, k) && InRange(M, s)
    ensures Expect(N, M, IF, C, sq, Rule2(k, s)) == FromReal(SumR(0, |C|, PairWeight(N, M, IF, C, k, s)))
    ensures SumR(0, |C|, PairWeight(N, M, IF, C, k, s)) >= 0.0
  {
    var w := PairWeight(N, M, IF, C, k, s);
    forall i | 0 <= i < |C|
      ensures w(i) >= 0.0
      ensures OpFn(N, M, IF, C, sq, Rule2(k, s))(i) == FromReal(w(i))
    {
      FockTableRow(IF, N, M, i);
      var v := IF[i];
      assert w(i) == PairValue(C, v, i, k, s);
      assert OpFn(N, M, IF, C, sq, Rule2(k, s))(i) == Term2(N, M, C, v, i, k, s);
      PairValueNonNegative(C, v, i, k, s);
    }
    SumRNonNegative(0, |C|, w);
    SumCOfReals(0, |C|, OpFn(N, M, IF, C, sq, Rule2(k, s)), w);
  }

  /** Rule 2 writes one real, non-negative value to the four entries
      (k, s, k, s), (s, k, k, s), (s, k, s, k) and (k, s, s, k). */
  lemma TBrhoRule2(N: nat, M: nat, IF: seq<seq<int>>, C: seq<Complex>, sq: int -> real, k: int, s: int)
    requires State(N, M, IF, C) && 0 <= k < s < M
    ensures var x := TBEntry(N, M, IF, C, sq, k, s, k, s);
      x.im == 0.0 && x.re >= 0.0 &&
      TBEntry(N, M, IF, C, sq, s, k, k, s) == x && TBEntry(N, M, IF, C, sq, s, k, s, k) == x &&
      TBEntry(N, M, IF, C, sq, k, s, s, k) == x
  {
    PairsReal(N, M, IF, C, sq, k, s);
  }

  /** Rule 1 writes real, non-negative values on the diagonal (k, k, k, k). */
  lemma TBrhoRule1(N: nat, M: nat, IF: seq<seq<int>>, C: seq<Complex>, sq: int -> real, k: int)
    requires State(N, M, IF, C) && 0 <= k < M
    ensures TBEntry(N, M, IF, C, sq, k, k, k, k).im == 0.0
    ensures TBEntry(N, M, IF, C, sq, k, k, k, k).re >= 0.0
  {
    SamePairsReal(N, M, IF, C, sq, k);
  }

  /** Exchanging the two created (or the two annihilated) bosons of a rule-8
      term leads to the same configuration with the same factor. */
  lemma Rule8Exchange(N: nat, M: nat, IF: seq<seq<int>>, C: seq<Complex>, sq: int -> real, k: int, s: int, q: int, l: int)
    requires State(N, M, IF, C) && OpValid(Rule8(k, s, q, l), M)
    ensures Expect(N, M, IF, C, sq, Rule8(s, k, q, l)) == Expect(N, M, IF, C, sq, Rule8(k, s, q, l))
    ensures Expect(N, M, IF, C, sq, Rule8(k, s, l, q)) == Expect(N, M, IF, C, sq, Rule8(k, s, q, l))
  {
    var f := OpFn(N, M, IF, C, sq, Rule8(k, s, q, l));
    forall i | 0 <= i < |C|
      ensures OpFn(N, M, IF, C, sq, Rule8(s, k, q, l))(i) == f(i)
      ensures OpFn(N, M, IF, C, sq, Rule8(k, s, l, q))(i) == f(i)
    {
      FockTableRow(IF, N, M, i);
      Term8Exchange(N, M, C, sq, IF[i], i, k, s, q, l);
    }
    SumCExt(0, |C|, OpFn(N, M, IF, C, sq, Rule8(s, k, q, l)), f);
    SumCExt(0, |C|, OpFn(N, M, IF, C, sq, Rule8(k, s, l, q)), f);
  }

  lemma Term8Exchange(N: nat, M: nat, C: seq<Complex>, sq: int -> real, v: seq<int>, i: int, k: int, s: int, q: int, l: int)
    requires M >= 1 && |C| == Configs(N, M) && 0 <= i < |C| && IsConfig(v, N, M)
    requires OpValid(Rule8(k, s, q, l), M)
    ensures Term8(N, M, C, sq, v, i, s, k, q, l) == Term8(N, M, C, sq, v, i, k, s, q, l)
    ensures Term8(N, M, C, sq, v, i, k, s, l, q) == Term8(N, M, C, sq, v, i, k, s, q, l)
  {
    if v[k] >= 1 && v[s] >= 1 {
      var u := Move1(Move1(v, k, q), s, l);
      assert Move1(Move1(v, s, q), k, l) == u;
      assert Move1(Move1(v, k, l), s, q) == u;
      var a := v[k];
      var b := v[s];
      var c := v[q] + 1;
      var d := v[l] + 1;
      assert b * a * c * d == a * b * c * d;
      assert a * b * d * c == a * b * c * d;
    }
  }

  /** Bosonic exchange symmetry of rho2: swapping the two created orbitals
      or the two annihilated ones leaves every entry unchanged. */
  lemma TBrhoExchange(N: nat, M: nat, IF: seq<seq<int>>, C: seq<Complex>, sq: int -> real, a: int, b: int, c: int, d: int)
    requires State(N, M, IF, C) && InRange(M, a) && InRange(M, b) && InRange(M, c) && InRange(M, d)
    ensures TBEntry(N, M, IF, C, sq, b, a, c, d) == TBEntry(N, M, IF, C, sq, a, b, c, d)
    ensures TBEntry(N, M, IF, C, sq, a, b, d, c) == TBEntry(N, M, IF, C, sq, a, b, c, d)
  {
    if a != b && a != c && a != d && b != c && b != d && c != d {
      Rule8Exchange(N, M, IF, C, sq, a, b, c, d);
    }
  }

  /** Hermiticity of rho2, rho2(d, c, b, a) = conj rho2(a, b, c, d), for every
      entry with a repeated orbital: either both entries come from rules 1-2,
      which are real, or one is filled as the conjugate of the other. */
  lemma TBrhoHermitian(N: nat, M: nat, IF: seq<seq<int>>, C: seq<Complex>, sq: int -> real, a: int, b: int, c: int, d: int)
    requires State(N, M, IF, C) && InRange(M, a) && InRange(M, b) && InRange(M, c) && InRange(M, d)
    requires a == b || a == c || a == d || b == c || b == d || c == d
    ensures TBEntry(N, M, IF, C, sq, d, c, b, a) == Conj(TBEntry(N, M, IF, C, sq, a, b, c, d))
  {
    SamePairsReal(N, M, IF, C, sq, a);
    PairsReal(N, M, IF, C, sq, Min(a, b), Max(a, b));
  }
}
