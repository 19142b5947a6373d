/** applyHconf: the many-body Hamiltonian acting on a state given by its
    coefficients C in the Fock basis,

      (H C)[i] = sum over the rules of  h(k, l) or Hint(k, s, q, l)
                 * (ladder factor) * C[j],

    where j is the index of the configuration that the creation and
    annihilation operators of the term connect to configuration i. The
    rules enumerate the index patterns that can give a non-zero term; each
    checks a guard on the occupations, moves particles, looks the result
    up and restores the scratch vector. The square roots of the ladder
    factors are the parameter `sq`. */
module Hamiltonian {
  import opened ComplexNumbers
  import opened Combinatorics
  import opened Fock
  import opened Layout
  import opened Moves

  /** N particles in M orbitals, the one-body matrix Ho (M x M), the two-body
      elements Hint (M^4, flat layout) and the square root used for the
      ladder factors. */
  datatype Ham = Ham(N: nat, M: nat, Ho: seq<seq<Complex>>, Hint: seq<Complex>, sq: int -> real)

  predicate Valid(h: Ham)
  {
    h.M >= 1 && |h.Ho| == h.M && (forall k :: 0 <= k < h.M ==> |h.Ho[k]| == h.M) &&
    |h.Hint| == Pow4(h.M)
  }

  /** The state of one iteration of the loop over i: coefficients C,
      scratch occupation vector v = IF[i] and its own coefficient ci = C[i]. */
  predicate Fits(h: Ham, C: seq<Complex>, v: seq<int>)
  {
    Valid(h) && |C| == Configs(h.N, h.M) && IsConfig(v, h.N, h.M)
  }

  /** Hint[a + bM + cM^2 + dM^3]. */
  function H2(h: Ham, a: int, b: int, c: int, d: int): Complex
    requires Valid(h)
    requires 0 <= a < h.M && 0 <= b < h.M && 0 <= c < h.M && 0 <= d < h.M
  {
    FlatIndexBound(h.M, a, b, c, d);
    h.Hint[FlatIndex(h.M, a, b, c, d)]
  }

  /** The term `H * C[j] * sqrtOf` of the loops. */
  function Term(x: real, H: Complex, c: Complex): Complex
  {
    Scale(x, Mul(H, c))
  }

  // ---------------------------------------------------------------------
  // One-body part: for every occupied k, Ho[k][k] v[k] C[i] and the hops
  // k -> l with factor sqrt(v[k] (v[l] + 1)).
  // ---------------------------------------------------------------------

  function HopTerm(h: Ham, C: seq<Complex>, v: seq<int>, k: int, l: int): Complex
    requires Fits(h, C, v) && 0 <= k < h.M && 0 <= l < h.M && v[k] >= 1
  {
    if l == k then Zero
    else
      MoveConfig(v, h.N, k, l);
      Term(h.sq(v[k] * (v[l] + 1)), h.Ho[k][l], Lookup(C, Move1(v, k, l), h.N, h.M))
  }

  function HopFn(h: Ham, C: seq<Complex>, v: seq<int>, k: int): int -> Complex
    requires Fits(h, C, v) && 0 <= k < h.M && v[k] >= 1
  {
    l => if 0 <= l < h.M then HopTerm(h, C, v, k, l) else Zero
  }

  function OneBodyRow(h: Ham, C: seq<Complex>, v: seq<int>, ci: Complex, k: int): Complex
    requires Fits(h, C, v) && 0 <= k < h.M
  {
    if v[k] < 1 then Zero
    else Add(Scale(v[k] as real, Mul(h.Ho[k][k], ci)), SumC(0, h.M, HopFn(h, C, v, k)))
  }

  function OneBodyFn(h: Ham, C: seq<Complex>, v: seq<int>, ci: Complex): int -> Complex
    requires Fits(h, C, v)
  {
    k => if 0 <= k < h.M then OneBodyRow(h, C, v, ci, k) else Zero
  }

  function OneBody(h: Ham, C: seq<Complex>, v: seq<int>, ci: Complex): Complex
    requires Fits(h, C, v)
  {
    SumC(0, h.M, OneBodyFn(h, C, v, ci))
  }

  // ---------------------------------------------------------------------
  // Rules 1 and 2: creation and annihilation on the same orbitals; the
  // configuration is unchanged and the factors are integers.
  // ---------------------------------------------------------------------

  function Rule1Fn(h: Ham, C: seq<Complex>, v: seq<int>, ci: Complex): int -> Complex
    requires Fits(h, C, v)
  {
    k => if 0 <= k < h.M then Term((v[k] * (v[k] - 1)) as real, H2(h, k, k, k, k), ci) else Zero
  }

  function Rule2Term(h: Ham, C: seq<Complex>, v: seq<int>, ci: Complex, k: int, s: int): Complex
    requires Fits(h, C, v) && 0 <= k < h.M && 0 <= s < h.M
  {
    var x := (v[k] * v[s]) as real;
    Add(Add(Add(Term(x, H2(h, k, s, k, s), ci), Term(x, H2(h, s, k, k, s), ci)),
            Term(x, H2(h, s, k, s, k), ci)),
        Term(x, H2(h, k, s, s, k), ci))
  }

  function Rule2Fn(h: Ham, C: seq<Complex>, v: seq<int>, ci: Complex): (int, int) -> Complex
    requires Fits(h, C, v)
  {
    (k, s) => if 0 <= k < s < h.M then Rule2Term(h, C, v, ci, k, s) else Zero
  }

  // ---------------------------------------------------------------------
  // Rule 3: a pair moves from k to q.
  // ---------------------------------------------------------------------

  function Rule3Term(h: Ham, C: seq<Complex>, v: seq<int>, k: int, q: int): Complex
    requires Fits(h, C, v) && 0 <= k < h.M && 0 <= q < h.M
  {
    if v[k] < 2 || q == k then Zero
    else
      MoveConfig(v, h.N, k, q);
      MoveConfig(Move1(v, k, q), h.N, k, q);
      var u := Move1(Move1(v, k, q), k, q);
      Term(h.sq((v[k] - 1) * v[k] * (v[q] + 1) * (v[q] + 2)), H2(h, k, k, q, q), Lookup(C, u, h.N, h.M))
  }

  function Rule3Fn(h: Ham, C: seq<Complex>, v: seq<int>): (int, int) -> Complex
    requires Fits(h, C, v)
  {
    (k, q) => if 0 <= k < h.M && 0 <= q < h.M then Rule3Term(h, C, v, k, q) else Zero
  }

  // ---------------------------------------------------------------------
  // Rule 4: creation on k k, annihilation on k l: one particle k -> l.
  // ---------------------------------------------------------------------

  function Rule4Term(h: Ham, C: seq<Complex>, v: seq<int>, k: int, l: int): Complex
    requires Fits(h, C, v) && 0 <= k < h.M && 0 <= l < h.M
  {
    if v[k] < 2 || l == k then Zero
    else
      MoveConfig(v, h.N, k, l);
      var c := Lookup(C, Move1(v, k, l), h.N, h.M);
      var x := (v[k] - 1) as real * h.sq(v[k] * (v[l] + 1));
      Add(Term(x, H2(h, k, k, k, l), c), Term(x, H2(h, k, k, l, k), c))
  }

  function Rule4Fn(h: Ham, C: seq<Complex>, v: seq<int>): (int, int) -> Complex
    requires Fits(h, C, v)
  {
    (k, l) => if 0 <= k < h.M && 0 <= l < h.M then Rule4Term(h, C, v, k, l) else Zero
  }

  // ---------------------------------------------------------------------
  // Rule 5: creation on k s, annihilation on s s: one particle k -> s.
  // ---------------------------------------------------------------------

  function Rule5Term(h: Ham, C: seq<Complex>, v: seq<int>, k: int, s: int): Complex
    requires Fits(h, C, v) && 0 <= k < h.M && 0 <= s < h.M
  {
    if v[k] < 1 || s == k then Zero
    else
      MoveConfig(v, h.N, k, s);
      var c := Lookup(C, Move1(v, k, s), h.N, h.M);
      var x := v[s] as real * h.sq(v[k] * (v[s] + 1));
      Add(Term(x, H2(h, k, s, s, s), c), Term(x, H2(h, s, k, s, s), c))
  }

  function Rule5Fn(h: Ham, C: seq<Complex>, v: seq<int>): (int, int) -> Complex
    requires Fits(h, C, v)
  {
    (k, s) => if 0 <= k < h.M && 0 <= s < h.M then Rule5Term(h, C, v, k, s) else Zero
  }

  // ---------------------------------------------------------------------
  // Rule 6: creation on k k, annihilation on q l (q < l, both != k): two
  // particles leave k, one to q and one to l. The loops split the index
  // triples by the position of k: k < q < l, q < k < l, q < l < k.
  // ---------------------------------------------------------------------

  function Rule6Term(h: Ham, C: seq<Complex>, v: seq<int>, k: int, q: int, l: int): Complex
    requires Fits(h, C, v) && 0 <= k < h.M && 0 <= q < h.M && 0 <= l < h.M
    requires k != q && k != l
  {
    if v[k] < 2 then Zero
    else
      MoveConfig(v, h.N, k, l);
      MoveConfig(Move1(v, k, l), h.N, k, q);
      var c := Lookup(C, Move1(Move1(v, k, l), k, q), h.N, h.M);
      var x := h.sq(v[k] * (v[k] - 1) * (v[q] + 1) * (v[l] + 1));
      Add(Term(x, H2(h, k, k, q, l), c), Term(x, H2(h, k, k, l, q), c))
  }

  /** Rule 6.0, loops k, q, l with k < q < l. */
  function Rule60Fn(h: Ham, C: seq<Complex>, v: seq<int>): (int, int, int) -> Complex
    requires Fits(h, C, v)
  {
    (k, q, l) => if 0 <= k < q < l < h.M then Rule6Term(h, C, v, k, q, l) else Zero
  }

  /** Rule 6.1, loops q, k, l with q < k < l. */
  function Rule61Fn(h: Ham, C: seq<Complex>, v: seq<int>): (int, int, int) -> Complex
    requires Fits(h, C, v)
  {
    (q, k, l) => if 0 <= q < k < l < h.M then Rule6Term(h, C, v, k, q, l) else Zero
  }

  /** Rule 6.2, loops q, l, k with q < l < k. */
  function Rule62Fn(h: Ham, C: seq<Complex>, v: seq<int>): (int, int, int) -> Complex
    requires Fits(h, C, v)
  {
    (q, l, k) => if 0 <= q < l < k < h.M then Rule6Term(h, C, v, k, q, l) else Zero
  }

  // ---------------------------------------------------------------------
  // Rule 7: creation on k s, annihilation on q q (k < s, q != k, s): one
  // particle from k and one from s go to q. The loops split the triples by
  // the position of q: q < k < s, k < q < s, k < s < q.
  // ---------------------------------------------------------------------

  function Rule7Term(h: Ham, C: seq<Complex>, v: seq<int>, k: int, s: int, q: int): Complex
    requires Fits(h, C, v) && 0 <= k < h.M && 0 <= s < h.M && 0 <= q < h.M
    requires k != s && k != q && s != q
  {
    if v[k] < 1 || v[s] < 1 then Zero
    else
      MoveConfig(v, h.N, k, q);
      MoveConfig(Move1(v, k, q), h.N, s, q);
      var c := Lookup(C, Move1(Move1(v, k, q), s, q), h.N, h.M);
      var x := h.sq(v[k] * v[s] * (v[q] + 1) * (v[q] + 2));
      Add(Term(x, H2(h, k, s, q, q), c), Term(x, H2(h, s, k, q, q), c))
  }

  /** Rule 7.0, loops q, k, s with q < k < s. */
  function Rule70Fn(h: Ham, C: seq<Complex>, v: seq<int>): (int, int, int) -> Complex
    requires Fits(h, C, v)
  {
    (q, k, s) => if 0 <= q < k < s < h.M then Rule7Term(h, C, v, k, s, q) else Zero
  }

  /** Rule 7.1, loops k, q, s with k < q < s. */
  function Rule71Fn(h: Ham, C: seq<Complex>, v: seq<int>): (int, int, int) -> Complex
    requires Fits(h, C, v)
  {
    (k, q, s) => if 0 <= k < q < s < h.M then Rule7Term(h, C, v, k, s, q) else Zero
  }

  /** Rule 7.2, loops k, s, q with k < s < q. */
  function Rule72Fn(h: Ham, C: seq<Complex>, v: seq<int>): (int, int, int) -> Complex
    requires Fits(h, C, v)
  {
    (k, s, q) => if 0 <= k < s < q < h.M then Rule7Term(h, C, v, k, s, q) else Zero
  }

  // ---------------------------------------------------------------------
  // Rule 8: creation on k s, annihilation on s l: one particle k -> l
  // while s (occupied, different from both) is a spectator.
  // ---------------------------------------------------------------------

  function Rule8Term(h: Ham, C: seq<Complex>, v: seq<int>, s: int, k: int, l: int): Complex
    requires Fits(h, C, v) && 0 <= k < h.M && 0 <= s < h.M && 0 <= l < h.M
  {
    if v[s] < 1 || v[k] < 1 || k == s || l == k || l == s then Zero
    else
      MoveConfig(v, h.N, k, l);
      var c := Lookup(C, Move1(v, k, l), h.N, h.M);
      var x := v[s] as real * h.sq(v[k] * (v[l] + 1));
      Add(Add(Add(Term(x, H2(h, k, s, s, l), c), Term(x, H2(h, s, k, s, l), c)),
              Term(x, H2(h, s, k, l, s), c)),
          Term(x, H2(h, k, s, l, s), c))
  }

  function Rule8Fn(h: Ham, C: seq<Complex>, v: seq<int>): (int, int, int) -> Complex
    requires Fits(h, C, v)
  {
    (s, k, l) => if 0 <= s < h.M && 0 <= k < h.M && 0 <= l < h.M then Rule8Term(h, C, v, s, k, l) else Zero
  }

  // ---------------------------------------------------------------------
  // Rule 9: creation on k s, annihilation on q l, all four different.
  // ---------------------------------------------------------------------

  function Rule9Term(h: Ham, C: seq<Complex>, v: seq<int>, k: int, s: int, q: int, l: int): Complex
    requires Fits(h, C, v) && 0 <= k < h.M && 0 <= s < h.M && 0 <= q < h.M && 0 <= l < h.M
  {
    if v[k] < 1 || v[s] < 1 || s == k || q == s || q == k || l == k || l == s || l == q then Zero
    else
      MoveConfig(v, h.N, k, q);
      MoveConfig(Move1(v, k, q), h.N, s, l);
      var c := Lookup(C, Move1(Move1(v, k, q), s, l), h.N, h.M);
      Term(h.sq(v[k] * v[s] * (v[q] + 1) * (v[l] + 1)), H2(h, k, s, q, l), c)
  }

  function Rule9Fn(h: Ham, C: seq<Complex>, v: seq<int>): (int, int, int, int) -> Complex
    requires Fits(h, C, v)
  {
    (k, s, q, l) =>
      if 0 <= k < h.M && 0 <= s < h.M && 0 <= q < h.M && 0 <= l < h.M then Rule9Term(h, C, v, k, s, q, l)
      else Zero
  }

  /** The two-body contribution, rule by rule in the order of the program. */
  function TwoBody(h: Ham, C: seq<Complex>, v: seq<int>, ci: Complex): Complex
    requires Fits(h, C, v)
  {
    var M := h.M;
    var r1 := SumC(0, M, Rule1Fn(h, C, v, ci));
    var r2 := Sum2(0, M, Next, Rule2Fn(h, C, v, ci));
    var r3 := Sum2(0, M, Start, Rule3Fn(h, C, v));
    var r4 := Sum2(0, M, Start, Rule4Fn(h, C, v));
    var r5 := Sum2(0, M, Start, Rule5Fn(h, C, v));
    var r6 := Add(Add(Sum3(0, M, Next, Next, Rule60Fn(h, C, v)), Sum3(0, M, Next, Next, Rule61Fn(h, C, v))),
                  Sum3(0, M, Next, Next, Rule62Fn(h, C, v)));
    var r7 := Add(Add(Sum3(0, M, Next, Next, Rule70Fn(h, C, v)), Sum3(0, M, Next, Next, Rule71Fn(h, C, v))),
                  Sum3(0, M, Next, Next, Rule72Fn(h, C, v)));
    var r8 := Sum3(0, M, Start, Start, Rule8Fn(h, C, v));
    var r9 := Sum4(M, Rule9Fn(h, C, v));
    Add(Add(Add(Add(Add(Add(Add(Add(r1, r2), r3), r4), r5), r6), r7), r8), r9)
  }

  /** out[i]: the one-body and then the two-body contributions for
      configuration v = IF[i] with own coefficient ci = C[i]. */
  function HconfRow(h: Ham, C: seq<Complex>, v: seq<int>, ci: Complex): Complex
    requires Fits(h, C, v)
  {
    Add(OneBody(h, C, v, ci), TwoBody(h, C, v, ci))
  }

  function RowAt(h: Ham, C: seq<Complex>, IF: seq<seq<int>>, i: int): Complex
    requires Valid(h) && IsFockTable(IF, h.N, h.M) && |C| == |IF| && 0 <= i < |IF|
  {
    FockTableRow(IF, h.N, h.M, i);
    HconfRow(h, C, IF[i], C[i])
  }

  /** applyHconf: out[i] for every configuration i, each written once. */
  function ApplyHconf(h: Ham, C: seq<Complex>, IF: seq<seq<int>>): (out: seq<Complex>)
    requires Valid(h) && IsFockTable(IF, h.N, h.M) && |C| == |IF|
    ensures |out| == |C|
  {
    seq(|C|, i requires 0 <= i < |C| => RowAt(h, C, IF, i))
  }

  /** OrbConfDDT, coefficient part: dC/dt = -i H C. */
  function OrbConfDDT(h: Ham, C: seq<Complex>, IF: seq<seq<int>>): (dCdt: seq<Complex>)
    requires Valid(h) && IsFockTable(IF, h.N, h.M) && |C| == |IF|
    ensures |dCdt| == |C|
  {
    var out := ApplyHconf(h, C, IF);
    seq(|C|, i requires 0 <= i < |C| => Mul(Complex(0.0, -1.0), out[i]))
  }

  // ---------------------------------------------------------------------
  // Special Hamiltonians.
  // ---------------------------------------------------------------------

  predicate NoOneBody(h: Ham)
    requires Valid(h)
  {
    forall k, l :: 0 <= k < h.M && 0 <= l < h.M ==> h.Ho[k][l] == Zero
  }

  predicate IdentityOneBody(h: Ham)
    requires Valid(h)
  {
    forall k, l :: 0 <= k < h.M && 0 <= l < h.M ==> h.Ho[k][l] == (if k == l then One else Zero)
  }

  predicate NoTwoBody(h: Ham)
  {
    forall t :: 0 <= t < |h.Hint| ==> h.Hint[t] == Zero
  }

  /** Only the elements Hint(k, k, k, k) may be non-zero. */
  predicate OffSiteZero(h: Ham)
    requires Valid(h)
  {
    forall a, b, c, d ::
      (0 <= a < h.M && 0 <= b < h.M && 0 <= c < h.M && 0 <= d < h.M && !(a == b && b == c && c == d)) ==>
        H2(h, a, b, c, d) == Zero
  }

  /** A contact interaction: Hint(k, k, k, k) = g for every k, zero elsewhere. */
  predicate OnSite(h: Ham, g: Complex)
    requires Valid(h)
  {
    OffSiteZero(h) && forall k :: 0 <= k < h.M ==> H2(h, k, k, k, k) == g
  }

  /** n_k (n_k - 1), the number of ordered pairs of particles in orbital k. */
  function PairCount(v: seq<int>): int -> real
  {
    k => if 0 <= k < |v| then (v[k] * (v[k] - 1)) as real else 0.0
  }

  lemma TermZero(x: real, c: Complex)
    ensures Term(x, Zero, c) == Zero
  {
  }

  lemma NoTwoBodyOnSite(h: Ham)
    requires Valid(h) && NoTwoBody(h)
    ensures OnSite(h, Zero)
  {
    forall a, b, c, d | 0 <= a < h.M && 0 <= b < h.M && 0 <= c < h.M && 0 <= d < h.M
      ensures H2(h, a, b, c, d) == Zero
    {
      FlatIndexBound(h.M, a, b, c, d);
    }
  }

  /** Without a one-body operator the one-body part vanishes. */
  lemma OneBodyVanishes(h: Ham, C: seq<Complex>, v: seq<int>, ci: Complex)
    requires Fits(h, C, v) && NoOneBody(h)
    ensures OneBody(h, C, v, ci) == Zero
  {
    forall k | 0 <= k < h.M
      ensures OneBodyFn(h, C, v, ci)(k) == Zero
    {
      if v[k] >= 1 {
        forall l | 0 <= l < h.M
          ensures HopFn(h, C, v, k)(l) == Zero
        {
          if l != k {
            MoveConfig(v, h.N, k, l);
            TermZero(h.sq(v[k] * (v[l] + 1)), Lookup(C, Move1(v, k, l), h.N, h.M));
          }
        }
        SumCZero(0, h.M, HopFn(h, C, v, k));
      }
    }
    SumCZero(0, h.M, OneBodyFn(h, C, v, ci));
  }

  /** With Ho the identity, the one-body part counts the particles:
      sum over k of v[k] C[i] = N C[i]. The hops all carry Ho[k][l] = 0. */
  lemma OneBodyIdentity(h: Ham, C: seq<Complex>, v: seq<int>, ci: Complex)
    requires Fits(h, C, v) && IdentityOneBody(h)
    ensures OneBody(h, C, v, ci) == Scale(h.N as real, ci)
  {
    forall k | 0 <= k < h.M
      ensures OneBodyFn(h, C, v, ci)(k) == Scale(Occupation(v)(k), ci)
    {
      if v[k] >= 1 {
        forall l | 0 <= l < h.M
          ensures HopFn(h, C, v, k)(l) == Zero
        {
          if l != k {
            MoveConfig(v, h.N, k, l);
            TermZero(h.sq(v[k] * (v[l] + 1)), Lookup(C, Move1(v, k, l), h.N, h.M));
          }
        }
        SumCZero(0, h.M, HopFn(h, C, v, k));
      }
    }
    SumCScaled(0, h.M, OneBodyFn(h, C, v, ci), Occupation(v), ci);
    SumROccupation(v);
  }

  lemma Rule2Vanishes(h: Ham, C: seq<Complex>, v: seq<int>, ci: Complex)
    requires Fits(h, C, v) && OffSiteZero(h)
    ensures Sum2(0, h.M, Next, Rule2Fn(h, C, v, ci)) == Zero
  {
    forall k, s | 0 <= k < h.M && Next(k) <= s < h.M
      ensures Rule2Fn(h, C, v, ci)(k, s) == Zero
    {
      TermZero((v[k] * v[s]) as real, ci);
    }
    Sum2Zero(0, h.M, Next, Rule2Fn(h, C, v, ci));
  }

  lemma Rule3Vanishes(h: Ham, C: seq<Complex>, v: seq<int>)
    requires Fits(h, C, v) && OffSiteZero(h)
    ensures Sum2(0, h.M, Start, Rule3Fn(h, C, v)) == Zero
  {
    forall k, q | 0 <= k < h.M && Start(k) <= q < h.M
      ensures Rule3Fn(h, C, v)(k, q) == Zero
    {
      if v[k] >= 2 && q != k {
        MoveConfig(v, h.N, k, q);
        MoveConfig(Move1(v, k, q), h.N, k, q);
        TermZero(h.sq((v[k] - 1) * v[k] * (v[q] + 1) * (v[q] + 2)), Lookup(C, Move1(Move1(v, k, q), k, q), h.N, h.M));
      }
    }
    Sum2Zero(0, h.M, Start, Rule3Fn(h, C, v));
  }

  lemma Rule4Vanishes(h: Ham, C: seq<Complex>, v: seq<int>)
    requires Fits(h, C, v) && OffSiteZero(h)
    ensures Sum2(0, h.M, Start, Rule4Fn(h, C, v)) == Zero
  {
    forall k, l | 0 <= k < h.M && Start(k) <= l < h.M
      ensures Rule4Fn(h, C, v)(k, l) == Zero
    {
      if v[k] >= 2 && l != k {
        MoveConfig(v, h.N, k, l);
        TermZero((v[k] - 1) as real * h.sq(v[k] * (v[l] + 1)), Lookup(C, Move1(v, k, l), h.N, h.M));
      }
    }
    Sum2Zero(0, h.M, Start, Rule4Fn(h, C, v));
  }

  lemma Rule5Vanishes(h: Ham, C: seq<Complex>, v: seq<int>)
    requires Fits(h, C, v) && OffSiteZero(h)
    ensures Sum2(0, h.M, Start, Rule5Fn(h, C, v)) == Zero
  {
    forall k, s | 0 <= k < h.M && Start(k) <= s < h.M
      ensures Rule5Fn(h, C, v)(k, s) == Zero
    {
      if v[k] >= 1 && s != k {
        MoveConfig(v, h.N, k, s);
        TermZero(v[s] as real * h.sq(v[k] * (v[s] + 1)), Lookup(C, Move1(v, k, s), h.N, h.M));
      }
    }
    Sum2Zero(0, h.M, Start, Rule5Fn(h, C, v));
  }

  lemma Rule6TermVanishes(h: Ham, C: seq<Complex>, v: seq<int>, k: int, q: int, l: int)
    requires Fits(h, C, v) && OffSiteZero(h) && 0 <= k < h.M && 0 <= q < h.M && 0 <= l < h.M
    requires k != q && k != l
    ensures Rule6Term(h, C, v, k, q, l) == Zero
  {
    if v[k] >= 2 {
      MoveConfig(v, h.N, k, l);
      MoveConfig(Move1(v, k, l), h.N, k, q);
      TermZero(h.sq(v[k] * (v[k] - 1) * (v[q] + 1) * (v[l] + 1)), Lookup(C, Move1(Move1(v, k, l), k, q), h.N, h.M));
    }
  }

  lemma Rule6Vanishes(h: Ham, C: seq<Complex>, v: seq<int>)
    requires Fits(h, C, v) && OffSiteZero(h)
    ensures Sum3(0, h.M, Next, Next, Rule60Fn(h, C, v)) == Zero
    ensures Sum3(0, h.M, Next, Next, Rule61Fn(h, C, v)) == Zero
    ensures Sum3(0, h.M, Next, Next, Rule62Fn(h, C, v)) == Zero
  {
    forall a, b, c | 0 <= a < b < c < h.M
      ensures Rule60Fn(h, C, v)(a, b, c) == Zero
      ensures Rule61Fn(h, C, v)(a, b, c) == Zero
      ensures Rule62Fn(h, C, v)(a, b, c) == Zero
    {
      Rule6TermVanishes(h, C, v, a, b, c);
      Rule6TermVanishes(h, C, v, b, a, c);
      Rule6TermVanishes(h, C, v, c, a, b);
    }
    Sum3Zero(0, h.M, Next, Next, Rule60Fn(h, C, v));
    Sum3Zero(0, h.M, Next, Next, Rule61Fn(h, C, v));
    Sum3Zero(0, h.M, Next, Next, Rule62Fn(h, C, v));
  }

  lemma Rule7TermVanishes(h: Ham, C: seq<Complex>, v: seq<int>, k: int, s: int, q: int)
    requires Fits(h, C, v) && OffSiteZero(h) && 0 <= k < h.M && 0 <= s < h.M && 0 <= q < h.M
    requires k != s && k != q && s != q
    ensures Rule7Term(h, C, v, k, s, q) == Zero
  {
    if v[k] >= 1 && v[s] >= 1 {
      MoveConfig(v, h.N, k, q);
      MoveConfig(Move1(v, k, q), h.N, s, q);
      TermZero(h.sq(v[k] * v[s] * (v[q] + 1) * (v[q] + 2)), Lookup(C, Move1(Move1(v, k, q), s, q), h.N, h.M));
    }
  }

  lemma Rule7Vanishes(h: Ham, C: seq<Complex>, v: seq<int>)
    requires Fits(h, C, v) && OffSiteZero(h)
    ensures Sum3(0, h.M, Next, Next, Rule70Fn(h, C, v)) == Zero
    ensures Sum3(0, h.M, Next, Next, Rule71Fn(h, C, v)) == Zero
    ensures Sum3(0, h.M, Next, Next, Rule72Fn(h, C, v)) == Zero
  {
    forall a, b, c | 0 <= a < b < c < h.M
      ensures Rule70Fn(h, C, v)(a, b, c) == Zero
      ensures Rule71Fn(h, C, v)(a, b, c) == Zero
      ensures Rule72Fn(h, C, v)(a, b, c) == Zero
    {
      Rule7TermVanishes(h, C, v, b, c, a);
      Rule7TermVanishes(h, C, v, a, c, b);
      Rule7TermVanishes(h, C, v, a, b, c);
    }
    Sum3Zero(0, h.M, Next, Next, Rule70Fn(h, C, v));
    Sum3Zero(0, h.M, Next, Next, Rule71Fn(h, C, v));
    Sum3Zero(0, h.M, Next, Next, Rule72Fn(h, C, v));
  }

  lemma Rule8Vanishes(h: Ham, C: seq<Complex>, v: seq<int>)
    requires Fits(h, C, v) && OffSiteZero(h)
    ensures Sum3(0, h.M, Start, Start, Rule8Fn(h, C, v)) == Zero
  {
    forall s, k, l | 0 <= s < h.M && Start(s) <= k < h.M && Start(k) <= l < h.M
      ensures Rule8Fn(h, C, v)(s, k, l) == Zero
    {
      if v[s] >= 1 && v[k] >= 1 && k != s && l != k && l != s {
        MoveConfig(v, h.N, k, l);
        TermZero(v[s] as real * h.sq(v[k] * (v[l] + 1)), Lookup(C, Move1(v, k, l), h.N, h.M));
      }
    }
    Sum3Zero(0, h.M, Start, Start, Rule8Fn(h, C, v));
  }

  lemma Rule9Vanishes(h: Ham, C: seq<Complex>, v: seq<int>)
    requires Fits(h, C, v) && OffSiteZero(h)
    ensures Sum4(h.M, Rule9Fn(h, C, v)) == Zero
  {
    forall k, s, q, l | 0 <= k < h.M && 0 <= s < h.M && 0 <= q < h.M && 0 <= l < h.M
      ensures Rule9Fn(h, C, v)(k, s, q, l) == Zero
    {
      if v[k] >= 1 && v[s] >= 1 && s != k && q != s && q != k && l != k && l != s && l != q {
        MoveConfig(v, h.N, k, q);
        MoveConfig(Move1(v, k, q), h.N, s, l);
        TermZero(h.sq(v[k] * v[s] * (v[q] + 1) * (v[l] + 1)), Lookup(C, Move1(Move1(v, k, q), s, l), h.N, h.M));
      }
    }
    Sum4Zero(h.M, Rule9Fn(h, C, v));
  }

  /** For a contact interaction only rule 1 survives, and it is diagonal:
      the two-body part is g C[i] times the number of ordered pairs of
      particles sharing an orbital, sum over k of n_k (n_k - 1). */
  lemma TwoBodyOnSite(h: Ham, C: seq<Complex>, v: seq<int>, ci: Complex, g: Complex)
    requires Fits(h, C, v) && OnSite(h, g)
    ensures TwoBody(h, C, v, ci) == Scale(SumR(0, h.M, PairCount(v)), Mul(g, ci))
  {
    SumCScaled(0, h.M, Rule1Fn(h, C, v, ci), PairCount(v), Mul(g, ci));
    Rule2Vanishes(h, C, v, ci);
    Rule3Vanishes(h, C, v);
    Rule4Vanishes(h, C, v);
    Rule5Vanishes(h, C, v);
    Rule6Vanishes(h, C, v);
    Rule7Vanishes(h, C, v);
    Rule8Vanishes(h, C, v);
    Rule9Vanishes(h, C, v);
  }

  /** The zero Hamiltonian maps every state to the zero vector. */
  lemma HconfZero(h: Ham, C: seq<Complex>, IF: seq<seq<int>>)
    requires Valid(h) && IsFockTable(IF, h.N, h.M) && |C| == |IF|
    requires NoOneBody(h) && NoTwoBody(h)
    ensures forall i :: 0 <= i < |C| ==> ApplyHconf(h, C, IF)[i] == Zero
  {
    NoTwoBodyOnSite(h);
    forall i | 0 <= i < |C|
      ensures ApplyHconf(h, C, IF)[i] == Zero
    {
      FockTableRow(IF, h.N, h.M, i);
      OneBodyVanishes(h, C, IF[i], C[i]);
      TwoBodyOnSite(h, C, IF[i], C[i], Zero);
      TermZero(SumR(0, h.M, PairCount(IF[i])), C[i]);
    }
  }

  /** Free particles with Ho the identity: every configuration has energy N,
      so H C = N C. */
  lemma HconfFree(h: Ham, C: seq<Complex>, IF: seq<seq<int>>)
    requires Valid(h) && IsFockTable(IF, h.N, h.M) && |C| == |IF|
    requires IdentityOneBody(h) && NoTwoBody(h)
    ensures forall i :: 0 <= i < |C| ==> ApplyHconf(h, C, IF)[i] == Scale(h.N as real, C[i])
  {
    NoTwoBodyOnSite(h);
    forall i | 0 <= i < |C|
      ensures ApplyHconf(h, C, IF)[i] == Scale(h.N as real, C[i])
    {
      FockTableRow(IF, h.N, h.M, i);
      OneBodyIdentity(h, C, IF[i], C[i]);
      TwoBodyOnSite(h, C, IF[i], C[i], Zero);
      TermZero(SumR(0, h.M, PairCount(IF[i])), C[i]);
    }
  }

  /** A pure contact interaction is diagonal in the Fock basis: configuration
      i picks up g times its number of ordered same-orbital pairs. */
  lemma HconfContact(h: Ham, C: seq<Complex>, IF: seq<seq<int>>, g: Complex)
    requires Valid(h) && IsFockTable(IF, h.N, h.M) && |C| == |IF|
    requires NoOneBody(h) && OnSite(h, g)
    ensures forall i :: 0 <= i < |C| ==>
      ApplyHconf(h, C, IF)[i] == Scale(SumR(0, h.M, PairCount(IF[i])), Mul(g, C[i]))
  {
    forall i | 0 <= i < |C|
      ensures ApplyHconf(h, C, IF)[i] == Scale(SumR(0, h.M, PairCount(IF[i])), Mul(g, C[i]))
    {
      FockTableRow(IF, h.N, h.M, i);
      OneBodyVanishes(h, C, IF[i], C[i]);
      TwoBodyOnSite(h, C, IF[i], C[i], g);
    }
  }

  /** For free particles dC/dt = -i N C: every coefficient turns with the
      same phase velocity N. */
  lemma OrbConfDDTFree(h: Ham, C: seq<Complex>, IF: seq<seq<int>>)
    requires Valid(h) && IsFockTable(IF, h.N, h.M) && |C| == |IF|
    requires IdentityOneBody(h) && NoTwoBody(h)
    ensures forall i :: 0 <= i < |C| ==>
      OrbConfDDT(h, C, IF)[i] == Mul(Complex(0.0, -1.0), Scale(h.N as real, C[i]))
  {
    HconfFree(h, C, IF);
  }

  /** The zero Hamiltonian leaves every coefficient at rest. */
  lemma OrbConfDDTZero(h: Ham, C: seq<Complex>, IF: seq<seq<int>>)
    requires Valid(h) && IsFockTable(IF, h.N, h.M) && |C| == |IF|
    requires NoOneBody(h) && NoTwoBody(h)
    ensures forall i :: 0 <= i < |C| ==> OrbConfDDT(h, C, IF)[i] == Zero
  {
    HconfZero(h, C, IF);
  }
}
