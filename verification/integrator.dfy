/** The control logic of the time integrators: the fourth-order Runge-Kutta
    stage combination (RK4step, IRK4step), the seeding of the orbital stages in
    the two Lanczos hybrids, the method-flag dispatch and the boundary overwrite
    of the split-step driver, its recording cadence, and the step-growth
    schedule of the imaginary-time driver.

    The state (coefficients and orbitals) is one vector: every Runge-Kutta
    operation is elementwise, so the coefficient array and the M rows of the
    orbital matrix are updated by the same formula. Right-hand sides, the
    Krylov propagation of the coefficients and the tridiagonal solvers are
    parameters. */
module Integrator {
  import opened ComplexNumbers
  import opened Layout
  import Banded

  type Vec = seq<Complex>

  function Half(dt: Complex): Complex { Scale(0.5, dt) }

  function Sixth(dt: Complex): Complex { Scale(1.0 / 6.0, dt) }

  function Zeros(n: nat): (r: Vec)
    ensures |r| == n && forall i :: 0 <= i < n ==> r[i] == Zero
  {
    seq(n, i => Zero)
  }

  /** x + k a, entry by entry: a stage argument, or the final update. */
  function Axpy(x: Vec, k: Vec, a: Complex): (r: Vec)
    requires |k| == |x|
    ensures |r| == |x|
  {
    seq(|x|, i requires 0 <= i < |x| => Add(x[i], Mul(k[i], a)))
  }

  /** K1 + 2 K2 + 2 K3 + K4, entry by entry. */
  function Weighted(k1: Vec, k2: Vec, k3: Vec, k4: Vec): (r: Vec)
    requires |k2| == |k1| && |k3| == |k1| && |k4| == |k1|
    ensures |r| == |k1|
  {
    seq(|k1|, i requires 0 <= i < |k1| => Add(Add(Add(k1[i], Scale(2.0, k2[i])), Scale(2.0, k3[i])), k4[i]))
  }

  /** A right-hand side that may depend on the stage (0 to 3) it is called
      in: the Lanczos hybrids feed a different coefficient vector to the
      orbital equation in different stages. */
  type StageRhs = (nat, Vec) -> Vec

  ghost predicate KeepsLength(F: StageRhs, n: nat)
  {
    forall s: nat, v: Vec :: s < 4 && |v| == n ==> |F(s, v)| == n
  }

  /** The classical fourth-order Runge-Kutta step, as a reference definition:
      stages at X, X + K1 dt/2, X + K2 dt/2 and X + K3 dt, then
      X + dt/6 (K1 + 2 K2 + 2 K3 + K4). */
  function Rk4(F: StageRhs, x: Vec, dt: Complex): (y: Vec)
    requires KeepsLength(F, |x|)
    ensures |y| == |x|
  {
    var k1 := F(0, x);
    var k2 := F(1, Axpy(x, k1, Half(dt)));
    var k3 := F(2, Axpy(x, k2, Half(dt)));
    var k4 := F(3, Axpy(x, k3, dt));
    Axpy(x, Weighted(k1, k2, k3, k4), Sixth(dt))
  }

  /** The stage loops of RK4step, IRK4step and of the orbital part of the
      Lanczos hybrids: the accumulator starts as K1 and receives 2 K2, 2 K3
      and K4, while the argument of the next stage is formed in the same
      loop; the state is then moved by the accumulator times dt/6. */
  method Rk4Stages(F: StageRhs, x: Vec, dt: Complex) returns (y: Vec)
    requires KeepsLength(F, |x|)
    ensures y == Rk4(F, x, dt)
  {
    var n := |x|;
    var k1 := F(0, x);
    var acc: Vec := [];
    var arg: Vec := [];
    var i := 0;
    while i < n
      invariant 0 <= i <= n && |acc| == i && |arg| == i
      invariant forall j :: 0 <= j < i ==> acc[j] == k1[j]
      invariant forall j :: 0 <= j < i ==> arg[j] == Add(x[j], Mul(k1[j], Half(dt)))
    {
      acc := acc + [k1[i]];
      arg := arg + [Add(x[i], Mul(k1[i], Half(dt)))];
      i := i + 1;
    }
    assert arg == Axpy(x, k1, Half(dt));
    var k2 := F(1, arg);
    var acc2: Vec := [];
    arg := [];
    i := 0;
    while i < n
      invariant 0 <= i <= n && |acc2| == i && |arg| == i
      invariant forall j :: 0 <= j < i ==> acc2[j] == Add(acc[j], Scale(2.0, k2[j]))
      invariant forall j :: 0 <= j < i ==> arg[j] == Add(x[j], Mul(k2[j], Half(dt)))
    {
      acc2 := acc2 + [Add(acc[i], Scale(2.0, k2[i]))];
      arg := arg + [Add(x[i], Mul(k2[i], Half(dt)))];
      i := i + 1;
    }
    assert arg == Axpy(x, k2, Half(dt));
    var k3 := F(2, arg);
    var acc3: Vec := [];
    arg := [];
    i := 0;
    while i < n
      invariant 0 <= i <= n && |acc3| == i && |arg| == i
      invariant forall j :: 0 <= j < i ==> acc3[j] == Add(acc2[j], Scale(2.0, k3[j]))
      invariant forall j :: 0 <= j < i ==> arg[j] == Add(x[j], Mul(k3[j], dt))
    {
      acc3 := acc3 + [Add(acc2[i], Scale(2.0, k3[i]))];
      arg := arg + [Add(x[i], Mul(k3[i], dt))];
      i := i + 1;
    }
    assert arg == Axpy(x, k3, dt);
    var k4 := F(3, arg);
    var acc4: Vec := [];
    i := 0;
    while i < n
      invariant 0 <= i <= n && |acc4| == i
      invariant forall j :: 0 <= j < i ==> acc4[j] == Add(acc3[j], k4[j])
    {
      acc4 := acc4 + [Add(acc3[i], k4[i])];
      i := i + 1;
    }
    assert acc4 == Weighted(k1, k2, k3, k4);
    y := [];
    i := 0;
    while i < n
      invariant 0 <= i <= n && |y| == i
      invariant forall j :: 0 <= j < i ==> y[j] == Add(x[j], Mul(acc4[j], Sixth(dt)))
    {
      y := y + [Add(x[i], Mul(acc4[i], Sixth(dt)))];
      i := i + 1;
    }
  }

  /** The right-hand side of RK4step and IRK4step: the same function in
      every stage. */
  function Uniform(f: Vec -> Vec): StageRhs
  {
    (s: nat, v: Vec) => f(v)
  }

  /** Two right-hand sides that agree on every argument of the right length
      give the same step. */
  lemma Rk4Ext(F: StageRhs, G: StageRhs, x: Vec, dt: Complex)
    requires KeepsLength(F, |x|)
    requires forall s: nat, v: Vec :: s < 4 && |v| == |x| ==> F(s, v) == G(s, v)
    ensures KeepsLength(G, |x|) && Rk4(F, x, dt) == Rk4(G, x, dt)
  {
  }

  /** With a right-hand side that vanishes the step leaves the state as it
      was. */
  lemma Rk4Stationary(F: StageRhs, x: Vec, dt: Complex)
    requires forall s: nat, v: Vec :: s < 4 && |v| == |x| ==> F(s, v) == Zeros(|x|)
    ensures KeepsLength(F, |x|) && Rk4(F, x, dt) == x
  {
    var k := Zeros(|x|);
    var w := Weighted(k, k, k, k);
    assert forall i :: 0 <= i < |x| ==> w[i] == Zero;
  }

  /** The linear right-hand side v |-> lam v, the test equation of
      Runge-Kutta methods. */
  function Linear(lam: Complex): StageRhs
  {
    (s: nat, v: Vec) => seq(|v|, i requires 0 <= i < |v| => Mul(lam, v[i]))
  }

  /** 1 + z + z^2/2 + z^3/6 + z^4/24 in Horner form: the Taylor polynomial of
      exp(z) to fourth order. */
  function Taylor4(z: Complex): Complex
  {
    Add(One, Mul(z, Add(One, Mul(Scale(0.5, z), Add(One, Mul(Scale(1.0 / 3.0, z), Add(One, Scale(0.25, z))))))))
  }

  /** The stage polynomials of the test equation, as multiples of z = lam dt,
      combine into the Taylor polynomial. */
  lemma StagePolynomial(z: Complex)
    ensures var p2 := Mul(z, Add(One, Scale(0.5, z)));
      var p3 := Mul(z, Add(One, Scale(0.5, p2)));
      var p4 := Mul(z, Add(One, p3));
      Add(One, Scale(1.0 / 6.0, Add(Add(Add(z, Scale(2.0, p2)), Scale(2.0, p3)), p4))) == Taylor4(z)
  {
    var z2 := Mul(z, z);
    var z3 := Mul(z, z2);
    var p2 := Mul(z, Add(One, Scale(0.5, z)));
    assert Add(One, Scale(0.5, z)) == Lin(1.0, 0.5, 0.0, 0.0, One, z, z2, z3);
    MulLin(z, 1.0, 0.5, 0.0, 0.0, z, z2, z3);
    var p3 := Mul(z, Add(One, Scale(0.5, p2)));
    assert Add(One, Scale(0.5, p2)) == Lin(1.0, 0.5, 0.25, 0.0, One, z, z2, z3);
    MulLin(z, 1.0, 0.5, 0.25, 0.0, z, z2, z3);
    assert Add(One, p3) == Lin(1.0, 1.0, 0.5, 0.25, One, z, z2, z3);
    MulLin(z, 1.0, 1.0, 0.5, 0.25, z, z2, z3);
    var t3 := Add(One, Scale(0.25, z));
    assert t3 == Lin(1.0, 0.25, 0.0, 0.0, One, z, z2, z3);
    ScaleMulLin(1.0 / 3.0, z, 1.0, 0.25, 0.0, 0.0, z, z2, z3);
    var t2 := Add(One, Mul(Scale(1.0 / 3.0, z), t3));
    assert t2 == Lin(1.0, 1.0 / 3.0, 1.0 / 12.0, 0.0, One, z, z2, z3);
    ScaleMulLin(0.5, z, 1.0, 1.0 / 3.0, 1.0 / 12.0, 0.0, z, z2, z3);
    var t1 := Add(One, Mul(Scale(0.5, z), t2));
    assert t1 == Lin(1.0, 0.5, 1.0 / 6.0, 1.0 / 24.0, One, z, z2, z3);
    MulLin(z, 1.0, 0.5, 1.0 / 6.0, 1.0 / 24.0, z, z2, z3);
  }

  /** The stage coefficients c_j with K_j = c_j x on the test equation
      combine into Taylor4(lam dt). */
  lemma AmplificationFactor(lam: Complex, dt: Complex)
    ensures var c1 := lam;
      var c2 := Mul(lam, Add(One, Mul(c1, Half(dt))));
      var c3 := Mul(lam, Add(One, Mul(c2, Half(dt))));
      var c4 := Mul(lam, Add(One, Mul(c3, dt)));
      Add(One, Mul(Add(Add(Add(c1, Scale(2.0, c2)), Scale(2.0, c3)), c4), Sixth(dt))) == Taylor4(Mul(lam, dt))
  {
    var z := Mul(lam, dt);
    var h := Half(dt);
    var c1 := lam;
    var c2 := Mul(lam, Add(One, Mul(c1, h)));
    var c3 := Mul(lam, Add(One, Mul(c2, h)));
    var c4 := Mul(lam, Add(One, Mul(c3, dt)));
    MulScale(c1, 0.5, dt);
    MulSwap(lam, Add(One, Mul(c1, h)), dt);
    MulScale(c2, 0.5, dt);
    MulSwap(lam, Add(One, Mul(c2, h)), dt);
    MulSwap(lam, Add(One, Mul(c3, dt)), dt);
    SumTimesSixth(c1, c2, c3, c4, dt);
    StagePolynomial(z);
  }

  lemma SumTimesSixth(a: Complex, b: Complex, c: Complex, e: Complex, d: Complex)
    ensures Mul(Add(Add(Add(a, Scale(2.0, b)), Scale(2.0, c)), e), Sixth(d))
         == Scale(1.0 / 6.0, Add(Add(Add(Mul(a, d), Scale(2.0, Mul(b, d))), Scale(2.0, Mul(c, d))), Mul(e, d)))
  {
  }

  /** x + (c x) a = (1 + c a) x */
  lemma Factor(x: Complex, c: Complex, a: Complex)
    ensures Add(x, Mul(Mul(c, x), a)) == Mul(Add(One, Mul(c, a)), x)
  {
  }

  /** On the test equation one step multiplies every entry by the same
      factor, the fourth-order Taylor polynomial of exp(lam dt): the step is
      fourth-order accurate. */
  lemma Rk4Linear(lam: Complex, x: Vec, dt: Complex)
    ensures KeepsLength(Linear(lam), |x|)
    ensures forall i :: 0 <= i < |x| ==> Rk4(Linear(lam), x, dt)[i] == Mul(Taylor4(Mul(lam, dt)), x[i])
  {
    var F := Linear(lam);
    assert KeepsLength(F, |x|);
    var h := Half(dt);
    var c1 := lam;
    var c2 := Mul(lam, Add(One, Mul(c1, h)));
    var c3 := Mul(lam, Add(One, Mul(c2, h)));
    var c4 := Mul(lam, Add(One, Mul(c3, dt)));
    var k1 := F(0, x);
    var a2 := Axpy(x, k1, h);
    var k2 := F(1, a2);
    var a3 := Axpy(x, k2, h);
    var k3 := F(2, a3);
    var a4 := Axpy(x, k3, dt);
    var k4 := F(3, a4);
    var w := Weighted(k1, k2, k3, k4);
    var y := Axpy(x, w, Sixth(dt));
    assert y == Rk4(F, x, dt);
    forall i | 0 <= i < |x|
      ensures y[i] == Mul(Taylor4(Mul(lam, dt)), x[i])
    {
      var xi := x[i];
      assert k1[i] == Mul(c1, xi);
      Factor(xi, c1, h);
      MulAssoc(lam, Add(One, Mul(c1, h)), xi);
      assert k2[i] == Mul(c2, xi) by {
        assert a2[i] == Mul(Add(One, Mul(c1, h)), xi);
      }
      Factor(xi, c2, h);
      MulAssoc(lam, Add(One, Mul(c2, h)), xi);
      assert k3[i] == Mul(c3, xi) by {
        assert a3[i] == Mul(Add(One, Mul(c2, h)), xi);
      }
      Factor(xi, c3, dt);
      MulAssoc(lam, Add(One, Mul(c3, dt)), xi);
      assert k4[i] == Mul(c4, xi) by {
        assert a4[i] == Mul(Add(One, Mul(c3, dt)), xi);
      }
      CombineStages(xi, c1, c2, c3, c4, Sixth(dt));
      AmplificationFactor(lam, dt);
    }
  }

  /** x + (c1 x + 2 c2 x + 2 c3 x + c4 x) a = (1 + (c1 + 2 c2 + 2 c3 + c4) a) x */
  lemma CombineStages(x: Complex, c1: Complex, c2: Complex, c3: Complex, c4: Complex, a: Complex)
    ensures Add(x, Mul(Add(Add(Add(Mul(c1, x), Scale(2.0, Mul(c2, x))), Scale(2.0, Mul(c3, x))), Mul(c4, x)), a))
         == Mul(Add(One, Mul(Add(Add(Add(c1, Scale(2.0, c2)), Scale(2.0, c3)), c4), a)), x)
  {
    var s := Add(Add(Add(c1, Scale(2.0, c2)), Scale(2.0, c3)), c4);
    assert Add(Add(Add(Mul(c1, x), Scale(2.0, Mul(c2, x))), Scale(2.0, Mul(c3, x))), Mul(c4, x)) == Mul(s, x);
    Factor(x, s, a);
  }

  /* ---------------------------------------------------------------------
     The Lanczos hybrids. The coefficients are first propagated over the
     half step in a Krylov space (not modelled: the new vector is a
     parameter); the orbital equation, whose right-hand side g(c, orb) needs
     a coefficient vector, is then integrated by the Runge-Kutta stages with
     the old coefficients in some stages and the new ones in the others.
     --------------------------------------------------------------------- */

  /** RK4lanczosAfter: the old coefficients seed K1, K2 and K3, the new ones
      K4. */
  function AfterSeeds(g: (Vec, Vec) -> Vec, cOld: Vec, cNew: Vec): StageRhs
  {
    (s: nat, v: Vec) => g(if s < 3 then cOld else cNew, v)
  }

  /** RK4lanczosBefore: the old coefficients seed K1 only. */
  function BeforeSeeds(g: (Vec, Vec) -> Vec, cOld: Vec, cNew: Vec): StageRhs
  {
    (s: nat, v: Vec) => g(if s < 1 then cOld else cNew, v)
  }

  /** The orbital equation with the coefficients frozen at c. */
  function Frozen(g: (Vec, Vec) -> Vec, c: Vec): Vec -> Vec
  {
    v => g(c, v)
  }

  ghost predicate OrbitalRhs(g: (Vec, Vec) -> Vec, n: nat)
  {
    forall c: Vec, v: Vec :: |v| == n ==> |g(c, v)| == n
  }

  /** The orbital half of a Lanczos hybrid step. */
  method LanczosOrbitals(g: (Vec, Vec) -> Vec, cOld: Vec, cNew: Vec, orb: Vec, dt: Complex, after: bool)
    returns (next: Vec)
    requires OrbitalRhs(g, |orb|)
    ensures after ==> KeepsLength(AfterSeeds(g, cOld, cNew), |orb|) && next == Rk4(AfterSeeds(g, cOld, cNew), orb, dt)
    ensures !after ==> KeepsLength(BeforeSeeds(g, cOld, cNew), |orb|) && next == Rk4(BeforeSeeds(g, cOld, cNew), orb, dt)
  {
    if after {
      next := Rk4Stages(AfterSeeds(g, cOld, cNew), orb, dt);
    } else {
      next := Rk4Stages(BeforeSeeds(g, cOld, cNew), orb, dt);
    }
  }

  /** When the Krylov propagation leaves the coefficients where they were,
      both hybrids reduce to the plain Runge-Kutta step of the orbital
      equation with frozen coefficients. */
  lemma HybridsAgreeOnStationaryCoefficients(g: (Vec, Vec) -> Vec, c: Vec, orb: Vec, dt: Complex)
    requires OrbitalRhs(g, |orb|)
    ensures KeepsLength(AfterSeeds(g, c, c), |orb|) && KeepsLength(BeforeSeeds(g, c, c), |orb|)
    ensures KeepsLength(Uniform(Frozen(g, c)), |orb|)
    ensures Rk4(AfterSeeds(g, c, c), orb, dt) == Rk4(Uniform(Frozen(g, c)), orb, dt)
    ensures Rk4(BeforeSeeds(g, c, c), orb, dt) == Rk4(Uniform(Frozen(g, c)), orb, dt)
  {
    Rk4Ext(AfterSeeds(g, c, c), Uniform(Frozen(g, c)), orb, dt);
    Rk4Ext(BeforeSeeds(g, c, c), Uniform(Frozen(g, c)), orb, dt);
  }

  /* ---------------------------------------------------------------------
     The split-step drivers.
     --------------------------------------------------------------------- */

  datatype HalfStep = RungeKutta | LanczosHybrid

  datatype LinearSolver = ShermanMorrison | LUDecomposition

  /** The integrator of the two nonlinear half steps chosen by the method
      flag. */
  function NonlinearScheme(flag: int): (r: HalfStep)
    ensures r == LanczosHybrid <==> flag == 12 || flag == 22
  {
    if flag == 12 || flag == 22 then LanczosHybrid else RungeKutta
  }

  /** The cyclic tridiagonal solver of the linear step chosen by the method
      flag. */
  function LinearScheme(flag: int): (r: LinearSolver)
    ensures r == LUDecomposition <==> flag == 21 || flag == 22
  {
    if flag == 21 || flag == 22 then LUDecomposition else ShermanMorrison
  }

  /** On the four documented codes the tens digit names the linear solver
      (1 Sherman-Morrison, 2 LU) and the units digit the nonlinear
      integrator (1 Runge-Kutta, 2 Lanczos); any other code means 11. */
  lemma MethodCodes(flag: int)
    ensures flag in {11, 12, 21, 22} ==>
      (NonlinearScheme(flag) == LanczosHybrid <==> flag % 10 == 2) &&
      (LinearScheme(flag) == LUDecomposition <==> flag / 10 == 2)
    ensures flag !in {11, 12, 21, 22} ==>
      NonlinearScheme(flag) == NonlinearScheme(11) && LinearScheme(flag) == LinearScheme(11)
  {
  }

  /** The boundary overwrite after the linear step: the last grid point of
      every orbital becomes a copy of the first (periodic box) or zero (hard
      walls). Orbitals without grid points are left as they are. */
  function Boundary(orb: seq<Vec>, cyclic: bool): (r: seq<Vec>)
    ensures |r| == |orb|
    ensures forall k :: 0 <= k < |orb| ==> |r[k]| == |orb[k]|
    ensures forall k, j :: 0 <= k < |orb| && 0 <= j < |orb[k]| - 1 ==> r[k][j] == orb[k][j]
    ensures forall k :: 0 <= k < |orb| && |orb[k]| >= 1 ==>
      r[k][|orb[k]| - 1] == if cyclic then orb[k][0] else Zero
  {
    seq(|orb|, k requires 0 <= k < |orb| =>
      if |orb[k]| == 0 then orb[k] else orb[k][|orb[k]| - 1 := if cyclic then orb[k][0] else Zero])
  }

  /** After the overwrite every orbital is periodic (cyclic) or vanishes at
      the last point (hard walls), and a second overwrite changes nothing. */
  lemma BoundaryIdempotent(orb: seq<Vec>, cyclic: bool)
    ensures forall k :: 0 <= k < |orb| && |orb[k]| >= 1 ==>
      var r := Boundary(orb, cyclic)[k];
      r[|r| - 1] == if cyclic then r[0] else Zero
    ensures Boundary(Boundary(orb, cyclic), cyclic) == Boundary(orb, cyclic)
  {
    var r := Boundary(orb, cyclic);
    var rr := Boundary(r, cyclic);
    forall k | 0 <= k < |orb|
      ensures rr[k] == r[k]
    {
      if |orb[k]| >= 2 {
        assert r[k][0] == orb[k][0];
      }
    }
  }

  /** The right-hand side of the linear step for one orbital: the sparse
      Crank-Nicolson matrix applied to the grid values. */
  function CrankNicolsonRhs(A: Banded.CCS, n: nat, v: Vec): (r: Vec)
    ensures |r| == n
  {
    seq(n, i requires 0 <= i < n => SumC(0, A.m, Banded.SlotTerm(A, n, v, i)))
  }

  /** LinearPartSM and LinearPartLU: for every orbital the first Mpos-1 grid
      values are replaced by the solution of the cyclic tridiagonal system
      whose right-hand side is the sparse matrix times those values; the
      last grid point is left for the boundary overwrite. The two differ only
      in the solver, a parameter here. */
  method LinearPart(mpos: nat, A: Banded.CCS, solve: Vec -> Vec, orb: seq<Vec>) returns (r: seq<Vec>)
    requires mpos >= 1 && A.m >= 1 && Banded.WellFormed(A, mpos - 1)
    requires forall k :: 0 <= k < |orb| ==> |orb[k]| == mpos
    requires forall v: Vec :: |v| == mpos - 1 ==> |solve(v)| == mpos - 1
    ensures |r| == |orb|
    ensures forall k :: 0 <= k < |orb| ==> |r[k]| == mpos && r[k][mpos - 1] == orb[k][mpos - 1]
    ensures forall k :: 0 <= k < |orb| ==> r[k][..mpos - 1] == solve(CrankNicolsonRhs(A, mpos - 1, orb[k][..mpos - 1]))
  {
    var size := mpos - 1;
    r := [];
    var k := 0;
    while k < |orb|
      invariant 0 <= k <= |orb| && |r| == k
      invariant forall q :: 0 <= q < k ==> |r[q]| == mpos && r[q][size] == orb[q][size]
      invariant forall q :: 0 <= q < k ==> r[q][..size] == solve(CrankNicolsonRhs(A, size, orb[q][..size]))
    {
      var rhs := Banded.CCSvec(size, A, orb[k]);
      assert rhs == CrankNicolsonRhs(A, size, orb[k]);
      RhsReadsPrefix(A, size, orb[k]);
      var x := solve(rhs);
      var row := x + [orb[k][size]];
      assert row[..size] == x;
      r := r + [row];
      k := k + 1;
    }
  }

  /** The sparse matrix only has columns below n, so the grid values past
      the first n do not enter the right-hand side. */
  lemma RhsReadsPrefix(A: Banded.CCS, n: nat, v: Vec)
    requires Banded.WellFormed(A, n) && |v| >= n
    ensures CrankNicolsonRhs(A, n, v) == CrankNicolsonRhs(A, n, v[..n])
  {
    forall i | 0 <= i < n
      ensures SumC(0, A.m, Banded.SlotTerm(A, n, v, i)) == SumC(0, A.m, Banded.SlotTerm(A, n, v[..n], i))
    {
      SumCExt(0, A.m, Banded.SlotTerm(A, n, v, i), Banded.SlotTerm(A, n, v[..n], i));
    }
  }

  /** With the periodic Crank-Nicolson layout CyclicToCCS the right-hand side
      is the dense periodic tridiagonal matrix times the first Mpos-1 grid
      values. */
  lemma CyclicRhs(n: nat, upper: Vec, lower: Vec, mid: Vec, v: Vec, i: nat)
    requires n >= 3 && |upper| >= n && |lower| >= n && |mid| >= n && |v| >= n && i < n
    ensures CrankNicolsonRhs(Banded.CyclicToCCS(n, upper, lower, mid), n, v[..n])[i]
         == SumC(0, n, Banded.DotTerm(Banded.CyclicMatrix(n, upper, mid, lower)[i], v[..n]))
  {
    Banded.CyclicCCSProduct(n, upper, lower, mid, v[..n], i);
  }

  /** The state the drivers evolve: orbitals (rows of grid values) and
      coefficients. */
  datatype Sys = Sys(orb: seq<Vec>, c: Vec)

  /** The half-step integrators and the linear solvers the driver chooses
      from; each already knows its time step. */
  datatype Schemes = Schemes(
    rk4: Sys -> Sys,
    before: Sys -> Sys,
    after: Sys -> Sys,
    sm: seq<Vec> -> seq<Vec>,
    lu: seq<Vec> -> seq<Vec>)

  /** One step of MCTDHB_CN_REAL: a nonlinear half step, the linear step of
      the orbitals, the boundary overwrite, another nonlinear half step. */
  function RealStep(ops: Schemes, flag: int, cyclic: bool, s: Sys): Sys
  {
    var s1 := if NonlinearScheme(flag) == LanczosHybrid then ops.before(s) else ops.rk4(s);
    var o2 := if LinearScheme(flag) == LUDecomposition then ops.lu(s1.orb) else ops.sm(s1.orb);
    var s3 := Sys(Boundary(o2, cyclic), s1.c);
    if NonlinearScheme(flag) == LanczosHybrid then ops.after(s3) else ops.rk4(s3)
  }

  /** The main loop of MCTDHB_CN_REAL: traj[i] is the state after i steps;
      the counter q is reset and the state recorded when it reaches n, so
      recording happens after every n + 1 steps (never when n < 0).
      `recorded` covers the steps of the loop only; the initial state,
      written once before the loop, belongs to the file output. */
  method RealTimeLoop(ops: Schemes, flag: int, cyclic: bool, s0: Sys, nsteps: nat, n: int)
    returns (traj: seq<Sys>, recorded: seq<bool>)
    ensures |traj| == nsteps + 1 && traj[0] == s0
    ensures forall i :: 0 <= i < nsteps ==> traj[i + 1] == RealStep(ops, flag, cyclic, traj[i])
    ensures |recorded| == nsteps
    ensures forall i :: 0 <= i < nsteps ==> (recorded[i] <==> n >= 0 && (i + 1) % (n + 1) == 0)
  {
    traj := [s0];
    recorded := [];
    var q := 0;
    var i := 0;
    while i < nsteps
      invariant i <= nsteps && RealSoFar(ops, flag, cyclic, s0, n, traj, recorded, q, i)
    {
      traj, recorded, q := RealAdvance(ops, flag, cyclic, s0, n, traj, recorded, q, i);
      i := i + 1;
    }
  }

  /** The state of the real-time loop after i steps: the trajectory so far,
      which steps were recorded, and the step counter. */
  predicate RealSoFar(ops: Schemes, flag: int, cyclic: bool, s0: Sys, n: int,
                      traj: seq<Sys>, recorded: seq<bool>, q: int, i: nat)
  {
    |traj| == i + 1 && |recorded| == i && traj[0] == s0 &&
    (forall j :: 0 <= j < i ==> traj[j + 1] == RealStep(ops, flag, cyclic, traj[j])) &&
    (forall j :: 0 <= j < i ==> (recorded[j] <==> Recorded(n, j))) &&
    q == Counter(n, i)
  }

  /** One pass of the real-time loop: a step, then the counter decides
      whether the new state is recorded. */
  method RealAdvance(ops: Schemes, flag: int, cyclic: bool, s0: Sys, n: int,
                     traj0: seq<Sys>, recorded0: seq<bool>, q0: int, i: nat)
    returns (traj: seq<Sys>, recorded: seq<bool>, q: int)
    requires RealSoFar(ops, flag, cyclic, s0, n, traj0, recorded0, q0, i)
    ensures RealSoFar(ops, flag, cyclic, s0, n, traj, recorded, q, i + 1)
    ensures traj[i + 1] == RealStep(ops, flag, cyclic, traj0[i])
  {
    traj := traj0 + [RealStep(ops, flag, cyclic, traj0[i])];
    TrajExtend(ops, flag, cyclic, traj0, i);
    CounterStep(n, i);
    if q0 == n {
      q := 0;
      recorded := recorded0 + [true];
    } else {
      q := q0 + 1;
      recorded := recorded0 + [false];
    }
    RecordedExtend(n, recorded0, i, q0 == n);
  }

  /** Appending the next state keeps every earlier step of the trajectory. */
  lemma TrajExtend(ops: Schemes, flag: int, cyclic: bool, traj0: seq<Sys>, i: nat)
    requires |traj0| == i + 1
    requires forall j :: 0 <= j < i ==> traj0[j + 1] == RealStep(ops, flag, cyclic, traj0[j])
    ensures var t := traj0 + [RealStep(ops, flag, cyclic, traj0[i])];
      t[0] == traj0[0] && forall j :: 0 <= j < i + 1 ==> t[j + 1] == RealStep(ops, flag, cyclic, t[j])
  {
    var t := traj0 + [RealStep(ops, flag, cyclic, traj0[i])];
    assert forall j :: 0 <= j < i + 1 ==> t[j] == traj0[j];
  }

  /** Appending the record flag of step i keeps the flags of earlier steps. */
  lemma RecordedExtend(n: int, recorded0: seq<bool>, i: nat, b: bool)
    requires |recorded0| == i && (forall j :: 0 <= j < i ==> (recorded0[j] <==> Recorded(n, j)))
    requires b <==> Recorded(n, i)
    ensures var r := recorded0 + [b];
      forall j :: 0 <= j < i + 1 ==> (r[j] <==> Recorded(n, j))
  {
  }

  /** Step i (counting from 0) is recorded: every (n+1)-th step, never when
      n is negative. */
  predicate Recorded(n: int, i: nat)
  {
    n >= 0 && (i + 1) % (n + 1) == 0
  }

  /** The step counter of the real-time loop after i steps. */
  function Counter(n: int, i: nat): int
  {
    if n >= 0 then i % (n + 1) else i
  }

  /** The counter reaches n exactly on the recorded steps, and otherwise
      advances by one. */
  lemma CounterStep(n: int, i: nat)
    ensures Recorded(n, i) <==> Counter(n, i) == n
    ensures Counter(n, i + 1) == if Counter(n, i) == n then 0 else Counter(n, i) + 1
  {
    if n >= 0 {
      ModStep(i, n + 1);
    }
  }

  /** The remainder modulo m advances by one and wraps at m. */
  lemma ModStep(i: nat, m: nat)
    requires m >= 1
    ensures (i + 1) % m == if i % m == m - 1 then 0 else i % m + 1
  {
    var q := i / m;
    var r := i % m;
    assert i == m * q + r;
    if r == m - 1 {
      assert i + 1 == 0 + m * (q + 1);
      DivModUnique(m, 0, q + 1);
    } else {
      DivModUnique(m, r + 1, q);
    }
  }

  /** b^k */
  function Pow(b: real, k: nat): real
  {
    if k == 0 then 1.0 else b * Pow(b, k - 1)
  }

  /** The imaginary time step used in step i: dT grows by a factor 1.2
      after every 2000 steps. */
  function ImagDt(dT: real, i: nat): real
  {
    dT * Pow(1.2, i / 2000)
  }

  /** The schedule never shrinks a positive step. */
  lemma ImagDtGrows(dT: real, i: nat, j: nat)
    requires dT > 0.0 && i <= j
    ensures 0.0 < ImagDt(dT, i) <= ImagDt(dT, j)
  {
    PowMonotone(i / 2000, j / 2000);
    MulPositive(dT, Pow(1.2, i / 2000));
  }

  lemma MulPositive(x: real, y: real)
    requires x > 0.0 && y > 0.0
    ensures x * y > 0.0
  {
  }

  lemma {:induction false} PowMonotone(a: nat, b: nat)
    requires a <= b
    ensures 0.0 < Pow(1.2, a) <= Pow(1.2, b)
    decreases b
  {
    if a < b {
      PowMonotone(a, b - 1);
      assert Pow(1.2, b) == 1.2 * Pow(1.2, b - 1);
    } else if a > 0 {
      PowMonotone(a - 1, a - 1);
    }
  }

  /** The main loop of MCTDHB_CN_IMAG. The step (two imaginary-time half
      steps around the linear step, the boundary overwrite and the
      re-orthonormalisation) is a parameter that takes the current dT. The
      energy of the initial state goes to E[0] and the energy after step i
      to E[i + 1], so E has nsteps + 1 entries; the linear system is rebuilt
      exactly after the steps i with (i + 1) % 2000 == 0. */
  method ImagTimeLoop(step: (Sys, real) -> Sys, energy: Sys -> Complex, s0: Sys, dT: real, nsteps: nat)
    returns (traj: seq<Sys>, E: seq<Complex>, rebuilt: seq<bool>)
    ensures |traj| == nsteps + 1 && traj[0] == s0
    ensures forall i :: 0 <= i < nsteps ==> traj[i + 1] == step(traj[i], ImagDt(dT, i))
    ensures |E| == nsteps + 1 && forall i :: 0 <= i <= nsteps ==> E[i] == energy(traj[i])
    ensures |rebuilt| == nsteps && forall i :: 0 <= i < nsteps ==> (rebuilt[i] <==> (i + 1) % 2000 == 0)
  {
    traj := [s0];
    E := [energy(s0)];
    rebuilt := [];
    var dt := dT;
    var i := 0;
    while i < nsteps
      invariant 0 <= i <= nsteps && |traj| == i + 1 && |E| == i + 1 && |rebuilt| == i && traj[0] == s0
      invariant forall j :: 0 <= j < i ==> traj[j + 1] == step(traj[j], ImagDt(dT, j))
      invariant forall j :: 0 <= j <= i ==> E[j] == energy(traj[j])
      invariant forall j :: 0 <= j < i ==> (rebuilt[j] <==> (j + 1) % 2000 == 0)
      invariant dt == ImagDt(dT, i)
    {
      var next := step(traj[i], dt);
      traj := traj + [next];
      E := E + [energy(next)];
      if (i + 1) % 2000 == 0 {
        assert (i + 1) / 2000 == i / 2000 + 1;
        dt := dt * 1.2;
        rebuilt := rebuilt + [true];
      } else {
        assert (i + 1) / 2000 == i / 2000;
        rebuilt := rebuilt + [false];
      }
      i := i + 1;
    }
  }
}
