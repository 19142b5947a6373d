# MCTDHB core in Dafny

This project models the core of an MCTDHB solver (multiconfigurational
time-dependent Hartree for bosons): N bosons spread over M orbitals, with the
many-body state expanded in Fock configurations. The model covers five parts:

- **Fock-space indexer** (`fock.dfy`, `combinatorics.dfy`): `fac`, `NC`, the
  count table `NCmat`, `IndexToFock`, `FockToIndex`, `MountFocks`. `Rank` and
  `Unrank` are the reference definitions. The C loops are methods proved equal
  to them, and the bijection is proved in both directions.
- **Selection rules** (`moves.dfy`, `density.dfy`, `hamiltonian.dfy`,
  `layout.dfy`): the one-body density `OBrho`, the two-body density `TBrho`,
  and the configuration Hamiltonian `applyHconf` with `OrbConfDDT`. Each is a
  pure function that sums over the configuration list. Moving a particle,
  looking up its index and putting it back is the function `Move1` with its
  restore lemmas.
- **Integrator control** (`integrator.dfy`): the RK4 stage combination and
  the Lanczos-hybrid stage seeding. Also the real-time driver loop (method
  dispatch, boundary overwrite, recording cadence) and the imaginary-time
  loop (energy table, step growth).
- **Banded matrices** (`banded.dfy`): dense fills and products, the 3-slot
  sparse layout and its product, the continuants `detTri`/`phiTri`/`detTrik`,
  and `invTri`.
- **Quadrature, stencil and eigenvalue sort** (`calculus.dfy`,
  `eigsort.dfy`): `Rsimps`, `Csimps`, `dxCyclic`, and the Python `EigSort`.

Floating-point values are exact `real`s. Complex numbers are
`ComplexNumbers.Complex(re, im)` over `real`. The square roots that the
creation and annihilation operators produce come in as a parameter
`sq: int -> real`. Every property about those terms holds whatever `sq` is.
Integers are unbounded.

## Model

| member | source | states |
|---|---|---|
| Combinatorics.Fac | src/coef.c:3-8 | the loop returns 1 for n <= 1 and n! for every n >= 0 |
| Combinatorics.NC | src/coef.c:10-15 | the falling product divided by fac(M-1) is the number of configurations of N bosons in M >= 1 orbitals (at M = 0 it is 1, the code's convention), and equals the binomial C(N+M-1, M-1) |
| Combinatorics.FallingProductIsBinom | src/coef.c:10-15 | the product (N+M-1)...(N+1) equals C(N+M-1, M-1)·(M-1)!, so the division in NC is exact |
| Combinatorics.NCPy | pysrc/MCTDHBmodule.py:48-56 | both branches of the Python NC (one divides by (M-1)!, the other by N!) give the configuration count |
| Combinatorics.ConfigsIsBinom | scripts/MCTDHB_analysis.py:36-40 | the Pascal-recurrence configuration count equals C(N+M-1, M-1), the formula of the analysis script |
| Combinatorics.BinomSymmetric | pysrc/MCTDHBmodule.py:51-56 | C(a+b, a) == C(a+b, b): dividing by N! or by (M-1)! gives the same count |
| Combinatorics.BinomAbsorption | src/coef.c:10-15 | k·C(n,k) == n·C(n-1,k-1), the step that links the falling product to the binomial |
| Combinatorics.MountNCmat | src/coef.c:17-34 | the table has column 0 all zero and NC(i, j) at every row 0..N and column 1..M |
| Fock.Rank | src/coef.c:80-98 | the index of any valid occupation vector lies in [0, NC(N, M)) |
| Fock.Unrank | src/coef.c:51-78 | every index below NC(N, M) decodes to a non-negative vector of length M |
| Fock.UnrankIsConfig | src/coef.c:51-78 | the decoded vector sums to N |
| Fock.UnrankZero | src/coef.c:58-77 | index 0 puts all N particles in orbital 0 |
| Fock.RankIgnoresFirst | src/coef.c:87-96 | the index never depends on v[0] |
| Fock.RankUnrank | src/coef.c:51-98 | FockToIndex(IndexToFock(k)) == k for every k < NC(N, M) |
| Fock.UnrankRank | src/coef.c:51-98 | IndexToFock(FockToIndex(v)) == v for every valid configuration v |
| Fock.RankInjective | src/coef.c:80-98 | two valid configurations with the same index are equal |
| Fock.FockToIndex | src/coef.c:80-98 | the C loop, peeling particles off orbitals M-1..1 and adding NCmat entries, returns Rank(v) and stays below NC(N, M) |
| Fock.SkipOrbital | src/coef.c:89-95 | the inner loop over one orbital removes its particles and adds the count of all configurations skipped |
| Fock.RankPeelAll | src/coef.c:89-95 | removing all particles of the last orbital adds exactly the skipped configurations to the index of the shortened vector |
| Fock.IndexToFock | src/coef.c:51-78 | the greedy C decoder terminates and yields a valid configuration equal to Unrank(k), whose index is k again |
| Fock.LowerOrbital | src/coef.c:64 | the search for the highest orbital whose count table covers the remaining index lands on the unique m with NC(n, m) <= k < NC(n, m+1) |
| Fock.FillOrbital | src/coef.c:65-72 | the inner loop that adds particles to orbital m is the functional FillLoop |
| Fock.FillLoopKeeps | src/coef.c:65-72 | each particle added keeps the decoded state on course to Unrank(k) |
| Fock.PeelOrbital | src/coef.c:62-73 | one pass of the outer loop strictly lowers the remaining index and keeps the partial vector plus the decoded rest equal to the target |
| Fock.FillFirst | src/coef.c:77 | the remaining particles go to orbital 0 |
| Fock.MountFocks | src/coef.c:36-49 | row k of the table is the configuration of index k for every k < NC(N, M), and the rows are pairwise distinct |
| Fock.FockTableComplete | pysrc/MCTDHBmodule.py:164-177 | every valid configuration appears in the table, at row FockToIndex(v) |
| Layout.FlatIndexBound | src/coef.c:207-229 | the flat index a + bM + cM² + dM³ of four orbital indices lies in [0, M⁴) |
| Layout.DigitsOfFlat | src/coef.c:207-229 | reading the four base-M digits back from a flat index returns (a, b, c, d) |
| Layout.FlatOfDigits | src/coef.c:207-229 | every flat index below M⁴ comes from exactly one tuple of orbital indices |
| Moves.MoveConfig | src/coef.c:172-175 | with the guard v[k] >= 1 and k != l, moving one particle from k to l gives a valid configuration whose index is in range, and only entries k and l change |
| Moves.MoveRestore | src/coef.c:173-178 | the two restore statements undo the move, so the scratch vector equals IF[i] again |
| Moves.DoubleMoveRestore | src/MCTDHB_integrator.c:449-459 | undoing two moves in reverse order restores the vector |
| Moves.LookupRow | src/MCTDHB_integrator.c:138-143 | looking up row i of the table through FockToIndex reads C[i] |
| Moves.SumROccupation | src/coef.c:147-158 | the real sum of the occupations equals N as a real |
| Density.OBrho | src/coef.c:130-194 | the one-body density is an M × M matrix |
| Density.OBrhoDiagonalReal | src/coef.c:147-158 | each diagonal entry Σ_i \|C_i\|²·IF[i][k] is real and non-negative |
| Density.OBrhoHermitian | src/coef.c:187-193 | the lower triangle is the conjugate of the upper: rho[l][k] == conj(rho[k][l]) for all k, l |
| Density.OBrhoTrace | src/coef.c:147-158 | the diagonal entries are the column sums of \|C_i\|²·IF[i][k], and the trace is N·Σ\|C_i\|² |
| Density.OccupiedRow | src/coef.c:147-158 | for each configuration the weights over all orbitals add up to N·\|C_i\|² |
| Density.TBrho | src/coef.c:196-677 | the two-body density has M⁴ entries |
| Density.TBrhoAt | src/coef.c:207-229 | the entry at flat index FlatIndex(a, b, c, d) is in range and is the entry the rule classification assigns to (a, b, c, d) |
| Density.SamePairsReal | src/coef.c:218-230 | the rule-1 expectation is the real sum Σ\|C_i\|²·n_k(n_k - 1), and it is non-negative |
| Density.PairsReal | src/coef.c:232-250 | the rule-2 expectation is the real sum Σ\|C_i\|²·n_k·n_s, and it is non-negative |
| Density.TBrhoRule1 | src/coef.c:218-230 | rho(k, k, k, k) is real and non-negative |
| Density.TBrhoRule2 | src/coef.c:232-250 | for k < s, one real non-negative value sits at the four permutations (k,s,k,s), (s,k,k,s), (s,k,s,k), (k,s,s,k) |
| Density.Rule8Exchange | src/coef.c:511-548 | the rule-8 expectation is unchanged by exchanging the two creation or the two annihilation indices |
| Density.TBrhoExchange | src/coef.c:218-674 | every entry is unchanged by swapping its first two indices or its last two indices |
| Density.TBrhoHermitian | src/coef.c:550-674 | for every index tuple with a repeated orbital, the CC rules make rho(d, c, b, a) the conjugate of rho(a, b, c, d) |
| Hamiltonian.ApplyHconf | src/MCTDHB_integrator.c:71-472 | the output has one entry per configuration |
| Hamiltonian.OrbConfDDT | src/MCTDHB_integrator.c:612-619 | the coefficient derivative has one entry per configuration |
| Hamiltonian.HconfZero | src/MCTDHB_integrator.c:128-465 | with Ho = 0 and Hint = 0 every output entry is zero |
| Hamiltonian.HconfFree | src/MCTDHB_integrator.c:128-145 | with Ho the identity and Hint = 0, out[i] == N·C[i] |
| Hamiltonian.HconfContact | src/MCTDHB_integrator.c:156-179 | with Ho = 0 and a contact Hint (g on the diagonal, zero elsewhere), out[i] == (Σ_k n_k(n_k - 1))·g·C[i]: only rule 1 contributes, with integer factors |
| Hamiltonian.OneBodyIdentity | src/MCTDHB_integrator.c:128-145 | with Ho the identity, the one-body part of configuration i is N·C[i], whatever sq is |
| Hamiltonian.OneBodyVanishes | src/MCTDHB_integrator.c:128-145 | with Ho = 0 the one-body part vanishes |
| Hamiltonian.TwoBodyOnSite | src/MCTDHB_integrator.c:156-463 | with a contact Hint the whole two-body part is the rule-1 sum Σ_k n_k(n_k - 1)·g·C[i] |
| Hamiltonian.Rule2Vanishes | src/MCTDHB_integrator.c:167-179 | rule 2 adds nothing when Hint is zero off the fully repeated diagonal |
| Hamiltonian.Rule3Vanishes | src/MCTDHB_integrator.c:184-200 | rule 3 adds nothing when Hint is zero off the fully repeated diagonal |
| Hamiltonian.Rule4Vanishes | src/MCTDHB_integrator.c:205-222 | rule 4 adds nothing when Hint is zero off the fully repeated diagonal |
| Hamiltonian.Rule5Vanishes | src/MCTDHB_integrator.c:227-244 | rule 5 adds nothing when Hint is zero off the fully repeated diagonal |
| Hamiltonian.Rule6Vanishes | src/MCTDHB_integrator.c:249-322 | the three orderings of rule 6 add nothing when Hint is zero off the fully repeated diagonal |
| Hamiltonian.Rule7Vanishes | src/MCTDHB_integrator.c:327-403 | the three orderings of rule 7 add nothing when Hint is zero off the fully repeated diagonal |
| Hamiltonian.Rule8Vanishes | src/MCTDHB_integrator.c:408-430 | rule 8 adds nothing when Hint is zero off the fully repeated diagonal |
| Hamiltonian.Rule9Vanishes | src/MCTDHB_integrator.c:435-463 | rule 9 adds nothing when Hint is zero off the fully repeated diagonal |
| Hamiltonian.OrbConfDDTFree | src/MCTDHB_integrator.c:612-619 | with Ho the identity and Hint = 0 the coefficient derivative is -i·N·C[i] |
| Hamiltonian.OrbConfDDTZero | src/MCTDHB_integrator.c:612-619 | with Ho = 0 and Hint = 0 the coefficient derivative is zero |
| Integrator.Rk4Stages | src/MCTDHB_integrator.c:1195-1294 | the staged computation (K1 at X, K2 at X + K1·dt/2, K3 at X + K2·dt/2, K4 at X + K3·dt, then X + dt/6·(K1 + 2K2 + 2K3 + K4)) equals the reference RK4 step |
| Integrator.Rk4Stationary | src/MCTDHB_integrator.c:1341-1440 | a zero right-hand side leaves the state unchanged |
| Integrator.Rk4Ext | src/MCTDHB_integrator.c:1160-1312 | the step depends only on the right-hand side's values at the four stages |
| Integrator.Rk4Linear | src/MCTDHB_integrator.c:1195-1294 | for dx/dt = λx each entry is multiplied by 1 + z + z²/2 + z³/6 + z⁴/24 with z = λ·dt: the combination is a fourth-order Taylor step |
| Integrator.AmplificationFactor | src/MCTDHB_integrator.c:1195-1294 | the four stage slopes of the linear problem combine into the degree-4 Taylor polynomial of λ·dt |
| Integrator.LanczosOrbitals | src/MCTDHB_integrator.c:823-871 | the orbital half of RK4lanczosAfter is RK4 with old C seeding K1-K3 and new C seeding K4; that of RK4lanczosBefore (1062-1110) seeds K1 with old C and K2-K4 with new C |
| Integrator.HybridsAgreeOnStationaryCoefficients | src/MCTDHB_integrator.c:823-871 | when the coefficients do not change, both variants reduce to plain RK4 with frozen coefficients |
| Integrator.NonlinearScheme | src/MCTDHB_integrator.c:1635-1638 | the Lanczos hybrid is chosen exactly when method is 12 or 22 |
| Integrator.LinearScheme | src/MCTDHB_integrator.c:1644-1646 | LU is chosen exactly when method is 21 or 22 |
| Integrator.MethodCodes | src/MCTDHB_integrator.c:1635-1661 | for the four documented codes the units digit picks the half step and the tens digit the solver; every other code behaves as 11 |
| Integrator.Boundary | src/MCTDHB_integrator.c:1648-1652 | only the last grid point of each orbital changes: it becomes the first point when cyclic, zero otherwise |
| Integrator.BoundaryIdempotent | src/MCTDHB_integrator.c:1648-1652 | after the overwrite the last point already satisfies the boundary condition, so a second overwrite changes nothing |
| Integrator.LinearPart | src/MCTDHB_integrator.c:1460-1497 | each orbital's first Mpos-1 points become the solver applied to the sparse product, and the last point is left as it was |
| Integrator.RhsReadsPrefix | src/MCTDHB_integrator.c:1469 | the sparse product with a well-formed size-(Mpos-1) matrix reads only the first Mpos-1 points of the orbital |
| Integrator.CyclicRhs | src/MCTDHB_integrator.c:1606 | the right-hand side built from CyclicToCCS is the product with the dense cyclic tridiagonal matrix |
| Integrator.RealTimeLoop | src/MCTDHB_integrator.c:1630-1705 | traj[i+1] is one step applied to traj[i], and the state after step i is recorded exactly when n >= 0 and (i+1) % (n+1) == 0. The source comment at line 1694 says "every n steps", but the counter records every n + 1 steps; the model follows the code |
| Integrator.RealAdvance | src/MCTDHB_integrator.c:1695-1704 | one iteration appends the next state and advances the counter q, resetting it when it reaches n |
| Integrator.CounterStep | src/MCTDHB_integrator.c:1695-1704 | the counter equals n exactly on the steps that are recorded |
| Integrator.ImagDtGrows | src/MCTDHB_integrator.c:1784-1791 | the time step stays positive and never shrinks |
| Integrator.ImagTimeLoop | src/MCTDHB_integrator.c:1754-1791 | E has Nsteps+1 entries, with E[0] the initial energy and E[i+1] the energy after step i; step i uses dt·1.2^(i div 2000); the system is rebuilt exactly when (i+1) % 2000 == 0 |
| Banded.Fill | src/matrix_operations.c:11-15 | every entry of the rows × cols matrix is z |
| Banded.FillDiagonal | src/matrix_operations.c:17-22 | the k-th diagonal holds z[min(i, j)] and every other entry is unchanged |
| Banded.FillTri | src/matrix_operations.c:24-30 | the result has mid on the diagonal, upper above, lower below, and zero elsewhere |
| Banded.MatVec | src/matrix_operations.c:122-128 | entry i is the dot product of row i with v |
| Banded.MatMatAccumulate | src/matrix_operations.c:130-138 | ans_out = ans_in + M·A: the product is added to ans, which is never zeroed |
| Banded.CCSvec | src/matrix_operations.c:140-151 | ans[i] = Σ_{l<m} vals[i + l·n]·vec[cols[i + l·n]] |
| Banded.TriToCCS | src/matrix_operations.c:48-76 | for n >= 2: three slots per row, every column index in [0, n), and the two padding slots hold zero |
| Banded.TriSlots | src/matrix_operations.c:48-76 | the value and column stored in each slot of each row |
| Banded.TriCCSProduct | src/matrix_operations.c:48-76 | the sparse product of the triToCCS layout equals the dense product with the cmatFillTri matrix, row by row |
| Banded.CyclicToCCS | src/matrix_operations.c:78-112 | three slots per row, every column index in [0, n) |
| Banded.CyclicSlots | src/matrix_operations.c:78-112 | the stored values include the wrap terms upper[n-1] at (0, n-1) and lower[n-1] at (n-1, 0) |
| Banded.CyclicCCSProduct | src/matrix_operations.c:78-112 | the sparse product equals the dense product with the cyclic tridiagonal matrix |
| Banded.DetTri | src/matrix_operations.c:172-183 | theta[k] is the continuant theta_k (theta_0 = 1, theta_1 = mid[0], the three-term recurrence) for every 0 <= k <= n |
| Banded.AsWrittenValue | src/matrix_operations.c:161-170 | the recursive detTrik as written equals the table entry theta_k, whatever value its k = 1 step reads before the arrays |
| Banded.AsWrittenReadsBeforeStart | src/matrix_operations.c:161-170 | for every k >= 1 the recursion as written reads lower[-1] and upper[-1] |
| Banded.ReadsInRange | src/matrix_operations.c:172-183 | the corrected recursion reads only lower[0..k-2] |
| Banded.PhiTri | src/matrix_operations.c:185-196 | phi[i] is the backward continuant (phi_n = 1, phi_{n-1} = mid[n-1], the recurrence) for every 0 <= i <= n |
| Banded.PhiIsReversedTheta | src/matrix_operations.c:172-196 | phi_i is theta_{n-i} of the reversed diagonals: phiTri is detTri read from the bottom-right corner |
| Banded.InvTri | src/matrix_operations.c:198-221 | with theta_n != 0, entry (r, c) is the continuant formula: theta_r·phi_{r+1}/theta_n on the diagonal, and the product of the negated couplings times theta_min·phi_{max+1}/theta_n off it |
| Banded.FillPairs | src/matrix_operations.c:206-216 | one column pass completes the leading (i+1) × (i+1) block |
| Banded.InvTriSymmetric | src/matrix_operations.c:198-221 | when upper == lower the inverse is symmetric |
| Calculus.Rsimps | src/calculus.c:55-97 | the integrator refuses fewer than three points, and only then |
| Calculus.Csimps | src/calculus.c:7-49 | the integrator refuses fewer than three points, and only then |
| Calculus.RsimpsOdd | src/calculus.c:84-93 | for odd n the result is h/3 times Σ w_k·f_k with weights 1, 4, 2, ..., 4, 1 over all n points |
| Calculus.RsimpsEven | src/calculus.c:70-81 | for even n the result is composite Simpson on points 0..n-4 plus the 3/8 rule on n-4..n-1, sharing point n-4 |
| Calculus.PanelsAreWeighted | src/calculus.c:72-75 | the panel loop sums f with the Simpson weights 1, 4, 2, ..., 4, 1 |
| Calculus.RsimpsConstant | src/calculus.c:55-97 | for f ≡ c the result is c·(n-1)·h for every n >= 3 |
| Calculus.CsimpsByParts | src/calculus.c:7-49 | Csimps integrates the real and imaginary parts separately with Rsimps |
| Calculus.CsimpsOfReal | src/calculus.c:7-97 | on real input Csimps equals Rsimps |
| Calculus.DxCyclic | src/calculus.c:184-195 | the derivative has n entries and its last point copies the first |
| Calculus.DxCyclicIsPeriodic | src/calculus.c:184-195 | for f with f[n-1] == f[0], every point is the five-point stencil with indices taken modulo n-1 |
| Calculus.DxCyclicConstant | src/calculus.c:184-195 | a constant f has an all-zero derivative |
| EigenSort.EigSort | pysrc/MCTDHBmodule.py:258-286 | the eigenvalues end non-increasing and are a permutation of the input; column k of the eigenvectors moves with eigenvalue k and rows are untouched; equal values keep their input order |
| EigenSort.Insert | scripts/MCTDHB_analysis.py:214-225 | one pass of the inner while loop moves value i down past every strictly smaller neighbour, leaving 0..i in order |
| EigenSort.SwapTracks | scripts/MCTDHB_analysis.py:217-224 | exchanging two neighbouring values together with the two matching eigenvector columns keeps column k paired with value k |

The same `Fock` and `Density` members model the Python copies of these
routines: `fac`, `NC`, `IndexToFock`, `FockToIndex`, `GetNCmat`, `GetFocks`
and `OBrho` in `pysrc/MCTDHBmodule.py` and `scripts/MCTDHB_analysis.py`.
They run the same loops.

## Left out

- Lanczos and Krylov exponentiation of the coefficient half step (`lanczos`, the `LAPACKE_dstev` call, `cexp`): this is floating-point linear algebra. The new coefficient vector is a parameter of `Integrator.LanczosOrbitals`.
- `OrbDDT`, `NonLinear`, `Proj_Hint`: these depend on `HermitianInv` and on setup routines that are not part of this model. The orbital right-hand side is a function parameter.
- `triCyclicSM`, `triCyclicLU`, `conf_linear`: not part of this model. The solver is a parameter of `Integrator.LinearPart`, which assumes the solver returns a vector of the length it was given.
- `Energy`, `Ortonormalize`, `renormalize`, `renormalizeVector`, `dxFFT`, `applyL0`, `Functional` and the `GP*` routines: these are numerical or library-backed. The imaginary-time step is a parameter `step(state, dt)` and the energy a parameter `energy(state)`.
- Square roots: the factors sqrt(v_k(v_l+1)) are the parameter `sq`, and each property is proved for every `sq`.
- Floating point: values are exact reals. Rounding and the operand order of products (for example `Crhs*0.5*dt` against `K*(dt/2)`) are equal in exact arithmetic, so they are not distinguished.
- OpenMP parallel loops and reductions are modelled as sequential sums.
- File and console output (`RecordArray`, `RecordMatrix`, `printf`, and the `out_rho` NULL check that tests `out_orb`) is not modelled. `Integrator.RealTimeLoop` returns which steps of the loop would be recorded; the record of the initial state, made once before the loop (src/MCTDHB_integrator.c:1580-1583), is part of this output and is not modelled.
- `JumpMapping` reads `v[k]` before filling `v` and is not modelled.
- Integer widths: `long`/`int` overflow in `fac` and `NC`, and the `int **` table passed where `long **` is expected, are not modelled. All integers are unbounded.
- The Python library and plotting code (`GetOBrho`, `NatOrb`, `TimeOccupation`, `SpatialOBdensity`, `VonNeumannS`, `watch_evolution.py`) is not modelled.
- Memory management in `src/array_memory.c` is not modelled.
- Density.TBrhoHermitian: proved only for index tuples with a repeated orbital (rules 1-7 and their CC rules). For rule 8 (four distinct orbitals) the conjugate symmetry needs a re-indexing bijection of the configuration sum, which is not proved.
- Hamiltonian.OrbConfDDTFree: states -i·(N·C[i]) as the product of -i with N·C[i] and does not normalise it further.
- Hamiltonian.HconfContact: only the contact interaction is reduced to a closed form. A general Hint is covered by the definition of `ApplyHconf`, rule by rule, without a closed form.
- Calculus.DxCyclic: requires dx != 0, since the source divides by 12·dx. It also requires n >= 4, the smallest grid on which the stencil's indices are distinct.
- Banded.TriToCCS: requires n >= 2. The C accepts n = 1, but there it reads `upper[0]` from an upper diagonal with no entries and stores column 1 in slot n = 1, outside [0, 1); the model leaves that case out.
- Banded.InvTri: requires |theta_n| != 0. The source does not check it, and with theta_n == 0 its entries are inf/NaN; the model leaves that case out. It proves the continuant formula for each entry but not that the result is the inverse matrix.
- EigenSort.EigSort: also returns the permutation it applied. The Python code only permutes in place. The Python loop test reads `vals[j-1]` before checking `j > 0`; at j = 0 that read wraps to the last element and cannot change the outcome, so the model tests `j > 0` first.
- Density and Hamiltonian traverse the configurations functionally: the mutable scratch vector becomes `Moves.Move1`, and its restoration is `Moves.MoveRestore` and `Moves.DoubleMoveRestore`.

## Findings

| source | as written | input that shows it | evidently intended | confidence | as-written member | corrected member |
|---|---|---|---|---|---|---|
| src/matrix_operations.c:161-170 | `detTrik(1)` evaluates `lower[k-2] * upper[k-2] * detTrik(k-2)` with k = 1, so it reads `lower[-1]` and `upper[-1]` before the arrays and multiplies them by `detTrik(-1) = 0` | any k >= 1, e.g. k = 1 | a base case at k = 1 returning `mid[0]`, as `detTri` does, so no index below 0 is read | high, not executed | Banded.AsWrittenReadsBeforeStart | Banded.ReadsInRange |

The value is unaffected in exact arithmetic (`Banded.AsWrittenValue`), but the
read is out of bounds. If the word before the array holds a NaN or an
infinity, the floating-point product with 0 is NaN rather than 0.
