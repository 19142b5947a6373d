/** Factorials, binomial coefficients and NC(N, M), the number of ways to put
    N identical bosons into M orbitals, as computed by the program both in C
    (by a falling product divided by a factorial) and in the Python helpers
    (the same, choosing the shorter product). */
module Combinatorics {

  /** The mathematical factorial. */
  function Fact(n: nat): (r: nat)
    ensures r >= 1
  {
    if n == 0 then 1 else n * Fact(n - 1)
  }

  /** The binomial coefficient, defined by Pascal's rule. */
  function Binom(n: nat, k: nat): nat
  {
    if k == 0 then 1 else if n == 0 then 0 else Binom(n - 1, k - 1) + Binom(n - 1, k)
  }

  /** The product hi * (hi - 1) * ... * (lo + 1) of the integers in (lo, hi];
      1 when the range is empty. */
  function FallingProduct(hi: int, lo: nat): nat
    decreases hi - lo
  {
    if hi <= lo then 1 else hi * FallingProduct(hi - 1, lo)
  }

  /** The C `fac`: a loop multiplying 2, 3, ..., n; 1 for every n <= 1. */
  method Fac(n: int) returns (r: nat)
    ensures n <= 1 ==> r == 1
    ensures n >= 0 ==> r == Fact(n)
  {
    r := 1;
    var i := 1;
    while i < n
      invariant 1 <= i <= if n < 1 then 1 else n
      invariant r == Fact(i)
    {
      r := r * (i + 1);
      i := i + 1;
    }
    if n <= 1 {
      assert Fact(1) == 1 * Fact(0);
    }
  }

  lemma {:induction false} BinomAbove(n: nat, k: nat)
    requires k > n
    ensures Binom(n, k) == 0
  {
    if n > 0 {
      BinomAbove(n - 1, k - 1);
      BinomAbove(n - 1, k);
    }
  }

  lemma {:induction false} BinomPositive(n: nat, k: nat)
    requires k <= n
    ensures Binom(n, k) >= 1
  {
    if k > 0 {
      BinomPositive(n - 1, k - 1);
    }
  }

  lemma {:induction false} BinomSymmetric(a: nat, b: nat)
    ensures Binom(a + b, a) == Binom(a + b, b)
    decreases a + b
  {
    if a == 0 {
      BinomDiagonal(b);
    } else if b == 0 {
      BinomDiagonal(a);
    } else {
      BinomSymmetric(a - 1, b);
      BinomSymmetric(a, b - 1);
    }
  }

  lemma {:induction false} BinomDiagonal(n: nat)
    ensures Binom(n, n) == 1
  {
    if n > 0 {
      BinomDiagonal(n - 1);
      BinomAbove(n - 1, n);
    }
  }

  lemma MulDistrib(x: int, y: int, z: int)
    ensures x * (y + z) == x * y + x * z
  {
  }

  /** The absorption identity k C(n, k) = n C(n - 1, k - 1). */
  lemma {:induction false} BinomAbsorption(n: nat, k: nat)
    requires n >= 1 && k >= 1
    ensures k * Binom(n, k) == n * Binom(n - 1, k - 1)
  {
    if n == 1 {
      if k >= 2 {
        BinomAbove(0, k - 1);
        BinomAbove(0, k);
      }
    } else {
      var a := Binom(n - 1, k - 1);
      var b := Binom(n - 1, k);
      var c := Binom(n - 2, k - 1);
      assert Binom(n, k) == a + b;
      BinomAbsorption(n - 1, k);
      assert k * b == (n - 1) * c;
      MulDistrib(k, a, b);
      if k == 1 {
        assert a == 1 && c == 1;
        MulDistrib(n, 1, -1);
      } else {
        var d := Binom(n - 2, k - 2);
        BinomAbsorption(n - 1, k - 1);
        assert (k - 1) * a == (n - 1) * d;
        assert a == d + c;
        MulDistrib(n - 1, d, c);
        MulDistrib(a, k - 1, 1);
        MulDistrib(a, n - 1, 1);
        assert k * a == (k - 1) * a + a;
        assert n * a == (n - 1) * a + a;
      }
    }
  }

  lemma MulAssoc(x: int, y: int, z: int)
    ensures x * (y * z) == (x * y) * z
  {
  }

  /** (N + j)(N + j - 1)...(N + 1) = C(N + j, j) j!. */
  lemma {:induction false} FallingProductIsBinom(N: nat, j: nat)
    ensures FallingProduct(N + j, N) == Binom(N + j, j) * Fact(j)
  {
    if j > 0 {
      var p := FallingProduct(N + j - 1, N);
      var c := Binom(N + j - 1, j - 1);
      var d := Binom(N + j, j);
      var f := Fact(j - 1);
      FallingProductIsBinom(N, j - 1);
      assert p == c * f;
      BinomAbsorption(N + j, j);
      assert j * d == (N + j) * c;
      assert FallingProduct(N + j, N) == (N + j) * p;
      assert Fact(j) == j * f;
      MulAssoc(N + j, c, f);
      MulAssoc(d, j, f);
    }
  }

  lemma ExactQuotient(a: nat, b: nat)
    requires b >= 1
    ensures (a * b) / b == a && (a * b) % b == 0
  {
    var q := (a * b) / b;
    var r := (a * b) % b;
    assert a * b == q * b + r;
    MulDistrib(b, a, -q);
    assert (a - q) * b == r;
    MulSignBound(a - q, b);
  }

  lemma {:induction false} MulSignBound(x: int, b: int)
    requires b >= 1
    ensures x >= 1 ==> x * b >= b
    ensures x <= -1 ==> x * b <= -b
    decreases if x < 0 then -x else x
  {
    if x > 1 {
      MulSignBound(x - 1, b);
      MulDistrib(b, x - 1, 1);
    } else if x < -1 {
      MulSignBound(x + 1, b);
      MulDistrib(b, x + 1, -1);
    }
  }

  /** The number of configurations of n bosons in m orbitals, by Pascal's
      rule on the last orbital: it is either empty, or one particle can be
      taken out of it. One orbital (or none) leaves a single configuration. */
  function Configs(n: nat, m: nat): (r: nat)
    ensures r >= 1
    decreases m, n
  {
    if m <= 1 || n == 0 then 1 else Configs(n, m - 1) + Configs(n - 1, m)
  }

  lemma {:induction false} ConfigsIsBinom(n: nat, m: nat)
    requires m >= 1
    ensures Configs(n, m) == Binom(n + m - 1, m - 1)
    decreases m, n
  {
    if m == 1 {
    } else if n == 0 {
      BinomDiagonal(m - 1);
    } else {
      ConfigsIsBinom(n, m - 1);
      ConfigsIsBinom(n - 1, m);
    }
  }

  /** The C `NC`: the falling product (N + M - 1)...(N + 1) divided by
      (M - 1)!, where the factorial of a negative number is 1. The division is
      exact and gives the number of configurations, C(N + M - 1, M - 1). */
  function NC(N: nat, M: nat): (r: nat)
    ensures r == Configs(N, M)
    ensures M >= 1 ==> r == Binom(N + M - 1, M - 1)
  {
    var p := FallingProduct(N + M - 1, N);
    var f := if M == 0 then 1 else Fact(M - 1);
    if M == 0 then
      p / f
    else
      FallingProductIsBinom(N, M - 1);
      ExactQuotient(Binom(N + M - 1, M - 1), f);
      ConfigsIsBinom(N, M);
      p / f
  }

  /** The Python `NC` (valid for at least one orbital): when N > M it divides
      (N + M - 1)...(N + 1) by (M - 1)!, otherwise (N + M - 1)...M by N!. Both
      branches give the same count as the C function. */
  function NCPy(N: nat, M: nat): (r: nat)
    requires M >= 1
    ensures r == Configs(N, M)
  {
    ConfigsIsBinom(N, M);
    if N > M then
      FallingProductIsBinom(N, M - 1);
      ExactQuotient(Binom(N + M - 1, M - 1), Fact(M - 1));
      FallingProduct(N + M - 1, N) / Fact(M - 1)
    else
      FallingProductIsBinom(M - 1, N);
      ExactQuotient(Binom(N + M - 1, N), Fact(N));
      BinomSymmetric(N, M - 1);
      FallingProduct(N + M - 1, M - 1) / Fact(N)
  }

  /** The table the program keeps of NC values: NCmat[i][j] = NC(i, j) for
      j >= 1, and 0 in column 0 (no orbital leaves no configuration to skip). */
  predicate IsNCTable(t: seq<seq<nat>>, N: nat, M: nat)
  {
    |t| == N + 1 &&
    (forall i :: 0 <= i <= N ==> |t[i]| == M + 1 && t[i][0] == 0) &&
    (forall i, j :: 0 <= i <= N && 1 <= j <= M ==> t[i][j] == Configs(i, j))
  }

  /** MountNCmat: the (N + 1) x (M + 1) table of configuration counts. */
  function MountNCmat(N: nat, M: nat): (t: seq<seq<nat>>)
    ensures IsNCTable(t, N, M)
  {
    seq(N + 1, i requires 0 <= i => seq(M + 1, j requires 0 <= j => if j == 0 then 0 else NC(i, j)))
  }
}
