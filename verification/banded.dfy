/** Dense and banded complex matrices: filling a tridiagonal matrix, the
    3-slot row-major sparse layout the Crank-Nicolson right-hand side is
    stored in, the products over both layouts, and the continuant
    recurrences behind the determinant and the inverse of a tridiagonal
    matrix. */
module Banded {
  import opened ComplexNumbers

  type Mat = seq<seq<Complex>>

  predicate IsMatrix(A: Mat, rows: nat, cols: nat)
  {
    |A| == rows && forall i :: 0 <= i < rows ==> |A[i]| == cols
  }

  function Min(a: int, b: int): int { if a <= b then a else b }

  function Abs(k: int): nat { if k < 0 then -k else k }

  /** cmatFill: the rows x cols matrix every entry of which is z. */
  function Fill(rows: nat, cols: nat, z: Complex): (A: Mat)
    ensures IsMatrix(A, rows, cols)
    ensures forall i, j :: 0 <= i < rows && 0 <= j < cols ==> A[i][j] == z
  {
    seq(rows, i => seq(cols, j => z))
  }

  /** cmatFillDK: writes z along the k-th diagonal of an n x n matrix (the
      entries with j - i == k), taking z[i] for row i when k >= 0 and z[j]
      for column j when k < 0, that is, always z at the smaller of the two
      coordinates. The loop bound n - k is compared as an unsigned number,
      so the source needs |k| <= n. */
  method FillDiagonal(A: Mat, n: nat, k: int, z: seq<Complex>) returns (B: Mat)
    requires IsMatrix(A, n, n) && Abs(k) <= n && |z| >= n - Abs(k)
    ensures IsMatrix(B, n, n)
    ensures forall i, j :: 0 <= i < n && 0 <= j < n ==>
      B[i][j] == if j - i == k then z[Min(i, j)] else A[i][j]
  {
    B := A;
    var t := 0;
    while t < n - Abs(k)
      invariant 0 <= t <= n - Abs(k)
      invariant IsMatrix(B, n, n)
      invariant forall i, j :: 0 <= i < n && 0 <= j < n ==>
        B[i][j] == if j - i == k && Min(i, j) < t then z[Min(i, j)] else A[i][j]
    {
      if k >= 0 {
        B := B[t := B[t][t + k := z[t]]];
      } else {
        B := B[t - k := B[t - k][t := z[t]]];
      }
      t := t + 1;
    }
  }

  /** The entry (i, j) of the tridiagonal matrix with diagonal mid, lower
      diagonal lower (entry (j + 1, j) is lower[j]) and upper diagonal
      upper (entry (i, i + 1) is upper[i]). */
  function TriEntry(upper: seq<Complex>, mid: seq<Complex>, lower: seq<Complex>, i: int, j: int): Complex
  {
    if i == j && 0 <= i < |mid| then mid[i]
    else if i == j + 1 && 0 <= j < |lower| then lower[j]
    else if j == i + 1 && 0 <= i < |upper| then upper[i]
    else Zero
  }

  /** cmatFillTri: zero fill, then the lower, upper and main diagonals. */
  method FillTri(n: nat, upper: seq<Complex>, mid: seq<Complex>, lower: seq<Complex>) returns (T: Mat)
    requires n >= 1 && |upper| >= n - 1 && |mid| >= n && |lower| >= n - 1
    ensures IsMatrix(T, n, n)
    ensures forall i, j :: 0 <= i < n && 0 <= j < n ==> T[i][j] == TriEntry(upper[..n - 1], mid[..n], lower[..n - 1], i, j)
  {
    T := Fill(n, n, Zero);
    T := FillDiagonal(T, n, -1, lower);
    T := FillDiagonal(T, n, 1, upper);
    T := FillDiagonal(T, n, 0, mid);
  }

  /** The term A[j] v[j] of a dot product, zero outside both sequences. */
  function DotTerm(a: seq<Complex>, v: seq<Complex>): int -> Complex
  {
    j => if 0 <= j < |a| && j < |v| then Mul(a[j], v[j]) else Zero
  }

  /** cmatvec: ans[i] is row i of A times v, accumulated from column 0. The
      first term is read unconditionally, so the source needs n >= 1. */
  method MatVec(A: Mat, m: nat, n: nat, v: seq<Complex>) returns (ans: seq<Complex>)
    requires IsMatrix(A, m, n) && n >= 1 && |v| >= n
    ensures |ans| == m
    ensures forall i :: 0 <= i < m ==> ans[i] == SumC(0, n, DotTerm(A[i], v))
  {
    ans := [];
    var i := 0;
    while i < m
      invariant 0 <= i <= m && |ans| == i
      invariant forall r :: 0 <= r < i ==> ans[r] == SumC(0, n, DotTerm(A[r], v))
    {
      var acc := Mul(A[i][0], v[0]);
      var j := 1;
      while j < n
        invariant 1 <= j <= n
        invariant acc == SumC(0, j, DotTerm(A[i], v))
      {
        SumCLast(0, j, DotTerm(A[i], v));
        acc := Add(acc, Mul(A[i][j], v[j]));
        j := j + 1;
      }
      ans := ans + [acc];
      i := i + 1;
    }
  }

  /** The column j of A as a sequence. */
  function Column(A: Mat, j: int): seq<Complex>
  {
    seq(|A|, k requires 0 <= k < |A| => if 0 <= j < |A[k]| then A[k][j] else Zero)
  }

  /** cmatmat: adds M A to ans (m x n times n x l); it never clears ans, so
      a caller wanting the bare product passes a zero matrix. */
  method MatMatAccumulate(m: nat, n: nat, l: nat, M: Mat, A: Mat, ans: Mat) returns (out: Mat)
    requires IsMatrix(M, m, n) && IsMatrix(A, n, l) && IsMatrix(ans, m, l)
    ensures IsMatrix(out, m, l)
    ensures forall i, j :: 0 <= i < m && 0 <= j < l ==>
      out[i][j] == Add(ans[i][j], SumC(0, n, DotTerm(M[i], Column(A, j))))
  {
    out := [];
    var i := 0;
    while i < m
      invariant 0 <= i <= m && |out| == i
      invariant forall r :: 0 <= r < i ==> |out[r]| == l
      invariant forall r, j :: 0 <= r < i && 0 <= j < l ==>
        out[r][j] == Add(ans[r][j], SumC(0, n, DotTerm(M[r], Column(A, j))))
    {
      var row: seq<Complex> := [];
      var j := 0;
      while j < l
        invariant 0 <= j <= l && |row| == j
        invariant forall c :: 0 <= c < j ==> row[c] == Add(ans[i][c], SumC(0, n, DotTerm(M[i], Column(A, c))))
      {
        var acc := ans[i][j];
        var k := 0;
        while k < n
          invariant 0 <= k <= n
          invariant acc == Add(ans[i][j], SumC(0, k, DotTerm(M[i], Column(A, j))))
        {
          SumCLast(0, k, DotTerm(M[i], Column(A, j)));
          acc := Add(acc, Mul(M[i][k], A[k][j]));
          k := k + 1;
        }
        row := row + [acc];
        j := j + 1;
      }
      out := out + [row];
      i := i + 1;
    }
  }

  /** A sparse matrix of n rows with m stored entries per row: the l-th
      entry of row i sits at position i + l n of vals, and cols gives its
      column. */
  datatype CCS = CCS(m: nat, vals: seq<Complex>, cols: seq<int>)

  predicate WellFormed(A: CCS, n: nat)
  {
    |A.vals| == A.m * n && |A.cols| == A.m * n &&
    forall t :: 0 <= t < |A.cols| ==> 0 <= A.cols[t] < n
  }

  /** The l-th stored product of row i. */
  function SlotTerm(A: CCS, n: nat, vec: seq<Complex>, i: int): int -> Complex
  {
    l => var t := i + l * n;
      if 0 <= t < |A.vals| && t < |A.cols| && 0 <= A.cols[t] < |vec| then Mul(A.vals[t], vec[A.cols[t]]) else Zero
  }

  /** CCSvec: ans[i] is the sum over the stored entries of row i of value
      times the vector entry at its column. */
  method CCSvec(n: nat, A: CCS, vec: seq<Complex>) returns (ans: seq<Complex>)
    requires A.m >= 1 && |A.vals| == A.m * n && |A.cols| == A.m * n
    requires forall t :: 0 <= t < |A.cols| ==> 0 <= A.cols[t] < |vec|
    ensures |ans| == n
    ensures forall i :: 0 <= i < n ==> ans[i] == SumC(0, A.m, SlotTerm(A, n, vec, i))
  {
    ans := [];
    var i := 0;
    while i < n
      invariant 0 <= i <= n && |ans| == i
      invariant forall r :: 0 <= r < i ==> ans[r] == SumC(0, A.m, SlotTerm(A, n, vec, r))
    {
      SlotAt(A, n, vec, i, 0);
      var acc := Mul(A.vals[i], vec[A.cols[i]]);
      assert acc == SumC(0, 1, SlotTerm(A, n, vec, i));
      var l := 1;
      while l < A.m
        invariant 1 <= l <= A.m
        invariant acc == SumC(0, l, SlotTerm(A, n, vec, i))
      {
        SlotAt(A, n, vec, i, l);
        SumCLast(0, l, SlotTerm(A, n, vec, i));
        acc := Add(acc, Mul(A.vals[i + l * n], vec[A.cols[i + l * n]]));
        l := l + 1;
      }
      ans := ans + [acc];
      i := i + 1;
    }
  }

  lemma SlotAt(A: CCS, n: nat, vec: seq<Complex>, i: nat, l: nat)
    requires i < n && l < A.m && |A.vals| == A.m * n && |A.cols| == A.m * n
    requires forall t :: 0 <= t < |A.cols| ==> 0 <= A.cols[t] < |vec|
    ensures 0 <= i + l * n < A.m * n
    ensures SlotTerm(A, n, vec, i)(l) == Mul(A.vals[i + l * n], vec[A.cols[i + l * n]])
  {
    SlotIndex(i, l, n, A.m);
  }

  lemma SlotIndex(i: nat, l: nat, n: nat, m: nat)
    requires i < n && l < m
    ensures 0 <= i + l * n < m * n
  {
    assert l * n + n <= m * n by {
      assert (l + 1) * n <= m * n by {
        MulMonotone(l + 1, m, n);
      }
    }
  }

  lemma {:induction false} MulMonotone(a: nat, b: nat, n: nat)
    requires a <= b
    ensures a * n <= b * n
    decreases b - a
  {
    if a < b {
      MulMonotone(a + 1, b, n);
    }
  }

  /** A three-slot layout: the row sum is the three stored products. */
  lemma StoredThree(A: CCS, n: nat, vec: seq<Complex>, i: nat)
    requires A.m == 3 && WellFormed(A, n) && |vec| == n && i < n
    ensures SumC(0, 3, SlotTerm(A, n, vec, i))
         == Add(Mul(A.vals[i], vec[A.cols[i]]), Add(Mul(A.vals[i + n], vec[A.cols[i + n]]), Add(Mul(A.vals[i + 2 * n], vec[A.cols[i + 2 * n]]), Zero)))
  {
    var g := SlotTerm(A, n, vec, i);
    assert g(0) == Mul(A.vals[i], vec[A.cols[i]]);
    assert g(1) == Mul(A.vals[i + n], vec[A.cols[i + n]]);
    assert g(2) == Mul(A.vals[i + 2 * n], vec[A.cols[i + 2 * n]]);
  }

  /** triToCCS (n >= 2): row 0 stores mid[0] at column 0, upper[0] at
      column 1 and a zero pad at column 0; row i in 1..n-2 stores lower[i-1],
      mid[i] and upper[i] at columns i-1, i, i+1; row n-1 stores lower[n-2]
      and mid[n-1] at columns n-2 and n-1 and a zero pad at column 0. */
  function TriToCCS(n: nat, upper: seq<Complex>, lower: seq<Complex>, mid: seq<Complex>): (A: CCS)
    requires n >= 2 && |upper| >= n - 1 && |lower| >= n - 1 && |mid| >= n
    ensures A.m == 3 && WellFormed(A, n)
    ensures A.vals[2 * n] == Zero && A.vals[3 * n - 1] == Zero
  {
    var v0 := seq(n, i requires 0 <= i < n => if i == 0 then mid[0] else lower[i - 1]);
    var v1 := seq(n, i requires 0 <= i < n => if i == 0 then upper[0] else mid[i]);
    var v2 := seq(n, i requires 0 <= i < n => if i == 0 || i == n - 1 then Zero else upper[i]);
    var c0 := seq(n, i requires 0 <= i < n => if i == 0 then 0 else i - 1);
    var c1 := seq(n, i requires 0 <= i < n => if i == 0 then 1 else i);
    var c2 := seq(n, i requires 0 <= i < n => if i == 0 || i == n - 1 then 0 else i + 1);
    CCS(3, v0 + v1 + v2, c0 + c1 + c2)
  }

  /** CyclicToCCS (n >= 3): as triToCCS, with the corner upper[n-1] at
      (0, n-1) in the pad of row 0, and row n-1 storing lower[n-1] at column
      0, lower[n-2] at column n-2 and mid[n-1] at column n-1. */
  function CyclicToCCS(n: nat, upper: seq<Complex>, lower: seq<Complex>, mid: seq<Complex>): (A: CCS)
    requires n >= 3 && |upper| >= n && |lower| >= n && |mid| >= n
    ensures A.m == 3 && WellFormed(A, n)
  {
    var v0 := seq(n, i requires 0 <= i < n => if i == 0 then mid[0] else if i == n - 1 then lower[n - 1] else lower[i - 1]);
    var v1 := seq(n, i requires 0 <= i < n => if i == 0 then upper[0] else if i == n - 1 then lower[n - 2] else mid[i]);
    var v2 := seq(n, i requires 0 <= i < n => if i == 0 then upper[n - 1] else if i == n - 1 then mid[n - 1] else upper[i]);
    var c0 := seq(n, i requires 0 <= i < n => if i == 0 then 0 else if i == n - 1 then 0 else i - 1);
    var c1 := seq(n, i requires 0 <= i < n => if i == 0 then 1 else if i == n - 1 then n - 2 else i);
    var c2 := seq(n, i requires 0 <= i < n => if i == 0 then n - 1 else if i == n - 1 then n - 1 else i + 1);
    CCS(3, v0 + v1 + v2, c0 + c1 + c2)
  }

  /** The n x n tridiagonal matrix as a value. */
  function TriMatrix(n: nat, upper: seq<Complex>, mid: seq<Complex>, lower: seq<Complex>): (T: Mat)
    ensures IsMatrix(T, n, n)
  {
    seq(n, i => seq(n, j => TriEntry(upper, mid, lower, i, j)))
  }

  /** The periodic tridiagonal matrix: the tridiagonal part plus the corners
      upper[n-1] at (0, n-1) and lower[n-1] at (n-1, 0). */
  function CyclicEntry(n: nat, upper: seq<Complex>, mid: seq<Complex>, lower: seq<Complex>, i: int, j: int): Complex
    requires n >= 3 && |upper| >= n && |lower| >= n && |mid| >= n
  {
    if i == 0 && j == n - 1 then upper[n - 1]
    else if i == n - 1 && j == 0 then lower[n - 1]
    else TriEntry(upper[..n - 1], mid[..n], lower[..n - 1], i, j)
  }

  function CyclicMatrix(n: nat, upper: seq<Complex>, mid: seq<Complex>, lower: seq<Complex>): (T: Mat)
    requires n >= 3 && |upper| >= n && |lower| >= n && |mid| >= n
    ensures IsMatrix(T, n, n)
  {
    seq(n, i => seq(n, j => CyclicEntry(n, upper, mid, lower, i, j)))
  }

  /** Row i of the tridiagonal product, written out. */
  function TriRow(n: nat, upper: seq<Complex>, lower: seq<Complex>, mid: seq<Complex>, v: seq<Complex>, i: nat): Complex
    requires n >= 2 && |upper| >= n - 1 && |lower| >= n - 1 && |mid| >= n && |v| == n && i < n
  {
    var left := if i == 0 then Zero else Mul(lower[i - 1], v[i - 1]);
    var right := if i == n - 1 then Zero else Mul(upper[i], v[i + 1]);
    Add(Add(left, Mul(mid[i], v[i])), right)
  }

  lemma TriDenseRow(n: nat, upper: seq<Complex>, lower: seq<Complex>, mid: seq<Complex>, v: seq<Complex>, i: nat)
    requires n >= 2 && |upper| >= n - 1 && |lower| >= n - 1 && |mid| >= n && |v| == n && i < n
    ensures SumC(0, n, DotTerm(TriMatrix(n, upper[..n - 1], mid[..n], lower[..n - 1])[i], v)) == TriRow(n, upper, lower, mid, v, i)
  {
    var T := TriMatrix(n, upper[..n - 1], mid[..n], lower[..n - 1]);
    var f := DotTerm(T[i], v);
    forall j | 0 <= j < n
      ensures f(j) == Mul(TriEntry(upper[..n - 1], mid[..n], lower[..n - 1], i, j), v[j])
      ensures TriEntry(upper[..n - 1], mid[..n], lower[..n - 1], i, j) == Zero ==> f(j) == Zero
    {
      assert T[i][j] == TriEntry(upper[..n - 1], mid[..n], lower[..n - 1], i, j);
    }
    if i == 0 {
      SumCTwo(0, n, f, 0, 1);
    } else if i == n - 1 {
      SumCTwo(0, n, f, n - 2, n - 1);
    } else {
      SumCThree(0, n, f, i - 1, i, i + 1);
    }
  }

  /** Where triToCCS puts the three stored entries of row i. */
  lemma TriSlots(n: nat, upper: seq<Complex>, lower: seq<Complex>, mid: seq<Complex>, i: nat)
    requires n >= 2 && |upper| >= n - 1 && |lower| >= n - 1 && |mid| >= n && i < n
    ensures var A := TriToCCS(n, upper, lower, mid);
      A.vals[i] == (if i == 0 then mid[0] else lower[i - 1]) &&
      A.cols[i] == (if i == 0 then 0 else i - 1) &&
      A.vals[i + n] == (if i == 0 then upper[0] else mid[i]) &&
      A.cols[i + n] == (if i == 0 then 1 else i) &&
      A.vals[i + 2 * n] == (if i == 0 || i == n - 1 then Zero else upper[i]) &&
      A.cols[i + 2 * n] == (if i == 0 || i == n - 1 then 0 else i + 1)
  {
  }

  lemma TriSparseRow(n: nat, upper: seq<Complex>, lower: seq<Complex>, mid: seq<Complex>, v: seq<Complex>, i: nat)
    requires n >= 2 && |upper| >= n - 1 && |lower| >= n - 1 && |mid| >= n && |v| == n && i < n
    ensures SumC(0, 3, SlotTerm(TriToCCS(n, upper, lower, mid), n, v, i)) == TriRow(n, upper, lower, mid, v, i)
  {
    var A := TriToCCS(n, upper, lower, mid);
    StoredThree(A, n, v, i);
    TriSlots(n, upper, lower, mid, i);
    ThreeTerms(n, upper, lower, mid, v, i,
      Mul(A.vals[i], v[A.cols[i]]), Mul(A.vals[i + n], v[A.cols[i + n]]), Mul(A.vals[i + 2 * n], v[A.cols[i + 2 * n]]));
  }

  lemma ThreeTerms(n: nat, upper: seq<Complex>, lower: seq<Complex>, mid: seq<Complex>, v: seq<Complex>, i: nat,
                   g0: Complex, g1: Complex, g2: Complex)
    requires n >= 2 && |upper| >= n - 1 && |lower| >= n - 1 && |mid| >= n && |v| == n && i < n
    requires g0 == Mul(if i == 0 then mid[0] else lower[i - 1], v[if i == 0 then 0 else i - 1])
    requires g1 == Mul(if i == 0 then upper[0] else mid[i], v[if i == 0 then 1 else i])
    requires g2 == Mul(if i == 0 || i == n - 1 then Zero else upper[i], v[if i == 0 || i == n - 1 then 0 else i + 1])
    ensures Add(g0, Add(g1, Add(g2, Zero))) == TriRow(n, upper, lower, mid, v, i)
  {
  }

  /** The sparse product over the triToCCS layout is the dense product with
      the tridiagonal matrix cmatFillTri builds. */
  lemma TriCCSProduct(n: nat, upper: seq<Complex>, lower: seq<Complex>, mid: seq<Complex>, v: seq<Complex>, i: nat)
    requires n >= 2 && |upper| >= n - 1 && |lower| >= n - 1 && |mid| >= n && |v| == n && i < n
    ensures SumC(0, 3, SlotTerm(TriToCCS(n, upper, lower, mid), n, v, i))
         == SumC(0, n, DotTerm(TriMatrix(n, upper[..n - 1], mid[..n], lower[..n - 1])[i], v))
  {
    TriDenseRow(n, upper, lower, mid, v, i);
    TriSparseRow(n, upper, lower, mid, v, i);
  }

  /** Row i of the periodic tridiagonal product, written out: the neighbours
      of rows 0 and n-1 wrap around. */
  function CyclicRow(n: nat, upper: seq<Complex>, lower: seq<Complex>, mid: seq<Complex>, v: seq<Complex>, i: nat): Complex
    requires n >= 3 && |upper| >= n && |lower| >= n && |mid| >= n && |v| == n && i < n
  {
    if i == 0 then Add(Add(Mul(mid[0], v[0]), Mul(upper[0], v[1])), Mul(upper[n - 1], v[n - 1]))
    else if i == n - 1 then Add(Add(Mul(lower[n - 1], v[0]), Mul(lower[n - 2], v[n - 2])), Mul(mid[n - 1], v[n - 1]))
    else Add(Add(Mul(lower[i - 1], v[i - 1]), Mul(mid[i], v[i])), Mul(upper[i], v[i + 1]))
  }

  lemma CyclicDenseRow(n: nat, upper: seq<Complex>, lower: seq<Complex>, mid: seq<Complex>, v: seq<Complex>, i: nat)
    requires n >= 3 && |upper| >= n && |lower| >= n && |mid| >= n && |v| == n && i < n
    ensures SumC(0, n, DotTerm(CyclicMatrix(n, upper, mid, lower)[i], v)) == CyclicRow(n, upper, lower, mid, v, i)
  {
    var T := CyclicMatrix(n, upper, mid, lower);
    var f := DotTerm(T[i], v);
    forall j | 0 <= j < n
      ensures f(j) == Mul(CyclicEntry(n, upper, mid, lower, i, j), v[j])
      ensures CyclicEntry(n, upper, mid, lower, i, j) == Zero ==> f(j) == Zero
    {
      assert T[i][j] == CyclicEntry(n, upper, mid, lower, i, j);
    }
    if i == 0 {
      SumCThree(0, n, f, 0, 1, n - 1);
    } else if i == n - 1 {
      SumCThree(0, n, f, 0, n - 2, n - 1);
    } else {
      SumCThree(0, n, f, i - 1, i, i + 1);
    }
  }

  /** Where CyclicToCCS puts the three stored entries of row i. */
  lemma CyclicSlots(n: nat, upper: seq<Complex>, lower: seq<Complex>, mid: seq<Complex>, i: nat)
    requires n >= 3 && |upper| >= n && |lower| >= n && |mid| >= n && i < n
    ensures var A := CyclicToCCS(n, upper, lower, mid);
      A.vals[i] == (if i == 0 then mid[0] else if i == n - 1 then lower[n - 1] else lower[i - 1]) &&
      A.cols[i] == (if i == 0 then 0 else if i == n - 1 then 0 else i - 1) &&
      A.vals[i + n] == (if i == 0 then upper[0] else if i == n - 1 then lower[n - 2] else mid[i]) &&
      A.cols[i + n] == (if i == 0 then 1 else if i == n - 1 then n - 2 else i) &&
      A.vals[i + 2 * n] == (if i == 0 then upper[n - 1] else if i == n - 1 then mid[n - 1] else upper[i]) &&
      A.cols[i + 2 * n] == (if i == 0 then n - 1 else if i == n - 1 then n - 1 else i + 1)
  {
  }

  lemma CyclicSparseRow(n: nat, upper: seq<Complex>, lower: seq<Complex>, mid: seq<Complex>, v: seq<Complex>, i: nat)
    requires n >= 3 && |upper| >= n && |lower| >= n && |mid| >= n && |v| == n && i < n
    ensures SumC(0, 3, SlotTerm(CyclicToCCS(n, upper, lower, mid), n, v, i)) == CyclicRow(n, upper, lower, mid, v, i)
  {
    var A := CyclicToCCS(n, upper, lower, mid);
    StoredThree(A, n, v, i);
    CyclicSlots(n, upper, lower, mid, i);
    var g0 := Mul(A.vals[i], v[A.cols[i]]);
    var g1 := Mul(A.vals[i + n], v[A.cols[i + n]]);
    var g2 := Mul(A.vals[i + 2 * n], v[A.cols[i + 2 * n]]);
    assert CyclicRow(n, upper, lower, mid, v, i) == Add(Add(g0, g1), g2);
  }

  /** The sparse product over the CyclicToCCS layout is the dense product
      with the periodic tridiagonal matrix. */
  lemma CyclicCCSProduct(n: nat, upper: seq<Complex>, lower: seq<Complex>, mid: seq<Complex>, v: seq<Complex>, i: nat)
    requires n >= 3 && |upper| >= n && |lower| >= n && |mid| >= n && |v| == n && i < n
    ensures SumC(0, 3, SlotTerm(CyclicToCCS(n, upper, lower, mid), n, v, i))
         == SumC(0, n, DotTerm(CyclicMatrix(n, upper, mid, lower)[i], v))
  {
    CyclicDenseRow(n, upper, lower, mid, v, i);
    CyclicSparseRow(n, upper, lower, mid, v, i);
  }

  /** The continuant recurrence behind detTri and detTrik: theta_0 = 1,
      theta_1 = mid[0], theta_k = mid[k-1] theta_{k-1}
      - lower[k-2] upper[k-2] theta_{k-2}; theta_k is the determinant of the
      leading k x k block of the tridiagonal matrix. */
  function DetTrik(k: nat, upper: seq<Complex>, lower: seq<Complex>, mid: seq<Complex>): Complex
    requires k <= |mid| && k <= |upper| + 1 && k <= |lower| + 1
  {
    if k == 0 then One
    else if k == 1 then mid[0]
    else Sub(Mul(mid[k - 1], DetTrik(k - 1, upper, lower, mid)),
             Mul(Mul(lower[k - 2], upper[k - 2]), DetTrik(k - 2, upper, lower, mid)))
  }

  /** detTri: the whole table theta_0 .. theta_n, built forwards. */
  method DetTri(n: nat, upper: seq<Complex>, lower: seq<Complex>, mid: seq<Complex>) returns (theta: seq<Complex>)
    requires n >= 1 && |mid| >= n && |upper| >= n - 1 && |lower| >= n - 1
    ensures |theta| == n + 1
    ensures forall k :: 0 <= k <= n ==> theta[k] == DetTrik(k, upper, lower, mid)
  {
    theta := [One, mid[0]];
    var i := 1;
    while i < n
      invariant 1 <= i <= n && |theta| == i + 1
      invariant forall k :: 0 <= k <= i ==> theta[k] == DetTrik(k, upper, lower, mid)
    {
      theta := theta + [Sub(Mul(mid[i], theta[i]), Mul(Mul(lower[i - 1], upper[i - 1]), theta[i - 1]))];
      i := i + 1;
    }
  }

  /** The recursive detTrik as written: the k = 1 step evaluates
      lower[k-2] upper[k-2] detTrik(k-2), that is lower[-1] upper[-1] times
      detTrik(-1) = 0. The product read before the start of the arrays is the
      parameter `before`, since its value is whatever memory holds there. */
  function DetTrikAsWritten(k: int, upper: seq<Complex>, lower: seq<Complex>, mid: seq<Complex>, before: Complex): Complex
    requires -1 <= k <= |mid| && k <= |upper| + 1 && k <= |lower| + 1
    decreases k + 1
  {
    if k == -1 then Zero
    else if k == 0 then One
    else
      var coupling := if k - 2 < 0 then before else Mul(lower[k - 2], upper[k - 2]);
      Sub(Mul(mid[k - 1], DetTrikAsWritten(k - 1, upper, lower, mid, before)),
          Mul(coupling, DetTrikAsWritten(k - 2, upper, lower, mid, before)))
  }

  /** The indices of `lower` (and of `upper`) that the recursive detTrik as
      written reads on the way to theta_k. */
  function ReadsAsWritten(k: int): set<int>
    requires k >= -1
    decreases k + 1
  {
    if k <= 0 then {} else {k - 2} + ReadsAsWritten(k - 1) + ReadsAsWritten(k - 2)
  }

  /** The indices the corrected recursion (base case k = 1) reads. */
  function Reads(k: nat): set<int>
  {
    if k <= 1 then {} else {k - 2} + Reads(k - 1) + Reads(k - 2)
  }

  /** Every k >= 1 makes the recursion as written read index -1. */
  lemma {:induction false} AsWrittenReadsBeforeStart(k: int)
    requires k >= 1
    ensures -1 in ReadsAsWritten(k)
  {
    if k > 1 {
      AsWrittenReadsBeforeStart(k - 1);
    }
  }

  /** The corrected recursion stays within lower[0 .. k-2]. */
  lemma {:induction false} ReadsInRange(k: nat)
    ensures forall j :: j in Reads(k) ==> 0 <= j <= k - 2
  {
    if k > 1 {
      ReadsInRange(k - 1);
      ReadsInRange(k - 2);
    }
  }

  /** In exact arithmetic the value read before the start is multiplied by
      zero, so the recursion as written gives theta_k whatever it reads. */
  lemma {:induction false} AsWrittenValue(k: nat, upper: seq<Complex>, lower: seq<Complex>, mid: seq<Complex>, before: Complex)
    requires k <= |mid| && k <= |upper| + 1 && k <= |lower| + 1
    ensures DetTrikAsWritten(k, upper, lower, mid, before) == DetTrik(k, upper, lower, mid)
  {
    if k >= 2 {
      AsWrittenValue(k - 1, upper, lower, mid, before);
      AsWrittenValue(k - 2, upper, lower, mid, before);
    }
  }

  /** The backward continuant of phiTri: phi_n = 1, phi_{n-1} = mid[n-1],
      phi_i = mid[i] phi_{i+1} - lower[i] upper[i] phi_{i+2}; phi_i is the
      determinant of the trailing block from row i on. */
  function Phi(i: nat, n: nat, upper: seq<Complex>, lower: seq<Complex>, mid: seq<Complex>): Complex
    requires n >= 1 && i <= n && |mid| >= n && |upper| >= n - 1 && |lower| >= n - 1
    decreases n - i
  {
    if i == n then One
    else if i == n - 1 then mid[n - 1]
    else Sub(Mul(mid[i], Phi(i + 1, n, upper, lower, mid)),
             Mul(Mul(lower[i], upper[i]), Phi(i + 2, n, upper, lower, mid)))
  }

  /** phiTri: the table phi_0 .. phi_n, built backwards. */
  method PhiTri(n: nat, upper: seq<Complex>, lower: seq<Complex>, mid: seq<Complex>) returns (phi: seq<Complex>)
    requires n >= 1 && |mid| >= n && |upper| >= n - 1 && |lower| >= n - 1
    ensures |phi| == n + 1
    ensures forall i :: 0 <= i <= n ==> phi[i] == Phi(i, n, upper, lower, mid)
  {
    phi := [mid[n - 1], One];
    var i := n - 1;
    while i > 0
      invariant 0 <= i <= n - 1 && |phi| == n + 1 - i
      invariant forall t :: 0 <= t < |phi| ==> phi[t] == Phi(i + t, n, upper, lower, mid)
    {
      var next := Sub(Mul(mid[i - 1], phi[0]), Mul(Mul(lower[i - 1], upper[i - 1]), phi[1]));
      phi := [next] + phi;
      i := i - 1;
    }
  }

  function Reverse(s: seq<Complex>): (r: seq<Complex>)
    ensures |r| == |s| && forall k :: 0 <= k < |s| ==> r[k] == s[|s| - 1 - k]
  {
    seq(|s|, k requires 0 <= k < |s| => s[|s| - 1 - k])
  }

  /** Reading the matrix from the bottom-right corner: phi_i is theta_{n-i}
      of the reversed arrays, so phiTri is detTri run backwards. */
  lemma {:induction false} PhiIsReversedTheta(i: nat, n: nat, upper: seq<Complex>, lower: seq<Complex>, mid: seq<Complex>)
    requires n >= 1 && i <= n && |mid| >= n && |upper| >= n - 1 && |lower| >= n - 1
    ensures Phi(i, n, upper, lower, mid)
         == DetTrik(n - i, Reverse(upper[..n - 1]), Reverse(lower[..n - 1]), Reverse(mid[..n]))
    decreases n - i
  {
    if i < n - 1 {
      PhiIsReversedTheta(i + 1, n, upper, lower, mid);
      PhiIsReversedTheta(i + 2, n, upper, lower, mid);
    }
  }

  /** The product of -a[m] over j <= m < i, accumulated from m = i-1 down
      to j as the prodU and prodL loops of invTri do. */
  function ProdNeg(a: seq<Complex>, j: nat, i: nat): Complex
    requires j <= i <= |a|
    decreases i - j
  {
    if j == i then One else Mul(ProdNeg(a, j + 1, i), Scale(-1.0, a[j]))
  }

  /** What invTri needs of its arguments: n >= 1, arrays long enough and a
      non-zero determinant theta_n. */
  predicate Invertible(n: nat, upper: seq<Complex>, lower: seq<Complex>, mid: seq<Complex>)
  {
    n >= 1 && |mid| >= n && |upper| >= n - 1 && |lower| >= n - 1 &&
    Norm2(DetTrik(n, upper, lower, mid)) != 0.0
  }

  /** Entry (r, c) of the inverse by the continuant formula: theta_r
      phi_{r+1} / theta_n on the diagonal, and off it the product of the
      negated couplings between r and c times theta_{min} phi_{max+1} /
      theta_n, with upper above the diagonal and lower below. */
  function InvEntry(n: nat, upper: seq<Complex>, lower: seq<Complex>, mid: seq<Complex>, r: nat, c: nat): Complex
    requires Invertible(n, upper, lower, mid) && r < n && c < n
  {
    var thetaN := DetTrik(n, upper, lower, mid);
    if r == c then
      Div(Mul(DetTrik(r, upper, lower, mid), Phi(r + 1, n, upper, lower, mid)), thetaN)
    else if r < c then
      Div(Mul(Mul(ProdNeg(upper, r, c), DetTrik(r, upper, lower, mid)), Phi(c + 1, n, upper, lower, mid)), thetaN)
    else
      Div(Mul(Mul(ProdNeg(lower, c, r), DetTrik(c, upper, lower, mid)), Phi(r + 1, n, upper, lower, mid)), thetaN)
  }

  /** theta and phi hold the forward and backward continuants. */
  predicate Continuants(n: nat, upper: seq<Complex>, lower: seq<Complex>, mid: seq<Complex>, theta: seq<Complex>, phi: seq<Complex>)
    requires n >= 1 && |mid| >= n && |upper| >= n - 1 && |lower| >= n - 1
  {
    |theta| == n + 1 && |phi| == n + 1 &&
    (forall k :: 0 <= k <= n ==> theta[k] == DetTrik(k, upper, lower, mid)) &&
    (forall k :: 0 <= k <= n ==> phi[k] == Phi(k, n, upper, lower, mid))
  }

  /** The entries of the leading i x i block are the continuant formula. */
  predicate BlockDone(n: nat, upper: seq<Complex>, lower: seq<Complex>, mid: seq<Complex>, ans: Mat, i: nat)
    requires Invertible(n, upper, lower, mid) && IsMatrix(ans, n, n) && i <= n
  {
    forall r, c :: 0 <= r < i && 0 <= c < i ==> ans[r][c] == InvEntry(n, upper, lower, mid, r, c)
  }

  /** The values the inner loop of invTri writes at (t, i) and (i, t). */
  lemma PairEntries(n: nat, upper: seq<Complex>, lower: seq<Complex>, mid: seq<Complex>,
                    theta: seq<Complex>, phi: seq<Complex>, t: nat, i: nat)
    requires Invertible(n, upper, lower, mid) && Continuants(n, upper, lower, mid, theta, phi)
    requires t < i < n
    ensures Norm2(theta[n]) != 0.0
    ensures Div(Mul(Mul(ProdNeg(upper, t, i), theta[t]), phi[i + 1]), theta[n]) == InvEntry(n, upper, lower, mid, t, i)
    ensures Div(Mul(Mul(ProdNeg(lower, t, i), theta[t]), phi[i + 1]), theta[n]) == InvEntry(n, upper, lower, mid, i, t)
  {
  }

  /** The inner loop of invTri for column i: the diagonal entry, then the
      entries (j, i) and (i, j) for j = i-1 down to 0, so the leading
      (i+1) x (i+1) block is complete. */
  method FillPairs(n: nat, upper: seq<Complex>, lower: seq<Complex>, mid: seq<Complex>,
                   theta: seq<Complex>, phi: seq<Complex>, i: nat, ans0: Mat) returns (ans: Mat)
    requires Invertible(n, upper, lower, mid) && Continuants(n, upper, lower, mid, theta, phi)
    requires i < n && IsMatrix(ans0, n, n) && BlockDone(n, upper, lower, mid, ans0, i)
    ensures IsMatrix(ans, n, n) && BlockDone(n, upper, lower, mid, ans, i + 1)
  {
    var thetaN := theta[n];
    ans := ans0[i := ans0[i][i := Div(Mul(theta[i], phi[i + 1]), thetaN)]];
    var prodU := One;
    var prodL := One;
    var j := i;
    while j > 0
      invariant 0 <= j <= i && IsMatrix(ans, n, n)
      invariant prodU == ProdNeg(upper, j, i) && prodL == ProdNeg(lower, j, i)
      invariant BlockDone(n, upper, lower, mid, ans, i)
      invariant ans[i][i] == InvEntry(n, upper, lower, mid, i, i)
      invariant forall t :: j <= t < i ==> ans[t][i] == InvEntry(n, upper, lower, mid, t, i)
      invariant forall t :: j <= t < i ==> ans[i][t] == InvEntry(n, upper, lower, mid, i, t)
    {
      prodU := Mul(prodU, Scale(-1.0, upper[j - 1]));
      prodL := Mul(prodL, Scale(-1.0, lower[j - 1]));
      PairEntries(n, upper, lower, mid, theta, phi, j - 1, i);
      ans := ans[j - 1 := ans[j - 1][i := Div(Mul(Mul(prodU, theta[j - 1]), phi[i + 1]), thetaN)]];
      ans := ans[i := ans[i][j - 1 := Div(Mul(Mul(prodL, theta[j - 1]), phi[i + 1]), thetaN)]];
      j := j - 1;
    }
  }

  /** invTri: for each column i the diagonal entry, then, walking j from
      i-1 down to 0, the entries (j, i) and (i, j) with the running
      products of -upper[j] and -lower[j]. Every entry of the n x n result is
      the continuant formula. */
  method InvTri(n: nat, upper: seq<Complex>, lower: seq<Complex>, mid: seq<Complex>) returns (ans: Mat)
    requires Invertible(n, upper, lower, mid)
    ensures IsMatrix(ans, n, n)
    ensures forall r, c :: 0 <= r < n && 0 <= c < n ==> ans[r][c] == InvEntry(n, upper, lower, mid, r, c)
  {
    var phi := PhiTri(n, upper, lower, mid);
    var theta := DetTri(n, upper, lower, mid);
    ans := Fill(n, n, Zero);
    var i := 0;
    while i < n
      invariant 0 <= i <= n && IsMatrix(ans, n, n)
      invariant BlockDone(n, upper, lower, mid, ans, i)
    {
      ans := FillPairs(n, upper, lower, mid, theta, phi, i, ans);
      i := i + 1;
    }
  }

  lemma {:induction false} ProdNegAgree(a: seq<Complex>, b: seq<Complex>, j: nat, i: nat)
    requires j <= i <= |a| && i <= |b| && a[j..i] == b[j..i]
    ensures ProdNeg(a, j, i) == ProdNeg(b, j, i)
    decreases i - j
  {
    if j < i {
      assert a[j] == a[j..i][0] && b[j] == b[j..i][0];
      assert a[j + 1..i] == a[j..i][1..] && b[j + 1..i] == b[j..i][1..];
      ProdNegAgree(a, b, j + 1, i);
    }
  }

  /** A symmetric tridiagonal matrix (upper == lower) has a symmetric
      inverse. */
  lemma InvTriSymmetric(n: nat, upper: seq<Complex>, lower: seq<Complex>, mid: seq<Complex>, r: nat, c: nat)
    requires Invertible(n, upper, lower, mid) && r < n && c < n
    requires upper[..n - 1] == lower[..n - 1]
    ensures InvEntry(n, upper, lower, mid, r, c) == InvEntry(n, upper, lower, mid, c, r)
  {
    if r < c {
      assert upper[r..c] == upper[..n - 1][r..c] && lower[r..c] == lower[..n - 1][r..c];
      ProdNegAgree(upper, lower, r, c);
    } else if c < r {
      assert upper[c..r] == upper[..n - 1][c..r] && lower[c..r] == lower[..n - 1][c..r];
      ProdNegAgree(upper, lower, c, r);
    }
  }
}
