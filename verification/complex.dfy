/** Exact complex arithmetic standing in for C99 `double complex`, plus the
    finite sums the loops of the program accumulate. Floating-point rounding
    is not modelled: every value is an exact pair of reals. */
module ComplexNumbers {

  datatype Complex = Complex(re: real, im: real)

  const Zero: Complex := Complex(0.0, 0.0)
  const One: Complex := Complex(1.0, 0.0)
  /** The imaginary unit `I` of <complex.h>. */
  const ImagUnit: Complex := Complex(0.0, 1.0)

  function FromReal(x: real): Complex { Complex(x, 0.0) }

  function Add(a: Complex, b: Complex): Complex { Complex(a.re + b.re, a.im + b.im) }

  function Sub(a: Complex, b: Complex): Complex { Complex(a.re - b.re, a.im - b.im) }

  function Mul(a: Complex, b: Complex): Complex
  {
    Complex(a.re * b.re - a.im * b.im, a.re * b.im + a.im * b.re)
  }

  /** A real number times a complex number. */
  function Scale(r: real, a: Complex): Complex { Complex(r * a.re, r * a.im) }

  function Conj(a: Complex): Complex { Complex(a.re, -a.im) }

  lemma SquareNonNegative(x: real)
    ensures x * x >= 0.0
  {
    if x < 0.0 {
      assert x * x == (-x) * (-x);
    }
  }

  lemma MulNonNegative(x: real, y: real)
    requires x >= 0.0 && y >= 0.0
    ensures x * y >= 0.0
  {
  }

  /** |a|^2, written in the program as creal(a)^2 + cimag(a)^2. */
  function Norm2(a: Complex): (r: real)
    ensures r >= 0.0
  {
    SquareNonNegative(a.re);
    SquareNonNegative(a.im);
    a.re * a.re + a.im * a.im
  }

  lemma RecipParts(p: real, q: real, s: real)
    requires s == p * p + q * q && s != 0.0
    ensures p * (p / s) - q * (-q / s) == 1.0
    ensures p * (-q / s) + q * (p / s) == 0.0
  {
    var u := p / s;
    var w := q / s;
    assert p * u == (p * p) / s;
    assert q * w == (q * q) / s;
    assert p * w == (p * q) / s;
    assert q * u == (q * p) / s;
    assert (p * p) / s + (q * q) / s == (p * p + q * q) / s;
  }

  /** The reciprocal conj(b) / |b|^2 of a complex number with non-zero
      modulus. */
  function Recip(b: Complex): (r: Complex)
    requires Norm2(b) != 0.0
    ensures Mul(b, r) == One
  {
    var s := Norm2(b);
    RecipParts(b.re, b.im, s);
    Complex(b.re / s, -b.im / s)
  }

  /** Complex division a / b for b of non-zero modulus. */
  function Div(a: Complex, b: Complex): (r: Complex)
    requires Norm2(b) != 0.0
    ensures Mul(r, b) == a
  {
    var q := Recip(b);
    MulAssoc(a, q, b);
    assert Mul(q, b) == Mul(b, q);
    assert Mul(a, One) == a;
    Mul(a, q)
  }

  /** The sum f(lo) + f(lo + 1) + ... + f(hi - 1); zero when the range is empty. */
  function SumC(lo: int, hi: int, f: int -> Complex): Complex
    decreases hi - lo
  {
    if lo >= hi then Zero else Add(f(lo), SumC(lo + 1, hi, f))
  }

  /** The real counterpart of SumC. */
  function SumR(lo: int, hi: int, f: int -> real): real
    decreases hi - lo
  {
    if lo >= hi then 0.0 else f(lo) + SumR(lo + 1, hi, f)
  }

  lemma {:induction false} SumCZero(lo: int, hi: int, f: int -> Complex)
    requires forall i :: lo <= i < hi ==> f(i) == Zero
    ensures SumC(lo, hi, f) == Zero
    decreases hi - lo
  {
    if lo < hi {
      SumCZero(lo + 1, hi, f);
    }
  }

  lemma {:induction false} SumCExt(lo: int, hi: int, f: int -> Complex, g: int -> Complex)
    requires forall i :: lo <= i < hi ==> f(i) == g(i)
    ensures SumC(lo, hi, f) == SumC(lo, hi, g)
    decreases hi - lo
  {
    if lo < hi {
      SumCExt(lo + 1, hi, f, g);
    }
  }

  lemma {:induction false} SumRExt(lo: int, hi: int, f: int -> real, g: int -> real)
    requires forall i :: lo <= i < hi ==> f(i) == g(i)
    ensures SumR(lo, hi, f) == SumR(lo, hi, g)
    decreases hi - lo
  {
    if lo < hi {
      SumRExt(lo + 1, hi, f, g);
    }
  }

  /** Summing real numbers embedded as complex numbers stays real. */
  lemma {:induction false} SumCOfReals(lo: int, hi: int, f: int -> Complex, g: int -> real)
    requires forall i :: lo <= i < hi ==> f(i) == FromReal(g(i))
    ensures SumC(lo, hi, f) == FromReal(SumR(lo, hi, g))
    decreases hi - lo
  {
    if lo < hi {
      SumCOfReals(lo + 1, hi, f, g);
    }
  }

  /** A common complex factor can be taken out of a sum of real weights. */
  lemma {:induction false} SumCScaled(lo: int, hi: int, f: int -> Complex, g: int -> real, z: Complex)
    requires forall i :: lo <= i < hi ==> f(i) == Scale(g(i), z)
    ensures SumC(lo, hi, f) == Scale(SumR(lo, hi, g), z)
    decreases hi - lo
  {
    if lo < hi {
      SumCScaled(lo + 1, hi, f, g, z);
    }
  }

  lemma {:induction false} SumRNonNegative(lo: int, hi: int, f: int -> real)
    requires forall i :: lo <= i < hi ==> f(i) >= 0.0
    ensures SumR(lo, hi, f) >= 0.0
    decreases hi - lo
  {
    if lo < hi {
      SumRNonNegative(lo + 1, hi, f);
    }
  }

  /** Conjugation commutes with summation. */
  lemma {:induction false} SumCConj(lo: int, hi: int, f: int -> Complex, g: int -> Complex)
    requires forall i :: lo <= i < hi ==> g(i) == Conj(f(i))
    ensures SumC(lo, hi, g) == Conj(SumC(lo, hi, f))
    decreases hi - lo
  {
    if lo < hi {
      SumCConj(lo + 1, hi, f, g);
    }
  }

  /** The lower bound of a loop that starts at 0 whatever the enclosing index. */
  function Start(a: int): int { 0 }

  /** The lower bound of a loop that starts just after the enclosing index. */
  function Next(a: int): int { a + 1 }

  function Cut2(f: (int, int) -> Complex, a: int): int -> Complex
  {
    b => f(a, b)
  }

  function Rows2(hi: int, lo2: int -> int, f: (int, int) -> Complex): int -> Complex
  {
    a => SumC(lo2(a), hi, Cut2(f, a))
  }

  /** Two nested loops: a over [lo, hi), then b over [lo2(a), hi). */
  function Sum2(lo: int, hi: int, lo2: int -> int, f: (int, int) -> Complex): Complex
  {
    SumC(lo, hi, Rows2(hi, lo2, f))
  }

  function Cut3(f: (int, int, int) -> Complex, a: int): (int, int) -> Complex
  {
    (b, c) => f(a, b, c)
  }

  function Rows3(hi: int, lo2: int -> int, lo3: int -> int, f: (int, int, int) -> Complex): int -> Complex
  {
    a => Sum2(lo2(a), hi, lo3, Cut3(f, a))
  }

  /** Three nested loops: a over [lo, hi), b over [lo2(a), hi), c over [lo3(b), hi). */
  function Sum3(lo: int, hi: int, lo2: int -> int, lo3: int -> int, f: (int, int, int) -> Complex): Complex
  {
    SumC(lo, hi, Rows3(hi, lo2, lo3, f))
  }

  function Cut4(f: (int, int, int, int) -> Complex, a: int): (int, int, int) -> Complex
  {
    (b, c, d) => f(a, b, c, d)
  }

  function Rows4(hi: int, f: (int, int, int, int) -> Complex): int -> Complex
  {
    a => Sum3(0, hi, Start, Start, Cut4(f, a))
  }

  /** Four nested loops, each over [0, hi). */
  function Sum4(hi: int, f: (int, int, int, int) -> Complex): Complex
  {
    SumC(0, hi, Rows4(hi, f))
  }

  lemma Sum2Zero(lo: int, hi: int, lo2: int -> int, f: (int, int) -> Complex)
    requires forall a, b :: lo <= a < hi && lo2(a) <= b < hi ==> f(a, b) == Zero
    ensures Sum2(lo, hi, lo2, f) == Zero
  {
    forall a | lo <= a < hi
      ensures Rows2(hi, lo2, f)(a) == Zero
    {
      SumCZero(lo2(a), hi, Cut2(f, a));
    }
    SumCZero(lo, hi, Rows2(hi, lo2, f));
  }

  lemma Sum3Zero(lo: int, hi: int, lo2: int -> int, lo3: int -> int, f: (int, int, int) -> Complex)
    requires forall a, b, c :: lo <= a < hi && lo2(a) <= b < hi && lo3(b) <= c < hi ==> f(a, b, c) == Zero
    ensures Sum3(lo, hi, lo2, lo3, f) == Zero
  {
    forall a | lo <= a < hi
      ensures Rows3(hi, lo2, lo3, f)(a) == Zero
    {
      Sum2Zero(lo2(a), hi, lo3, Cut3(f, a));
    }
    SumCZero(lo, hi, Rows3(hi, lo2, lo3, f));
  }

  lemma Sum4Zero(hi: int, f: (int, int, int, int) -> Complex)
    requires forall a, b, c, d :: 0 <= a < hi && 0 <= b < hi && 0 <= c < hi && 0 <= d < hi ==> f(a, b, c, d) == Zero
    ensures Sum4(hi, f) == Zero
  {
    forall a | 0 <= a < hi
      ensures Rows4(hi, f)(a) == Zero
    {
      Sum3Zero(0, hi, Start, Start, Cut4(f, a));
    }
    SumCZero(0, hi, Rows4(hi, f));
  }

  lemma {:induction false} SumRLast(lo: int, hi: int, f: int -> real)
    requires lo <= hi
    ensures SumR(lo, hi + 1, f) == SumR(lo, hi, f) + f(hi)
    decreases hi - lo
  {
    if lo < hi {
      SumRLast(lo + 1, hi, f);
    }
  }

  lemma {:induction false} SumRAdd(lo: int, hi: int, f: int -> real, g: int -> real, s: int -> real)
    requires forall i :: lo <= i < hi ==> s(i) == f(i) + g(i)
    ensures SumR(lo, hi, s) == SumR(lo, hi, f) + SumR(lo, hi, g)
    decreases hi - lo
  {
    if lo < hi {
      SumRAdd(lo + 1, hi, f, g, s);
    }
  }

  lemma {:induction false} SumRScale(lo: int, hi: int, c: real, f: int -> real, g: int -> real)
    requires forall i :: lo <= i < hi ==> g(i) == c * f(i)
    ensures SumR(lo, hi, g) == c * SumR(lo, hi, f)
    decreases hi - lo
  {
    if lo < hi {
      SumRScale(lo + 1, hi, c, f, g);
    }
  }

  lemma {:induction false} SumRZero(lo: int, hi: int, f: int -> real)
    requires forall i :: lo <= i < hi ==> f(i) == 0.0
    ensures SumR(lo, hi, f) == 0.0
    decreases hi - lo
  {
    if lo < hi {
      SumRZero(lo + 1, hi, f);
    }
  }

  /** Column k of a two-index family: i |-> f(i, k). */
  function Col(f: (int, int) -> real, k: int): int -> real
  {
    i => f(i, k)
  }

  /** Row i of a two-index family: k |-> f(i, k). */
  function Row(f: (int, int) -> real, i: int): int -> real
  {
    k => f(i, k)
  }

  function RowSums(f: (int, int) -> real, K: int): int -> real
  {
    i => SumR(0, K, Row(f, i))
  }

  function ColSums(f: (int, int) -> real, I: int): int -> real
  {
    k => SumR(0, I, Col(f, k))
  }

  /** Finite double sums can be taken in either order. */
  lemma {:induction false} SumRSwap(I: nat, K: nat, f: (int, int) -> real)
    ensures SumR(0, I, RowSums(f, K)) == SumR(0, K, ColSums(f, I))
  {
    if K == 0 {
      SumRZero(0, I, RowSums(f, 0));
    } else {
      SumRSwap(I, K - 1, f);
      forall i | 0 <= i < I
        ensures RowSums(f, K)(i) == RowSums(f, K - 1)(i) + Col(f, K - 1)(i)
      {
        SumRLast(0, K - 1, Row(f, i));
      }
      SumRAdd(0, I, RowSums(f, K - 1), Col(f, K - 1), RowSums(f, K));
      SumRLast(0, K - 1, ColSums(f, I));
    }
  }

  lemma MulAdd(z: Complex, x: Complex, y: Complex)
    ensures Mul(z, Add(x, y)) == Add(Mul(z, x), Mul(z, y))
  {
  }

  lemma MulScale(z: Complex, r: real, y: Complex)
    ensures Mul(z, Scale(r, y)) == Scale(r, Mul(z, y))
  {
    assert z.re * (r * y.re) == r * (z.re * y.re);
    assert z.im * (r * y.im) == r * (z.im * y.im);
    assert z.re * (r * y.im) == r * (z.re * y.im);
    assert z.im * (r * y.re) == r * (z.im * y.re);
  }

  lemma ScaleMul(r: real, z: Complex, y: Complex)
    ensures Mul(Scale(r, z), y) == Scale(r, Mul(z, y))
  {
    assert (r * z.re) * y.re == r * (z.re * y.re);
    assert (r * z.im) * y.im == r * (z.im * y.im);
    assert (r * z.re) * y.im == r * (z.re * y.im);
    assert (r * z.im) * y.re == r * (z.im * y.re);
  }

  lemma ScaleScale(r: real, a: real, y: Complex)
    ensures Scale(r, Scale(a, y)) == Scale(r * a, y)
  {
    assert r * (a * y.re) == (r * a) * y.re;
    assert r * (a * y.im) == (r * a) * y.im;
  }

  /** Complex multiplication is commutative and associative: (l w) d = (l d) w. */
  lemma MulSwap(l: Complex, w: Complex, d: Complex)
    ensures Mul(Mul(l, w), d) == Mul(Mul(l, d), w)
  {
  }

  lemma MulAssoc(a: Complex, b: Complex, c: Complex)
    ensures Mul(a, Mul(b, c)) == Mul(Mul(a, b), c)
  {
  }

  /** The linear combination a y0 + b y1 + c y2 + e y3 with real weights. */
  function Lin(a: real, b: real, c: real, e: real, y0: Complex, y1: Complex, y2: Complex, y3: Complex): Complex
  {
    Add(Add(Add(Scale(a, y0), Scale(b, y1)), Scale(c, y2)), Scale(e, y3))
  }

  lemma MulLin(z: Complex, a: real, b: real, c: real, e: real, y1: Complex, y2: Complex, y3: Complex)
    ensures Mul(z, Lin(a, b, c, e, One, y1, y2, y3)) == Lin(a, b, c, e, z, Mul(z, y1), Mul(z, y2), Mul(z, y3))
  {
    MulAdd(z, Add(Add(Scale(a, One), Scale(b, y1)), Scale(c, y2)), Scale(e, y3));
    MulAdd(z, Add(Scale(a, One), Scale(b, y1)), Scale(c, y2));
    MulAdd(z, Scale(a, One), Scale(b, y1));
    MulScale(z, a, One);
    MulScale(z, b, y1);
    MulScale(z, c, y2);
    MulScale(z, e, y3);
  }

  lemma ScaleLin(r: real, a: real, b: real, c: real, e: real, y0: Complex, y1: Complex, y2: Complex, y3: Complex)
    ensures Scale(r, Lin(a, b, c, e, y0, y1, y2, y3)) == Lin(r * a, r * b, r * c, r * e, y0, y1, y2, y3)
  {
    ScaleScale(r, a, y0);
    ScaleScale(r, b, y1);
    ScaleScale(r, c, y2);
    ScaleScale(r, e, y3);
  }

  lemma ScaleMulLin(r: real, z: Complex, a: real, b: real, c: real, e: real, y1: Complex, y2: Complex, y3: Complex)
    ensures Mul(Scale(r, z), Lin(a, b, c, e, One, y1, y2, y3))
         == Lin(r * a, r * b, r * c, r * e, z, Mul(z, y1), Mul(z, y2), Mul(z, y3))
  {
    ScaleMul(r, z, Lin(a, b, c, e, One, y1, y2, y3));
    MulLin(z, a, b, c, e, y1, y2, y3);
    ScaleLin(r, a, b, c, e, z, Mul(z, y1), Mul(z, y2), Mul(z, y3));
  }

  lemma {:induction false} SumCLast(lo: int, hi: int, f: int -> Complex)
    requires lo <= hi
    ensures SumC(lo, hi + 1, f) == Add(SumC(lo, hi, f), f(hi))
    decreases hi - lo
  {
    if lo < hi {
      SumCLast(lo + 1, hi, f);
    }
  }

  lemma {:induction false} SumCSplit(lo: int, mid: int, hi: int, f: int -> Complex)
    requires lo <= mid <= hi
    ensures SumC(lo, hi, f) == Add(SumC(lo, mid, f), SumC(mid, hi, f))
    decreases mid - lo
  {
    if lo < mid {
      SumCSplit(lo + 1, mid, hi, f);
    }
  }

  /** A sum whose terms vanish except at p: the sum is f(p). */
  lemma SumCOne(lo: int, hi: int, f: int -> Complex, p: int)
    requires lo <= p < hi
    requires forall j :: lo <= j < hi && j != p ==> f(j) == Zero
    ensures SumC(lo, hi, f) == f(p)
  {
    SumCSplit(lo, p, hi, f);
    SumCZero(lo, p, f);
    assert SumC(p, hi, f) == Add(f(p), SumC(p + 1, hi, f));
    SumCZero(p + 1, hi, f);
  }

  /** A sum whose terms vanish except at p and q. */
  lemma SumCTwo(lo: int, hi: int, f: int -> Complex, p: int, q: int)
    requires lo <= p < q < hi
    requires forall j :: lo <= j < hi && j != p && j != q ==> f(j) == Zero
    ensures SumC(lo, hi, f) == Add(f(p), f(q))
  {
    SumCSplit(lo, q, hi, f);
    SumCOne(lo, q, f, p);
    SumCOne(q, hi, f, q);
  }

  /** A sum whose terms vanish except at p, q and r. */
  lemma SumCThree(lo: int, hi: int, f: int -> Complex, p: int, q: int, r: int)
    requires lo <= p < q < r < hi
    requires forall j :: lo <= j < hi && j != p && j != q && j != r ==> f(j) == Zero
    ensures SumC(lo, hi, f) == Add(Add(f(p), f(q)), f(r))
  {
    SumCSplit(lo, r, hi, f);
    SumCTwo(lo, r, f, p, q);
    SumCOne(r, hi, f, r);
  }
}
