/** Quadrature and the periodic finite-difference derivative on the spatial
    grid: composite Simpson over n equally spaced points (with a 3/8 tail
    when n is even), in a complex and a real flavour, and the five-point
    centred stencil for a grid whose last point repeats the first. */
module Calculus {
  import opened ComplexNumbers
  import Layout

  /** The outcome of an integration: fewer than three points end the run
      with an error message, otherwise the integral. */
  datatype Quadrature<T> = TooFewPoints | Integral(value: T)

  /** The sum of f[i] + 4 f[i+1] + f[i+2] over the panels starting at
      i, i+2, ... while the panel ends at or before `last`. */
  function Panels(f: seq<real>, i: nat, last: nat): real
    requires last < |f|
    decreases last - i
  {
    if i + 2 > last then 0.0 else f[i] + 4.0 * f[i + 1] + f[i + 2] + Panels(f, i + 2, last)
  }

  /** The 3/8 rule numerator on the last four points. */
  function Tail(f: seq<real>, n: nat): real
    requires 4 <= n <= |f|
  {
    f[n - 4] + 3.0 * (f[n - 3] + f[n - 2]) + f[n - 1]
  }

  /** sum * h / 3, the Simpson factor, as the program evaluates it. */
  function Third(x: real, h: real): real { x * h / 3.0 }

  /** tail * 3 * h / 8, the 3/8-rule factor, as the program evaluates it. */
  function ThreeEighths(x: real, h: real): real { x * 3.0 * h / 8.0 }

  /** Rsimps: odd n is Simpson on all points; even n is Simpson on points
      0 .. n-4 and the 3/8 rule on n-4 .. n-1. */
  function Rsimps(n: nat, f: seq<real>, h: real): (r: Quadrature<real>)
    requires |f| >= n
    ensures r.TooFewPoints? <==> n < 3
  {
    if n < 3 then TooFewPoints
    else if n % 2 == 0 then Integral(Third(Panels(f, 0, n - 4), h) + ThreeEighths(Tail(f, n), h))
    else Integral(Third(Panels(f, 0, n - 1), h))
  }

  /** The complex counterparts of Panels and Tail. */
  function PanelsC(f: seq<Complex>, i: nat, last: nat): Complex
    requires last < |f|
    decreases last - i
  {
    if i + 2 > last then Zero
    else Add(Add(Add(f[i], Scale(4.0, f[i + 1])), f[i + 2]), PanelsC(f, i + 2, last))
  }

  function TailC(f: seq<Complex>, n: nat): Complex
    requires 4 <= n <= |f|
  {
    Add(Add(f[n - 4], Scale(3.0, Add(f[n - 3], f[n - 2]))), f[n - 1])
  }

  /** The two factors on a complex sum: C applies the real factors to both
      parts. */
  function ThirdC(z: Complex, h: real): Complex { Complex(Third(z.re, h), Third(z.im, h)) }

  function ThreeEighthsC(z: Complex, h: real): Complex { Complex(ThreeEighths(z.re, h), ThreeEighths(z.im, h)) }

  /** Csimps: Rsimps on complex samples. */
  function Csimps(n: nat, f: seq<Complex>, h: real): (r: Quadrature<Complex>)
    requires |f| >= n
    ensures r.TooFewPoints? <==> n < 3
  {
    if n < 3 then TooFewPoints
    else if n % 2 == 0 then
      Integral(Add(ThirdC(PanelsC(f, 0, n - 4), h), ThreeEighthsC(TailC(f, n), h)))
    else Integral(ThirdC(PanelsC(f, 0, n - 1), h))
  }

  function Re(f: seq<Complex>): (g: seq<real>)
    ensures |g| == |f| && forall k :: 0 <= k < |f| ==> g[k] == f[k].re
  {
    seq(|f|, k requires 0 <= k < |f| => f[k].re)
  }

  function Im(f: seq<Complex>): (g: seq<real>)
    ensures |g| == |f| && forall k :: 0 <= k < |f| ==> g[k] == f[k].im
  {
    seq(|f|, k requires 0 <= k < |f| => f[k].im)
  }

  function Lift(f: seq<real>): (g: seq<Complex>)
    ensures |g| == |f| && forall k :: 0 <= k < |f| ==> g[k] == FromReal(f[k])
  {
    seq(|f|, k requires 0 <= k < |f| => FromReal(f[k]))
  }

  lemma {:induction false} PanelsParts(f: seq<Complex>, i: nat, last: nat)
    requires last < |f|
    ensures PanelsC(f, i, last).re == Panels(Re(f), i, last)
    ensures PanelsC(f, i, last).im == Panels(Im(f), i, last)
    decreases last - i
  {
    if i + 2 <= last {
      PanelsParts(f, i + 2, last);
    }
  }

  /** Csimps integrates the real and the imaginary part separately with
      Rsimps's weights. */
  lemma CsimpsByParts(n: nat, f: seq<Complex>, h: real)
    requires |f| >= n && n >= 3
    ensures Csimps(n, f, h).value.re == Rsimps(n, Re(f), h).value
    ensures Csimps(n, f, h).value.im == Rsimps(n, Im(f), h).value
  {
    if n % 2 == 0 {
      PanelsParts(f, 0, n - 4);
      var t := TailC(f, n);
      assert t.re == Tail(Re(f), n) && t.im == Tail(Im(f), n);
    } else {
      PanelsParts(f, 0, n - 1);
    }
  }

  lemma {:induction false} PanelsOfReal(f: seq<real>, i: nat, last: nat)
    requires last < |f|
    ensures PanelsC(Lift(f), i, last) == FromReal(Panels(f, i, last))
    decreases last - i
  {
    if i + 2 <= last {
      PanelsOfReal(f, i + 2, last);
    }
  }

  lemma TailOfReal(f: seq<real>, n: nat)
    requires 4 <= n <= |f|
    ensures TailC(Lift(f), n) == FromReal(Tail(f, n))
  {
  }

  /** On real samples Csimps returns Rsimps's value with a zero imaginary
      part. */
  lemma CsimpsOfReal(n: nat, f: seq<real>, h: real)
    requires |f| >= n && n >= 3
    ensures Csimps(n, Lift(f), h).value == FromReal(Rsimps(n, f, h).value)
  {
    if n % 2 == 0 {
      PanelsOfReal(f, 0, n - 4);
      TailOfReal(f, n);
    } else {
      PanelsOfReal(f, 0, n - 1);
    }
  }

  /** The composite Simpson weights on points lo .. last (an even number of
      intervals): 1 at both ends, 4 at odd offsets, 2 at interior even ones. */
  function SimpsonWeight(lo: int, last: int, k: int): real
  {
    if k == lo || k == last then 1.0 else if (k - lo) % 2 == 1 then 4.0 else 2.0
  }

  function Weighted(f: seq<real>, lo: int, last: int): int -> real
  {
    k => if 0 <= k < |f| then SimpsonWeight(lo, last, k) * f[k] else 0.0
  }

  /** The panel sum is the weighted sum with the composite Simpson weights. */
  lemma {:induction false} PanelsAreWeighted(f: seq<real>, lo: nat, last: nat)
    requires last < |f| && lo < last && (last - lo) % 2 == 0
    ensures Panels(f, lo, last) == SumR(lo, last + 1, Weighted(f, lo, last))
    decreases last - lo
  {
    var w := Weighted(f, lo, last);
    assert SumR(lo, last + 1, w) == w(lo) + (w(lo + 1) + SumR(lo + 2, last + 1, w));
    if lo + 2 == last {
      assert SumR(lo + 2, last + 1, w) == w(lo + 2) + SumR(lo + 3, last + 1, w);
    } else {
      var v := Weighted(f, lo + 2, last);
      PanelsAreWeighted(f, lo + 2, last);
      assert SumR(lo + 2, last + 1, v) == v(lo + 2) + SumR(lo + 3, last + 1, v);
      assert SumR(lo + 2, last + 1, w) == w(lo + 2) + SumR(lo + 3, last + 1, w);
      forall k | lo + 3 <= k < last + 1
        ensures w(k) == v(k)
      {
        assert (k - lo) % 2 == (k - (lo + 2)) % 2;
      }
      SumRExt(lo + 3, last + 1, w, v);
      assert w(lo + 2) == 2.0 * f[lo + 2] && v(lo + 2) == f[lo + 2];
    }
  }

  /** For odd n, Rsimps is h/3 times the weighted sum 1, 4, 2, ..., 4, 1 over
      all n points. */
  lemma RsimpsOdd(n: nat, f: seq<real>, h: real)
    requires |f| >= n && n >= 3 && n % 2 == 1
    ensures Rsimps(n, f, h).value == Third(SumR(0, n, Weighted(f, 0, n - 1)), h)
  {
    PanelsAreWeighted(f, 0, n - 1);
  }

  /** For even n, Rsimps is the Simpson weighted sum on points 0 .. n-4 (none
      when n = 4) times h/3 plus the 3/8 rule on n-4 .. n-1: each point gets
      a weight, and point n-4 gets one from each rule. */
  lemma RsimpsEven(n: nat, f: seq<real>, h: real)
    requires |f| >= n && n >= 4 && n % 2 == 0
    ensures Rsimps(n, f, h).value ==
      Third(if n == 4 then 0.0 else SumR(0, n - 3, Weighted(f, 0, n - 4)), h) + ThreeEighths(Tail(f, n), h)
  {
    if n > 4 {
      PanelsAreWeighted(f, 0, n - 4);
    }
  }

  /** The samples of a constant function. */
  function Constant(n: nat, c: real): (f: seq<real>)
    ensures |f| == n && forall k :: 0 <= k < n ==> f[k] == c
  {
    seq(n, k => c)
  }

  lemma {:induction false} PanelsOfConstant(f: seq<real>, c: real, i: nat, last: nat)
    requires last < |f| && i <= last && (last - i) % 2 == 0
    requires forall k :: 0 <= k < |f| ==> f[k] == c
    ensures Panels(f, i, last) == 3.0 * c * (last - i) as real
    decreases last - i
  {
    if i + 2 <= last {
      PanelsOfConstant(f, c, i + 2, last);
      var m := (last - (i + 2)) as real;
      MulEq(3.0 * c, (last - i) as real, m + 2.0);
      assert 3.0 * c * (m + 2.0) == 3.0 * c * m + 6.0 * c;
      assert f[i] + 4.0 * f[i + 1] + f[i + 2] == 6.0 * c;
      assert Panels(f, i, last) == 6.0 * c + Panels(f, i + 2, last);
    } else {
      assert i == last;
    }
  }

  /** Both rules are exact on constants: a constant c integrates to
      c (n - 1) h for every n >= 3, odd or even. */
  lemma RsimpsConstant(n: nat, c: real, h: real)
    requires n >= 3
    ensures Rsimps(n, Constant(n, c), h).value == c * (n - 1) as real * h
  {
    var f := Constant(n, c);
    if n % 2 == 0 {
      var m := (n - 4) as real;
      assert Rsimps(n, f, h).value == Third(3.0 * c * m, h) + ThreeEighths(8.0 * c, h) by {
        PanelsOfConstant(f, c, 0, n - 4);
        assert Tail(f, n) == 8.0 * c;
      }
      EvenConstant(c, m, h);
      assert m + 3.0 == (n - 1) as real;
    } else {
      assert Rsimps(n, f, h).value == Third(3.0 * c * (n - 1) as real, h) by {
        PanelsOfConstant(f, c, 0, n - 1);
        assert Rsimps(n, f, h) == Integral(Third(Panels(f, 0, n - 1), h));
      }
      OddConstant(c, (n - 1) as real, h);
    }
  }

  /** Equal factors give equal products. */
  lemma MulEq(h: real, a: real, b: real)
    requires a == b
    ensures h * a == h * b
  {
  }

  lemma OddConstant(c: real, m: real, h: real)
    ensures Third(3.0 * c * m, h) == c * m * h
  {
  }

  lemma EvenConstant(c: real, m: real, h: real)
    ensures Third(3.0 * c * m, h) + ThreeEighths(8.0 * c, h) == c * (m + 3.0) * h
  {
    assert c * (m + 3.0) == c * m + c * 3.0;
    assert (c * m + c * 3.0) * h == c * m * h + c * 3.0 * h;
  }

  /** dxCyclic: the five-point centred first derivative on a periodic grid of
      n points whose last point repeats the first, so the period is n - 1.
      Points 0, 1 and n-2 wrap around explicitly, point n-1 copies point 0,
      and points 2 .. n-3 use the plain stencil. */
  function DxCyclic(n: nat, f: seq<Complex>, dx: real): (d: seq<Complex>)
    requires n >= 4 && |f| >= n && dx != 0.0
    ensures |d| == n && d[n - 1] == d[0]
  {
    var r := Coefficient(dx);
    seq(n, i requires 0 <= i < n => DxPoint(n, f, r, i))
  }

  /** The value dxCyclic writes at point i. */
  function DxPoint(n: nat, f: seq<Complex>, r: real, i: nat): Complex
    requires n >= 4 && |f| >= n && i < n
  {
    if i == 0 || i == n - 1 then Stencil(f[n - 3], f[n - 2], f[1], f[2], r)
    else if i == 1 then Stencil(f[n - 2], f[0], f[2], f[3], r)
    else if i == n - 2 then Stencil(f[n - 4], f[n - 3], f[0], f[1], r)
    else Stencil(f[i - 2], f[i - 1], f[i + 1], f[i + 2], r)
  }

  /** The stencil's factor 1 / (12 dx). */
  function Coefficient(dx: real): real
    requires dx != 0.0
  {
    1.0 / (12.0 * dx)
  }

  /** (f_{-2} - f_{+2} + 8 (f_{+1} - f_{-1})) r for the four neighbours. */
  function Stencil(m2: Complex, m1: Complex, p1: Complex, p2: Complex, r: real): Complex
  {
    Scale(r, Add(Sub(m2, p2), Scale(8.0, Sub(p1, m1))))
  }

  /** The stencil read with indices taken modulo the period n - 1. */
  function PeriodicStencil(n: nat, f: seq<Complex>, dx: real, i: int): Complex
    requires n >= 4 && |f| >= n && dx != 0.0
  {
    var p := n - 1;
    Stencil(f[(i - 2) % p], f[(i - 1) % p], f[(i + 1) % p], f[(i + 2) % p], Coefficient(dx))
  }

  /** a mod p is r when a = r + p y. */
  lemma Wrap(a: int, p: int, r: int, y: int)
    requires p >= 1 && 0 <= r < p && a == r + p * y
    ensures a % p == r
  {
    Layout.DivModUnique(p, r, y);
  }

  /** On periodic data (f[n-1] = f[0]) every point's derivative is the
      stencil with indices wrapped modulo n - 1; the boundary point repeats
      point 0. */
  lemma DxCyclicIsPeriodic(n: nat, f: seq<Complex>, dx: real, i: nat)
    requires n >= 4 && |f| >= n && dx != 0.0 && f[n - 1] == f[0] && i < n
    ensures DxCyclic(n, f, dx)[i] == PeriodicStencil(n, f, dx, if i == n - 1 then 0 else i)
  {
    var p := n - 1;
    var j := if i == n - 1 then 0 else i;
    if j == 0 {
      Wrap(-2, p, n - 3, -1);
      Wrap(-1, p, n - 2, -1);
      Wrap(1, p, 1, 0);
      Wrap(2, p, 2, 0);
    } else if j == 1 {
      Wrap(-1, p, n - 2, -1);
      Wrap(0, p, 0, 0);
      Wrap(2, p, 2, 0);
      if n == 4 {
        Wrap(3, p, 0, 1);
      } else {
        Wrap(3, p, 3, 0);
      }
    } else if j == n - 2 {
      Wrap(j - 2, p, n - 4, 0);
      Wrap(j - 1, p, n - 3, 0);
      Wrap(j + 1, p, 0, 1);
      Wrap(j + 2, p, 1, 1);
    } else {
      Wrap(j - 2, p, j - 2, 0);
      Wrap(j - 1, p, j - 1, 0);
      Wrap(j + 1, p, j + 1, 0);
      if j + 2 == n - 1 {
        Wrap(j + 2, p, 0, 1);
      } else {
        Wrap(j + 2, p, j + 2, 0);
      }
    }
  }

  /** The derivative of a constant is zero everywhere. */
  lemma DxCyclicConstant(n: nat, f: seq<Complex>, c: Complex, dx: real)
    requires n >= 4 && |f| >= n && dx != 0.0
    requires forall k :: 0 <= k < |f| ==> f[k] == c
    ensures forall i :: 0 <= i < n ==> DxCyclic(n, f, dx)[i] == Zero
  {
    var d := DxCyclic(n, f, dx);
    forall i | 0 <= i < n
      ensures d[i] == Zero
    {
      assert d[i] == DxPoint(n, f, Coefficient(dx), i);
      PointOfConstant(n, f, c, Coefficient(dx), i);
    }
  }

  /** Every stencil point of samples all equal to c is zero. */
  lemma PointOfConstant(n: nat, f: seq<Complex>, c: Complex, r: real, i: nat)
    requires n >= 4 && |f| >= n && i < n
    requires forall k :: 0 <= k < |f| ==> f[k] == c
    ensures DxPoint(n, f, r, i) == Zero
  {
    if i == 0 || i == n - 1 {
      StencilOfConstant(f[n - 3], f[n - 2], f[1], f[2], r);
    } else if i == 1 {
      StencilOfConstant(f[n - 2], f[0], f[2], f[3], r);
    } else if i == n - 2 {
      StencilOfConstant(f[n - 4], f[n - 3], f[0], f[1], r);
    } else {
      StencilOfConstant(f[i - 2], f[i - 1], f[i + 1], f[i + 2], r);
    }
  }

  lemma StencilOfConstant(m2: Complex, m1: Complex, p1: Complex, p2: Complex, r: real)
    requires m2 == m1 == p1 == p2
    ensures Stencil(m2, m1, p1, p2, r) == Zero
  {
    assert Sub(m2, p2) == Zero && Sub(p1, m1) == Zero;
  }
}
