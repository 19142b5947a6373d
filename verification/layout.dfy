/** The flat layout of the four-index arrays of the program: the two-body
    matrix elements Hint and the two-body density matrix rho2 are stored as
    one array of M^4 entries, entry (a, b, c, d) at a + bM + cM^2 + dM^3. */
module Layout {

  function Pow4(M: int): int { M * M * M * M }

  function FlatIndex(M: int, a: int, b: int, c: int, d: int): int
  {
    a + b * M + c * M * M + d * M * M * M
  }

  lemma MulLeft(x: int, y: int, z: int)
    ensures x * (y + z) == x * y + x * z
  {
  }

  /** Appending one more digit x (0 <= x < M) in front of a number y below K
      gives a number below M K. */
  lemma DigitBound(M: int, x: int, y: int, K: int)
    requires 0 <= x < M && 0 <= y < K
    ensures 0 <= x + M * y < M * K
  {
    MulLeft(M, y, K - 1 - y);
    assert M * (K - 1 - y) >= 0;
    MulLeft(M, K - 1, 1);
  }

  lemma MulComm3(M: int, x: int)
    ensures M * (M * x) == x * M * M
  {
  }

  lemma MulComm4(M: int, x: int)
    ensures M * (M * (M * x)) == x * M * M * M
  {
    MulComm3(M, M * x);
  }

  /** The flat index written in Horner form. */
  lemma FlatIndexHorner(M: int, a: int, b: int, c: int, d: int)
    ensures FlatIndex(M, a, b, c, d) == a + M * (b + M * (c + M * d))
  {
    var x := c + M * d;
    var y := b + M * x;
    MulLeft(M, c, M * d);
    assert M * x == M * c + M * (M * d);
    MulLeft(M, b, M * x);
    assert M * y == M * b + M * (M * c) + M * (M * (M * d));
    MulComm3(M, c);
    MulComm4(M, d);
  }

  /** Every flat index of four orbitals lies in [0, M^4): no read of Hint
      or write of rho2 leaves the array. */
  lemma FlatIndexBound(M: int, a: int, b: int, c: int, d: int)
    requires 0 <= a < M && 0 <= b < M && 0 <= c < M && 0 <= d < M
    ensures 0 <= FlatIndex(M, a, b, c, d) < Pow4(M)
  {
    var x := c + M * d;
    var y := b + M * x;
    DigitBound(M, c, d, M);
    DigitBound(M, b, x, M * M);
    DigitBound(M, a, y, M * (M * M));
    FlatIndexHorner(M, a, b, c, d);
    MulComm3(M, M);
  }

  /** The orbital indices (a, b, c, d) stored at flat position t. */
  function Digits(M: int, t: int): (int, int, int, int)
    requires M >= 1
  {
    (t % M, (t / M) % M, (t / M / M) % M, t / M / M / M)
  }

  lemma {:induction false} MulSign(x: int, M: int)
    requires M >= 1
    ensures x >= 1 ==> M * x >= M
    ensures x <= -1 ==> M * x <= -M
    decreases if x < 0 then -x else x
  {
    if x > 1 {
      MulSign(x - 1, M);
      MulLeft(M, x - 1, 1);
    } else if x < -1 {
      MulSign(x + 1, M);
      MulLeft(M, x + 1, -1);
    }
  }

  /** Euclidean division recovers the digit and the rest. */
  lemma DivModUnique(M: int, x: int, y: int)
    requires M >= 1 && 0 <= x < M
    ensures (x + M * y) % M == x && (x + M * y) / M == y
  {
    var t := x + M * y;
    var q := t / M;
    var r := t % M;
    assert t == M * q + r;
    MulLeft(M, y, -q);
    assert M * (y - q) == r - x;
    MulSign(y - q, M);
  }

  /** A number below M K has quotient below K. */
  lemma DivBound(M: int, t: int, K: int)
    requires M >= 1 && 0 <= t < M * K
    ensures 0 <= t / M < K
  {
    var q := t / M;
    assert t == M * q + t % M;
    MulLeft(M, q, -K);
    if q >= K {
      MulSign(q - K + 1, M);
      MulLeft(M, q - K, 1);
    }
  }

  /** Decoding a flat index gives back the four orbitals. */
  lemma DigitsOfFlat(M: int, a: int, b: int, c: int, d: int)
    requires 0 <= a < M && 0 <= b < M && 0 <= c < M && 0 <= d < M
    ensures Digits(M, FlatIndex(M, a, b, c, d)) == (a, b, c, d)
  {
    FlatIndexHorner(M, a, b, c, d);
    DivModUnique(M, a, b + M * (c + M * d));
    DivModUnique(M, b, c + M * d);
    DivModUnique(M, c, d);
  }

  /** Every position of an M^4 array is the flat index of its digits. */
  lemma FlatOfDigits(M: int, t: int)
    requires M >= 1 && 0 <= t < Pow4(M)
    ensures 0 <= Digits(M, t).0 < M && 0 <= Digits(M, t).1 < M
    ensures 0 <= Digits(M, t).2 < M && 0 <= Digits(M, t).3 < M
    ensures FlatIndex(M, Digits(M, t).0, Digits(M, t).1, Digits(M, t).2, Digits(M, t).3) == t
  {
    var y := t / M;
    var x := y / M;
    var d := x / M;
    MulComm3(M, M);
    assert Pow4(M) == M * (M * (M * M));
    DivBound(M, t, M * (M * M));
    DivBound(M, y, M * M);
    DivBound(M, x, M);
    assert t == t % M + M * y;
    assert y == y % M + M * x;
    assert x == x % M + M * d;
    FlatIndexHorner(M, t % M, y % M, x % M, d);
  }
}
