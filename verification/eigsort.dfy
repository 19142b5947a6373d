/** EigSort from the Python analysis helpers: an insertion sort that puts
    the eigenvalues of the one-body density matrix in non-increasing order
    and moves the eigenvector columns along with them, so that column k stays
    the eigenvector of eigenvalue k. */
module EigenSort {
  import opened ComplexNumbers

  predicate IsSquare(m: seq<seq<Complex>>, n: nat)
  {
    |m| == n && forall r :: 0 <= r < n ==> |m[r]| == n
  }

  predicate NonIncreasing(s: seq<real>)
  {
    forall a, b :: 0 <= a < b < |s| ==> s[a] >= s[b]
  }

  /** p lists each of 0 .. n-1 exactly once. */
  predicate IsPermutation(p: seq<nat>, n: nat)
  {
    |p| == n && (forall k :: 0 <= k < n ==> p[k] < n) &&
    (forall a, b :: 0 <= a < b < n ==> p[a] != p[b])
  }

  function Identity(n: nat): (p: seq<nat>)
    ensures IsPermutation(p, n) && forall k :: 0 <= k < n ==> p[k] == k
  {
    seq(n, k requires 0 <= k => k)
  }

  function Swap<T>(s: seq<T>, a: nat, b: nat): (t: seq<T>)
    requires a < |s| && b < |s|
    ensures |t| == |s| && t[a] == s[b] && t[b] == s[a]
    ensures forall k :: 0 <= k < |s| && k != a && k != b ==> t[k] == s[k]
    ensures multiset(t) == multiset(s)
  {
    s[a := s[b]][b := s[a]]
  }

  /** The loop over the rows that exchanges columns a and b. */
  function SwapColumns(m: seq<seq<Complex>>, n: nat, a: nat, b: nat): (t: seq<seq<Complex>>)
    requires IsSquare(m, n) && a < n && b < n
    ensures IsSquare(t, n)
    ensures forall r, k :: 0 <= r < n && 0 <= k < n ==> t[r][k] == m[r][if k == a then b else if k == b then a else k]
  {
    seq(n, r requires 0 <= r < n => Swap(m[r], a, b))
  }

  /** sorted, cols and perm are the input rearranged by perm: values and
      eigenvector columns moved together. */
  predicate Tracks(n: nat, vals: seq<real>, vecs: seq<seq<Complex>>, sorted: seq<real>, cols: seq<seq<Complex>>, perm: seq<nat>)
    requires |vals| == n && IsSquare(vecs, n)
  {
    IsPermutation(perm, n) && |sorted| == n && IsSquare(cols, n) &&
    multiset(sorted) == multiset(vals) &&
    (forall k :: 0 <= k < n ==> sorted[k] == vals[perm[k]]) &&
    (forall r, k :: 0 <= r < n && 0 <= k < n ==> cols[r][k] == vecs[r][perm[k]])
  }

  /** Positions 0 .. m-1 are in order, and equal values among them keep their
      input order; position `skip` (if any) is left out. */
  predicate SortedBelow(sorted: seq<real>, perm: seq<nat>, m: nat, skip: int)
    requires m <= |sorted| && m <= |perm|
  {
    (forall a, b :: 0 <= a < b < m && a != skip && b != skip ==> sorted[a] >= sorted[b]) &&
    (forall a, b :: 0 <= a < b < m && a != skip && b != skip && sorted[a] == sorted[b] ==> perm[a] < perm[b])
  }

  /** Exchanging neighbours a and a+1 in all three keeps the tracking. */
  lemma SwapTracks(n: nat, vals: seq<real>, vecs: seq<seq<Complex>>, sorted: seq<real>, cols: seq<seq<Complex>>, perm: seq<nat>, a: nat)
    requires |vals| == n && IsSquare(vecs, n) && Tracks(n, vals, vecs, sorted, cols, perm) && a + 1 < n
    ensures Tracks(n, vals, vecs, Swap(sorted, a, a + 1), SwapColumns(cols, n, a, a + 1), Swap(perm, a, a + 1))
  {
    var p := Swap(perm, a, a + 1);
    forall x, y | 0 <= x < y < n
      ensures p[x] != p[y]
    {
      var x' := if x == a then a + 1 else if x == a + 1 then a else x;
      var y' := if y == a then a + 1 else if y == a + 1 then a else y;
      assert p[x] == perm[x'] && p[y] == perm[y'] && x' != y';
      if x' < y' {
        assert perm[x'] != perm[y'];
      } else {
        assert perm[y'] != perm[x'];
      }
    }
  }

  /** Everything in positions j+1 .. i is strictly smaller than position j. */
  predicate AllSmallerAfter(sorted: seq<real>, j: nat, i: nat)
    requires j <= i < |sorted|
  {
    forall b :: j < b <= i ==> sorted[b] < sorted[j]
  }

  /** One exchange of the inner loop: the moving value (input position i,
      now at j) passes its strictly smaller left neighbour, and the order
      among the others is kept. */
  lemma StepKeepsOrder(sorted: seq<real>, perm: seq<nat>, i: nat, j: nat)
    requires 1 <= j <= i < |sorted| && |perm| == |sorted|
    requires sorted[j] > sorted[j - 1]
    requires SortedBelow(sorted, perm, i + 1, j)
    requires AllSmallerAfter(sorted, j, i)
    ensures SortedBelow(Swap(sorted, j - 1, j), Swap(perm, j - 1, j), i + 1, j - 1)
    ensures AllSmallerAfter(Swap(sorted, j - 1, j), j - 1, i)
  {
    var s, p := Swap(sorted, j - 1, j), Swap(perm, j - 1, j);
    forall a, b | 0 <= a < b < i + 1 && a != j - 1 && b != j - 1
      ensures s[a] >= s[b] && (s[a] == s[b] ==> p[a] < p[b])
    {
      var a' := if a == j then j - 1 else a;
      var b' := if b == j then j - 1 else b;
      assert s[a] == sorted[a'] && s[b] == sorted[b'] && p[a] == perm[a'] && p[b] == perm[b'];
      assert a' < b' && a' != j && b' != j;
    }
  }

  /** When the inner loop stops, the moving value is no larger than its left
      neighbour and larger than everything to its right, so 0 .. i is in
      order; equal values to its left came from earlier input positions. */
  lemma ExitInOrder(sorted: seq<real>, perm: seq<nat>, i: nat, j: nat)
    requires j <= i < |sorted| && |perm| == |sorted|
    requires j == 0 || sorted[j] <= sorted[j - 1]
    requires SortedBelow(sorted, perm, i + 1, j)
    requires AllSmallerAfter(sorted, j, i)
    requires perm[j] == i && forall k :: 0 <= k <= i && k != j ==> perm[k] < i
    ensures SortedBelow(sorted, perm, i + 1, -1)
  {
    forall a | 0 <= a < j
      ensures sorted[a] >= sorted[j]
    {
      if a < j - 1 {
        assert sorted[a] >= sorted[j - 1];
      }
    }
  }

  /** The moving value, from input position i, sits at j; every other
      position up to i holds an earlier input position, and every position
      after i still holds its own. */
  predicate Moving(perm: seq<nat>, n: nat, i: nat, j: nat)
    requires j <= i < n == |perm|
  {
    perm[j] == i && (forall k :: 0 <= k <= i && k != j ==> perm[k] < i) &&
    (forall k :: i < k < n ==> perm[k] == k)
  }

  /** Exchanging positions j-1 and j carries the moving value one place down. */
  lemma StepMoves(perm: seq<nat>, n: nat, i: nat, j: nat)
    requires 1 <= j <= i < n == |perm| && Moving(perm, n, i, j)
    ensures Moving(Swap(perm, j - 1, j), n, i, j - 1)
  {
  }

  /** The state of the inner loop with the moving value at j. */
  predicate Inner(n: nat, vals: seq<real>, vecs: seq<seq<Complex>>, i: nat, j: nat,
                  sorted: seq<real>, cols: seq<seq<Complex>>, perm: seq<nat>)
    requires |vals| == n && IsSquare(vecs, n) && j <= i < n
  {
    Tracks(n, vals, vecs, sorted, cols, perm) && Moving(perm, n, i, j) &&
    SortedBelow(sorted, perm, i + 1, j) && AllSmallerAfter(sorted, j, i)
  }

  /** One exchange of the inner loop, values, positions and columns together. */
  method Step(n: nat, vals: seq<real>, vecs: seq<seq<Complex>>, i: nat, j: nat,
              sorted0: seq<real>, cols0: seq<seq<Complex>>, perm0: seq<nat>)
    returns (sorted: seq<real>, cols: seq<seq<Complex>>, perm: seq<nat>)
    requires |vals| == n && IsSquare(vecs, n) && 1 <= j <= i < n
    requires Inner(n, vals, vecs, i, j, sorted0, cols0, perm0)
    requires sorted0[j] > sorted0[j - 1]
    ensures Inner(n, vals, vecs, i, j - 1, sorted, cols, perm)
  {
    SwapTracks(n, vals, vecs, sorted0, cols0, perm0, j - 1);
    StepKeepsOrder(sorted0, perm0, i, j);
    StepMoves(perm0, n, i, j);
    sorted := Swap(sorted0, j - 1, j);
    perm := Swap(perm0, j - 1, j);
    cols := SwapColumns(cols0, n, j - 1, j);
  }

  /** One pass of the inner while loop: the value at i moves down past every
      strictly smaller neighbour, leaving positions 0 .. i in order. */
  method Insert(n: nat, vals: seq<real>, vecs: seq<seq<Complex>>, i: nat,
                sorted0: seq<real>, cols0: seq<seq<Complex>>, perm0: seq<nat>)
    returns (sorted: seq<real>, cols: seq<seq<Complex>>, perm: seq<nat>)
    requires |vals| == n && IsSquare(vecs, n) && 1 <= i < n
    requires Tracks(n, vals, vecs, sorted0, cols0, perm0)
    requires SortedBelow(sorted0, perm0, i, -1)
    requires forall k :: i <= k < n ==> perm0[k] == k
    requires forall k :: 0 <= k < i ==> perm0[k] < i
    ensures Tracks(n, vals, vecs, sorted, cols, perm)
    ensures SortedBelow(sorted, perm, i + 1, -1)
    ensures forall k :: i < k < n ==> perm[k] == k
    ensures forall k :: 0 <= k <= i ==> perm[k] <= i
  {
    sorted, cols, perm := sorted0, cols0, perm0;
    var j := i;
    while j > 0 && sorted[j] > sorted[j - 1]
      invariant j <= i
      invariant Inner(n, vals, vecs, i, j, sorted, cols, perm)
    {
      sorted, cols, perm := Step(n, vals, vecs, i, j, sorted, cols, perm);
      j := j - 1;
    }
    ExitInOrder(sorted, perm, i, j);
  }

  /** EigSort: for i = 1 .. n-1 the value at i moves down while it is
      strictly larger than its left neighbour, each move exchanging two
      values and the two matching eigenvector columns. `perm` records which
      input position each output position came from. The result is
      non-increasing, a rearrangement of the input, paired column by column
      with the eigenvectors, and stable: equal values keep their input
      order, because only a strictly larger value moves past another. */
  method EigSort(n: nat, vals: seq<real>, vecs: seq<seq<Complex>>)
    returns (sorted: seq<real>, cols: seq<seq<Complex>>, perm: seq<nat>)
    requires |vals| == n && IsSquare(vecs, n)
    ensures IsPermutation(perm, n) && |sorted| == n && IsSquare(cols, n)
    ensures NonIncreasing(sorted)
    ensures multiset(sorted) == multiset(vals)
    ensures forall k :: 0 <= k < n ==> sorted[k] == vals[perm[k]]
    ensures forall r, k :: 0 <= r < n && 0 <= k < n ==> cols[r][k] == vecs[r][perm[k]]
    ensures forall a, b :: 0 <= a < b < n && sorted[a] == sorted[b] ==> perm[a] < perm[b]
  {
    sorted, cols, perm := vals, vecs, Identity(n);
    var i := 1;
    while i < n
      invariant 1 <= i && (i <= n || n == 0)
      invariant Tracks(n, vals, vecs, sorted, cols, perm)
      invariant i <= n ==> SortedBelow(sorted, perm, i, -1)
      invariant forall k :: i <= k < n ==> perm[k] == k
      invariant forall k :: 0 <= k < i && k < n ==> perm[k] < i
    {
      sorted, cols, perm := Insert(n, vals, vecs, i, sorted, cols, perm);
      i := i + 1;
    }
  }
}
