/**
 * The radial-basis-function kernel `RBFKernel`: a validated bandwidth, and a
 * kernel matrix whose entry (i, j) is exp(-dist / (2 sigma^2)), where `dist` is
 * the squared distance of X[i] and Y[j] obtained by expanding the norms. The
 * exponential is left uninterpreted: it is carried as a function value.
 */
module RbfKernel {
  import opened Results
  import opened NdArrays
  import Kernels

  type PositiveReal = r: real | r > 0.0 witness 1.0

  /** An RBF kernel: its bandwidth and the exponential its entries go through. */
  datatype RBFKernel = RBFKernel(sigma: PositiveReal, exp: real -> real)

  /** `RBFKernel(sigma)`: a bandwidth that is not positive is refused, any other is kept. */
  function New(sigma: real, exp: real -> real): (r: Result<RBFKernel>)
    ensures r.Err? <==> sigma <= 0.0
    ensures r.Err? ==> r.error == NonPositiveSigma
    ensures r.Ok? ==> r.value.sigma == sigma && r.value.exp == exp
  {
    if sigma <= 0.0 then Err(NonPositiveSigma) else Ok(RBFKernel(sigma, exp))
  }

  /** The squared norm of a row, `np.sum(x ** 2)`. */
  function NormSq(x: Row): real {
    if |x| == 0 then 0.0 else x[0] * x[0] + NormSq(x[1..])
  }

  /** The dot product of two rows (of equal length wherever the package forms one). */
  function Dot(x: Row, y: Row): real {
    if |x| == 0 || |y| == 0 then 0.0 else x[0] * y[0] + Dot(x[1..], y[1..])
  }

  /** The distance as `_compute` forms it: |x|^2 + |y|^2 - 2 x.y. */
  function ExpandedDist(x: Row, y: Row): real {
    NormSq(x) + NormSq(y) - 2.0 * Dot(x, y)
  }

  /** The squared Euclidean distance, summed feature by feature. */
  function SqDist(x: Row, y: Row): real {
    if |x| == 0 || |y| == 0 then 0.0
    else (x[0] - y[0]) * (x[0] - y[0]) + SqDist(x[1..], y[1..])
  }

  /** The norm expansion: on rows of equal length |x|^2 + |y|^2 - 2 x.y is the squared distance. */
  lemma {:induction false} NormExpansion(x: Row, y: Row)
    requires |x| == |y|
    ensures ExpandedDist(x, y) == SqDist(x, y)
  {
    if |x| > 0 {
      NormExpansion(x[1..], y[1..]);
      assert (x[0] - y[0]) * (x[0] - y[0]) == x[0] * x[0] + y[0] * y[0] - 2.0 * (x[0] * y[0]);
    }
  }

  lemma {:induction false} SqDistNonNegative(x: Row, y: Row)
    ensures SqDist(x, y) >= 0.0
  {
    if |x| > 0 && |y| > 0 {
      SqDistNonNegative(x[1..], y[1..]);
      assert (x[0] - y[0]) * (x[0] - y[0]) >= 0.0;
    }
  }

  lemma {:induction false} SqDistSymmetric(x: Row, y: Row)
    ensures SqDist(x, y) == SqDist(y, x)
  {
    if |x| > 0 && |y| > 0 {
      SqDistSymmetric(x[1..], y[1..]);
      assert (x[0] - y[0]) * (x[0] - y[0]) == (y[0] - x[0]) * (y[0] - x[0]);
    }
  }

  lemma {:induction false} DotSymmetric(x: Row, y: Row)
    ensures Dot(x, y) == Dot(y, x)
  {
    if |x| > 0 && |y| > 0 {
      DotSymmetric(x[1..], y[1..]);
    }
  }

  lemma {:induction false} DotSelf(x: Row)
    ensures Dot(x, x) == NormSq(x)
  {
    if |x| > 0 {
      DotSelf(x[1..]);
    }
  }

  /** The distance `_compute` forms is never negative on rows of equal length. */
  lemma ExpandedDistNonNegative(x: Row, y: Row)
    requires |x| == |y|
    ensures ExpandedDist(x, y) >= 0.0
  {
    NormExpansion(x, y);
    SqDistNonNegative(x, y);
  }

  /** The distance of a row to itself is zero. */
  lemma ExpandedDistSelf(x: Row)
    ensures ExpandedDist(x, x) == 0.0
  {
    DotSelf(x);
  }

  /**
   * The argument `_compute` hands to exp for a distance `dist`: -dist / (2 sigma^2),
   * written as successive divisions by 2, sigma and sigma (the same real number).
   */
  function Exponent(k: RBFKernel, dist: real): real {
    -dist / 2.0 / k.sigma / k.sigma
  }

  /** Dividing by a positive number keeps a non-positive number non-positive, and zero zero. */
  lemma DivisionSign(d: real, p: real)
    requires p > 0.0
    ensures d <= 0.0 ==> d / p <= 0.0
    ensures d == 0.0 ==> d / p == 0.0
  {
    if d <= 0.0 {
      var q := d / p;
      assert q * p == d;
    }
  }

  /** A non-negative distance gives a non-positive exponent, and distance zero gives exponent zero. */
  lemma ExponentSign(k: RBFKernel, dist: real)
    ensures dist >= 0.0 ==> Exponent(k, dist) <= 0.0
    ensures dist == 0.0 ==> Exponent(k, dist) == 0.0
  {
    DivisionSign(-dist / 2.0, k.sigma);
    DivisionSign(-dist / 2.0 / k.sigma, k.sigma);
  }

  /** The reference similarity: exp(-|x - y|^2 / (2 sigma^2)). */
  function Entry(k: RBFKernel): (Row, Row) -> real {
    (x: Row, y: Row) => k.exp(Exponent(k, SqDist(x, y)))
  }

  lemma EntrySymmetric(k: RBFKernel)
    ensures Kernels.Symmetric(Entry(k))
  {
    forall a: Row, b: Row
      ensures Entry(k)(a, b) == Entry(k)(b, a)
    {
      SqDistSymmetric(a, b);
      assert Entry(k)(a, b) == k.exp(Exponent(k, SqDist(a, b)));
    }
  }

  /** `RBFKernel._compute(X, Y)`: an |X| by |Y| matrix of exp(-dist / (2 sigma^2)). */
  function Compute(k: RBFKernel, X: seq<Row>, Y: seq<Row>): (K: seq<Row>)
    ensures |K| == |X|
    ensures forall i :: 0 <= i < |X| ==> |K[i]| == |Y|
  {
    seq(|X|, i requires 0 <= i < |X| =>
      seq(|Y|, j requires 0 <= j < |Y| =>
        k.exp(Exponent(k, ExpandedDist(X[i], Y[j])))))
  }

  /** `_compute` as the kernel contract sees it. */
  function Computation(k: RBFKernel): Kernels.Compute {
    (P: seq<Row>, Q: seq<Row>) => Compute(k, P, Q)
  }

  /** On samples with the same feature count, `_compute` yields the reference kernel matrix. */
  lemma ComputeMatchesReference(k: RBFKernel, X: seq<Row>, Y: seq<Row>, d: nat)
    requires Rectangular(X, d) && Rectangular(Y, d)
    ensures Compute(k, X, Y) == Kernels.Gram(Entry(k), X, Y)
  {
    forall i | 0 <= i < |X|
      ensures Compute(k, X, Y)[i] == Kernels.Gram(Entry(k), X, Y)[i]
    {
      forall j | 0 <= j < |Y|
        ensures Compute(k, X, Y)[i][j] == Kernels.Gram(Entry(k), X, Y)[i][j]
      {
        NormExpansion(X[i], Y[j]);
      }
    }
  }

  /** K(X, Y) is the transpose of K(Y, X). */
  lemma ComputeTranspose(k: RBFKernel, X: seq<Row>, Y: seq<Row>)
    ensures forall i, j :: 0 <= i < |X| && 0 <= j < |Y| ==> Compute(k, X, Y)[i][j] == Compute(k, Y, X)[j][i]
  {
    forall i, j | 0 <= i < |X| && 0 <= j < |Y|
      ensures Compute(k, X, Y)[i][j] == Compute(k, Y, X)[j][i]
    {
      DotSymmetric(X[i], Y[j]);
      assert ExpandedDist(X[i], Y[j]) == ExpandedDist(Y[j], X[i]);
      assert Compute(k, X, Y)[i][j] == k.exp(Exponent(k, ExpandedDist(X[i], Y[j])));
      assert Compute(k, Y, X)[j][i] == k.exp(Exponent(k, ExpandedDist(Y[j], X[i])));
    }
  }

  /** Each entry is exp of minus a non-negative distance over 2 sigma^2, and the diagonal of K(X, X) is exp(0). */
  lemma ComputeEntries(k: RBFKernel, X: seq<Row>, Y: seq<Row>, d: nat)
    requires Rectangular(X, d) && Rectangular(Y, d)
    ensures forall i, j :: 0 <= i < |X| && 0 <= j < |Y| ==>
      ExpandedDist(X[i], Y[j]) >= 0.0 &&
      Compute(k, X, Y)[i][j] == k.exp(Exponent(k, ExpandedDist(X[i], Y[j])))
    ensures forall i :: 0 <= i < |X| ==> Compute(k, X, X)[i][i] == k.exp(0.0)
  {
    forall i, j | 0 <= i < |X| && 0 <= j < |Y|
      ensures ExpandedDist(X[i], Y[j]) >= 0.0
    {
      ExpandedDistNonNegative(X[i], Y[j]);
    }
    forall i | 0 <= i < |X|
      ensures Compute(k, X, X)[i][i] == k.exp(0.0)
    {
      ExpandedDistSelf(X[i]);
      ExponentSign(k, 0.0);
      assert Compute(k, X, X)[i][i] == k.exp(Exponent(k, ExpandedDist(X[i], X[i])));
    }
  }

  /**
   * `RBFKernel()(X, Y)`: the inherited validation, then `_compute`. It succeeds
   * exactly on two matrices with equal feature counts, and then yields the
   * reference kernel matrix.
   */
  function Call(k: RBFKernel, X: NdArray, Y: NdArray): (r: Result<seq<Row>>)
    ensures r.Ok? <==> X.Mat? && Y.Mat? && X.cols == Y.cols
    ensures r.Err? ==> r.error == (if X.Mat? && Y.Mat? then FeatureMismatch else NotTwoDimensional)
    ensures r.Ok? ==> r.value == Kernels.Gram(Entry(k), X.rows, Y.rows)
  {
    var r := Kernels.Call(Computation(k), X, Y);
    if r.Ok? then
      ComputeMatchesReference(k, X.rows, Y.rows, X.cols);
      r
    else r
  }

  /** `RBFKernel()(X)`: the self-similarity matrix is symmetric, with exp(0) on its diagonal. */
  function CallSelf(k: RBFKernel, X: NdArray): (r: Result<seq<Row>>)
    ensures r.Ok? <==> X.Mat?
    ensures r.Err? ==> r.error == NotTwoDimensional
    ensures r.Ok? ==> |r.value| == |X.rows| && forall i :: 0 <= i < |X.rows| ==> |r.value[i]| == |X.rows|
    ensures r.Ok? ==> forall i, j :: 0 <= i < |X.rows| && 0 <= j < |X.rows| ==> r.value[i][j] == r.value[j][i]
    ensures r.Ok? ==> forall i :: 0 <= i < |X.rows| ==> r.value[i][i] == k.exp(0.0)
    ensures r == Call(k, X, X)
  {
    var r := Kernels.CallSelf(Computation(k), X);
    if r.Ok? then
      ComputeTranspose(k, X.rows, X.rows);
      ComputeEntries(k, X.rows, X.rows, X.cols);
      r
    else r
  }

  // ---------------------------------------------------------------------------
  // The scenarios of the kernel's unit tests, stated on the exponent arguments.

  /** sigma = 1, X = [[1], [2]], Y = [[3], [4]]: entries exp(-2) and exp(-9/2). */
  lemma OneDimensionExample(exp: real -> real)
    ensures Compute(RBFKernel(1.0, exp), [[1.0], [2.0]], [[3.0], [4.0]])[0][0] == exp(-2.0)
    ensures Compute(RBFKernel(1.0, exp), [[1.0], [2.0]], [[3.0], [4.0]])[0][1] == exp(-4.5)
  {
    var k := RBFKernel(1.0, exp);
    assert ExpandedDist([1.0], [3.0]) == 4.0 by { assert [1.0][1..] == [] && [3.0][1..] == []; }
    assert ExpandedDist([1.0], [4.0]) == 9.0 by { assert [1.0][1..] == [] && [4.0][1..] == []; }
    assert Exponent(k, 4.0) == -2.0;
    assert Exponent(k, 9.0) == -4.5;
  }

  /** sigma = 0.5, X = [[1]], Y = [[1], [2]]: a 1 by 2 matrix with entries exp(0) and exp(-2). */
  lemma DifferentSampleCountsExample(exp: real -> real)
    ensures |Compute(RBFKernel(0.5, exp), [[1.0]], [[1.0], [2.0]])| == 1
    ensures |Compute(RBFKernel(0.5, exp), [[1.0]], [[1.0], [2.0]])[0]| == 2
    ensures Compute(RBFKernel(0.5, exp), [[1.0]], [[1.0], [2.0]])[0][0] == exp(0.0)
    ensures Compute(RBFKernel(0.5, exp), [[1.0]], [[1.0], [2.0]])[0][1] == exp(-2.0)
  {
    var k := RBFKernel(0.5, exp);
    assert ExpandedDist([1.0], [1.0]) == 0.0 by { assert [1.0][1..] == []; }
    assert ExpandedDist([1.0], [2.0]) == 1.0 by { assert [1.0][1..] == [] && [2.0][1..] == []; }
    assert Exponent(k, 0.0) == 0.0;
    assert Exponent(k, 1.0) == -2.0;
  }

  /** sigma = 1, X = [[1, 2], [3, 4]], Y = [[5, 6]]: entries exp(-16) and exp(-4). */
  lemma MultiDimensionExample(exp: real -> real)
    ensures Compute(RBFKernel(1.0, exp), [[1.0, 2.0], [3.0, 4.0]], [[5.0, 6.0]])[0][0] == exp(-16.0)
    ensures Compute(RBFKernel(1.0, exp), [[1.0, 2.0], [3.0, 4.0]], [[5.0, 6.0]])[1][0] == exp(-4.0)
  {
    var k := RBFKernel(1.0, exp);
    NormExpansion([1.0, 2.0], [5.0, 6.0]);
    NormExpansion([3.0, 4.0], [5.0, 6.0]);
    assert SqDist([1.0, 2.0], [5.0, 6.0]) == 32.0 by {
      assert [1.0, 2.0][1..] == [2.0] && [5.0, 6.0][1..] == [6.0];
      assert [2.0][1..] == [] && [6.0][1..] == [];
    }
    assert SqDist([3.0, 4.0], [5.0, 6.0]) == 8.0 by {
      assert [3.0, 4.0][1..] == [4.0] && [5.0, 6.0][1..] == [6.0];
      assert [4.0][1..] == [] && [6.0][1..] == [];
    }
    assert Exponent(k, 32.0) == -16.0;
    assert Exponent(k, 8.0) == -4.0;
  }
}
