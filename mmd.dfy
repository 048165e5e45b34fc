/**
 * The squared maximum mean discrepancy between two sample sets:
 * mean K(X, X) + mean K(Y, Y) - 2 mean K(X, Y), with the shortcuts the
 * package takes for empty inputs, the kernel selection every MMD object
 * performs on construction, and the variant that caches mean K(X, X) for a
 * fixed reference set X.
 */
module Mmd {
  import opened Results
  import opened NdArrays
  import Kernels
  import RbfKernel

  /** The bandwidth `RBFKernel` takes when none is given. */
  const DefaultSigma: real := 1.0

  /**
   * `BaseMMD.__init__`: "rbf" builds an RBF kernel from the given bandwidth
   * (or the default one); any other name is refused.
   */
  function NewKernel(name: string, sigma: Option<real>, exp: real -> real): (r: Result<RbfKernel.RBFKernel>)
    ensures name != "rbf" ==> r == Err(UnsupportedKernel(name))
    ensures name == "rbf" ==> (r.Ok? <==> sigma.GetOr(DefaultSigma) > 0.0)
    ensures name == "rbf" && r.Err? ==> r.error == NonPositiveSigma
    ensures r.Ok? ==> r.value.sigma == sigma.GetOr(DefaultSigma) && r.value.exp == exp
  {
    if name == "rbf" then RbfKernel.New(sigma.GetOr(DefaultSigma), exp)
    else Err(UnsupportedKernel(name))
  }

  /** The mean of the reference kernel matrix between the samples A and B. */
  function KMean(k: RbfKernel.RBFKernel, A: seq<Row>, B: seq<Row>): real {
    Mean(Kernels.Gram(RbfKernel.Entry(k), A, B))
  }

  /** `np.mean` applied to the outcome of a kernel call; an error propagates. */
  function MeanOf(r: Result<seq<Row>>): Result<real> {
    match r
    case Ok(K) => Ok(Mean(K))
    case Err(e) => Err(e)
  }

  /** `np.mean(kernel(A, A))`: defined exactly on matrices. */
  function SelfMean(k: RbfKernel.RBFKernel, A: NdArray): (r: Result<real>)
    ensures r.Ok? <==> A.Mat?
    ensures r.Err? ==> r.error == NotTwoDimensional
    ensures r.Ok? ==> r.value == KMean(k, A.rows, A.rows)
  {
    MeanOf(RbfKernel.Call(k, A, A))
  }

  /**
   * `BaseMMD.compute_mmd(X, Y, mean_K_XX)` on the arrays `np.asarray` made of
   * its arguments. Empty inputs are settled by size first; then `shape[1]` of
   * both arrays is compared, which raises an IndexError on an array of rank
   * below two; then the three kernel means are taken in the order K_XX, K_YY,
   * K_XY, and the first failing kernel call decides the error.
   */
  function ComputeMmd(k: RbfKernel.RBFKernel, X: NdArray, Y: NdArray, cache: Option<real>): (r: Result<real>)
    ensures X.Size() == 0 && Y.Size() == 0 ==> r == Ok(0.0)
    ensures X.Size() == 0 && Y.Size() > 0 ==> r == SelfMean(k, Y)
    ensures X.Size() > 0 && Y.Size() == 0 ==> r == (if cache.Some? then Ok(cache.value) else SelfMean(k, X))
    ensures X.Size() > 0 && Y.Size() > 0 && (X.Rank() < 2 || Y.Rank() < 2) ==> r == Err(NoSecondAxis)
    ensures X.Size() > 0 && Y.Size() > 0 && X.Rank() >= 2 && Y.Rank() >= 2 && X.Shape()[1] != Y.Shape()[1] ==>
      r == Err(FeatureMismatch)
    ensures X.Size() > 0 && Y.Size() > 0 && X.Mat? && Y.Mat? && X.cols == Y.cols ==>
      r == Ok(cache.GetOr(KMean(k, X.rows, X.rows)) + KMean(k, Y.rows, Y.rows) - 2.0 * KMean(k, X.rows, Y.rows))
    ensures (X.Size() > 0 && Y.Size() > 0 && X.Rank() >= 2 && Y.Rank() >= 2 && X.Shape()[1] == Y.Shape()[1] &&
             !(X.Mat? && Y.Mat?)) ==> r == Err(NotTwoDimensional)
  {
    if X.Size() == 0 && Y.Size() == 0 then Ok(0.0)
    else if X.Size() == 0 then MeanOf(RbfKernel.Call(k, Y, Y))
    else if Y.Size() == 0 then
      (if cache.Some? then Ok(cache.value) else MeanOf(RbfKernel.Call(k, X, X)))
    else if X.Rank() < 2 || Y.Rank() < 2 then Err(NoSecondAxis)
    else if X.Shape()[1] != Y.Shape()[1] then Err(FeatureMismatch)
    else
      var kxx := if cache.Some? then Ok(cache.value) else MeanOf(RbfKernel.Call(k, X, X));
      var kyy := MeanOf(RbfKernel.Call(k, Y, Y));
      var kxy := MeanOf(RbfKernel.Call(k, X, Y));
      if kxx.Err? then kxx
      else if kyy.Err? then kyy
      else if kxy.Err? then kxy
      else Ok(kxx.value + kyy.value - 2.0 * kxy.value)
  }

  /** An `MMD` object: the kernel chosen at construction. */
  datatype MMD = MMD(kernel: RbfKernel.RBFKernel) {

    /** `MMD.__call__(X, Y)`: the statistic without a cache; a matrix is at distance zero from itself. */
    function Call(X: NdArray, Y: NdArray): (r: Result<real>)
      ensures X.Mat? && Y == X ==> r == Ok(0.0)
      ensures X.Size() == 0 && Y.Size() == 0 ==> r == Ok(0.0)
    {
      ComputeMmd(kernel, X, Y, None)
    }

    /** The statistic is symmetric in its two arguments, errors included. */
    lemma CallSymmetric(X: NdArray, Y: NdArray)
      ensures Call(X, Y) == Call(Y, X)
    {
      if X.Size() > 0 && Y.Size() > 0 && X.Mat? && Y.Mat? && X.cols == Y.cols {
        RbfKernel.EntrySymmetric(kernel);
        Kernels.GramMeanSymmetric(RbfKernel.Entry(kernel), X.rows, Y.rows);
      }
    }
  }

  /**
   * The cached mean of K(X, X) as `CachedMMD.__init__` sets out to compute it,
   * with the one-argument call `kernel(X)` read as `kernel(X, X)`: zero for an
   * empty reference set.
   */
  function CachedMean(k: RbfKernel.RBFKernel, X: NdArray): (r: Result<real>)
    ensures X.Size() == 0 ==> r == Ok(0.0)
    ensures X.Size() > 0 ==> r == SelfMean(k, X)
  {
    if X.Size() > 0 then MeanOf(RbfKernel.CallSelf(k, X)) else Ok(0.0)
  }

  /**
   * The cached mean as `CachedMMD.__init__` is written: `kernel(X)` leaves out
   * the required second argument, so every non-empty reference set raises a
   * TypeError.
   */
  function CachedMeanAsWritten(k: RbfKernel.RBFKernel, X: NdArray): (r: Result<real>)
    ensures r.Ok? <==> X.Size() == 0
    ensures r.Ok? ==> r.value == 0.0
    ensures r.Err? ==> r.error == MissingArgument
  {
    if X.Size() > 0 then MeanOf(Kernels.CallAsWritten(RbfKernel.Computation(k), X, None)) else Ok(0.0)
  }

  /** The mean of a one-entry matrix is that entry. */
  lemma MeanSingle(v: real)
    ensures Mean([[v]]) == v
  {
    assert [[v]][..0] == [];
    assert [v][..0] == [];
    assert Sum([v]) == v;
    assert MatrixSum([[v]]) == v;
    assert EntryCount([[v]]) == 1;
  }

  /**
   * The one-sample reference set [[1]]: as written the cache cannot be built,
   * while the intended call yields mean K(X, X) = exp(0).
   */
  lemma CachedMeanAsWrittenFails(k: RbfKernel.RBFKernel)
    ensures CachedMeanAsWritten(k, Mat([[1.0]], 1)) == Err(MissingArgument)
    ensures CachedMean(k, Mat([[1.0]], 1)) == Ok(k.exp(0.0))
  {
    var X: NdArray := Mat([[1.0]], 1);
    assert X.Size() > 0;
    var e := RbfKernel.Entry(k)([1.0], [1.0]);
    assert Kernels.RowOf(RbfKernel.Entry(k), [1.0], X.rows) == [e];
    assert Kernels.Gram(RbfKernel.Entry(k), X.rows, X.rows) == [[e]];
    assert RbfKernel.SqDist([1.0], [1.0]) == 0.0 by { assert [1.0][1..] == []; }
    RbfKernel.ExponentSign(k, 0.0);
    MeanSingle(RbfKernel.Entry(k)([1.0], [1.0]));
  }

  /** The sum of three entries. */
  lemma SumThree(a: real, b: real, c: real)
    ensures Sum([a, b, c]) == a + b + c
  {
    assert [a, b, c][..2] == [a, b] && [a, b][..1] == [a] && [a][..0] == [];
    assert Sum([a]) == a;
    assert Sum([a, b]) == a + b;
  }

  /** The mean of a matrix of one row of three entries. */
  lemma MeanOneByThree(a: real, b: real, c: real)
    ensures Mean([[a, b, c]]) == (a + b + c) / 3.0
  {
    SumThree(a, b, c);
    assert [[a, b, c]][..0] == [];
    assert MatrixSum([[a, b, c]]) == a + b + c;
    assert EntryCount([[a, b, c]]) == 3;
  }

  /** The mean of a matrix of three rows of three entries. */
  lemma MeanThreeByThree(r0: Row, r1: Row, r2: Row)
    requires |r0| == |r1| == |r2| == 3
    ensures Mean([r0, r1, r2]) == (Sum(r0) + Sum(r1) + Sum(r2)) / 9.0
  {
    var m := [r0, r1, r2];
    assert m[..2] == [r0, r1] && [r0, r1][..1] == [r0] && [r0][..0] == [];
    assert MatrixSum([r0]) == Sum(r0);
    assert MatrixSum([r0, r1]) == Sum(r0) + Sum(r1);
    assert MatrixSum(m) == Sum(r0) + Sum(r1) + Sum(r2);
    assert EntryCount([r0]) == 3;
    assert EntryCount([r0, r1]) == 6;
    assert EntryCount(m) == 9;
  }

  /**
   * sigma = 0.5, X = [[1]], Y = [[1], [2], [3]]: with e0, e2, e8 the values of
   * exp at 0, -2 and -8, the statistic is e0 + (3 e0 + 4 e2 + 2 e8) / 9 - 2 (e0 + e2 + e8) / 3.
   */
  lemma SmallBandwidthExample(exp: real -> real)
    ensures MMD(RbfKernel.RBFKernel(0.5, exp)).Call(Mat([[1.0]], 1), Mat([[1.0], [2.0], [3.0]], 1)) ==
      Ok(exp(0.0) + (3.0 * exp(0.0) + 4.0 * exp(-2.0) + 2.0 * exp(-8.0)) / 9.0
         - 2.0 * ((exp(0.0) + exp(-2.0) + exp(-8.0)) / 3.0))
  {
    var k := RbfKernel.RBFKernel(0.5, exp);
    var e := RbfKernel.Entry(k);
    var X: seq<Row> := [[1.0]];
    var Y: seq<Row> := [[1.0], [2.0], [3.0]];
    assert RbfKernel.Exponent(k, 0.0) == 0.0;
    assert RbfKernel.Exponent(k, 1.0) == -2.0;
    assert RbfKernel.Exponent(k, 4.0) == -8.0;
    assert [1.0][1..] == [] && [2.0][1..] == [] && [3.0][1..] == [];
    assert RbfKernel.SqDist([1.0], [1.0]) == 0.0 && RbfKernel.SqDist([2.0], [2.0]) == 0.0;
    assert RbfKernel.SqDist([3.0], [3.0]) == 0.0;
    assert RbfKernel.SqDist([1.0], [2.0]) == 1.0 && RbfKernel.SqDist([2.0], [1.0]) == 1.0;
    assert RbfKernel.SqDist([2.0], [3.0]) == 1.0 && RbfKernel.SqDist([3.0], [2.0]) == 1.0;
    assert RbfKernel.SqDist([1.0], [3.0]) == 4.0 && RbfKernel.SqDist([3.0], [1.0]) == 4.0;
    var e0, e2, e8 := exp(0.0), exp(-2.0), exp(-8.0);
    assert Kernels.RowOf(e, [1.0], X) == [e0];
    assert Kernels.RowOf(e, [1.0], Y) == [e0, e2, e8];
    assert Kernels.RowOf(e, [2.0], Y) == [e2, e0, e2];
    assert Kernels.RowOf(e, [3.0], Y) == [e8, e2, e0];
    assert Kernels.Gram(e, X, X) == [[e0]];
    assert Kernels.Gram(e, Y, Y) == [[e0, e2, e8], [e2, e0, e2], [e8, e2, e0]];
    assert Kernels.Gram(e, X, Y) == [[e0, e2, e8]];
    MeanSingle(e0);
    MeanThreeByThree([e0, e2, e8], [e2, e0, e2], [e8, e2, e0]);
    SumThree(e0, e2, e8);
    SumThree(e2, e0, e2);
    SumThree(e8, e2, e0);
    MeanOneByThree(e0, e2, e8);
  }

  /**
   * A `CachedMMD` object: the kernel, the reference set X as an array, and the
   * mean of K(X, X) computed once at construction.
   */
  class CachedMMD {
    const kernel: RbfKernel.RBFKernel
    const X: NdArray
    const meanKXX: real

    /** The cached mean is the mean the constructor computes for X. */
    predicate Valid() {
      CachedMean(kernel, X) == Ok(meanKXX)
    }

    constructor (kernel: RbfKernel.RBFKernel, X: NdArray, meanKXX: real)
      requires CachedMean(kernel, X) == Ok(meanKXX)
      ensures Valid()
      ensures this.kernel == kernel && this.X == X && this.meanKXX == meanKXX
    {
      this.kernel := kernel;
      this.X := X;
      this.meanKXX := meanKXX;
    }

    /**
     * `CachedMMD(X, kernel, sigma=...)`: the kernel is chosen first, then the
     * mean of K(X, X) is taken when X has elements; either step may raise.
     */
    static method Create(X: NdArray, name: string, sigma: Option<real>, exp: real -> real) returns (r: Result<CachedMMD>)
      ensures NewKernel(name, sigma, exp).Err? ==> r == Err(NewKernel(name, sigma, exp).error)
      ensures NewKernel(name, sigma, exp).Ok? ==>
        (r.Ok? <==> CachedMean(NewKernel(name, sigma, exp).value, X).Ok?)
      ensures NewKernel(name, sigma, exp).Ok? && r.Err? ==>
        r.error == CachedMean(NewKernel(name, sigma, exp).value, X).error
      ensures r.Ok? ==> fresh(r.value) && r.value.Valid()
      ensures r.Ok? ==> r.value.X == X && r.value.kernel == NewKernel(name, sigma, exp).value
    {
      var k := NewKernel(name, sigma, exp);
      if k.Err? {
        return Err(k.error);
      }
      var m := CachedMean(k.value, X);
      if m.Err? {
        return Err(m.error);
      }
      var c := new CachedMMD(k.value, X, m.value);
      return Ok(c);
    }

    /** `CachedMMD.__call__(Y)`: with the cache in place it agrees with the uncached `MMD(X, Y)`. */
    function Call(Y: NdArray): (r: Result<real>)
      requires Valid()
      ensures r == MMD(kernel).Call(X, Y)
    {
      ComputeMmd(kernel, X, Y, Some(meanKXX))
    }
  }
}
