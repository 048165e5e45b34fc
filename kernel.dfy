/**
 * The kernel contract: `Kernel.__call__` validates its two arguments and hands
 * them to the concrete kernel's `_compute`. The concrete computation is a
 * function parameter here. The module also holds the algebra of kernel
 * matrices built from a pairwise similarity, which the MMD statistic reduces.
 */
module Kernels {
  import opened Results
  import opened NdArrays

  /** What a concrete kernel's `_compute` does with the rows of its two arguments. */
  type Compute = (seq<Row>, seq<Row>) -> seq<Row>

  /**
   * `Kernel.__call__(X, Y)`: the rank check comes first, so feature counts are
   * compared only once both arguments are two-dimensional; valid arguments
   * reach `_compute` unchanged and its result is returned.
   */
  function Call(compute: Compute, X: NdArray, Y: NdArray): (r: Result<seq<Row>>)
    ensures r == Err(NotTwoDimensional) <==> X.Rank() != 2 || Y.Rank() != 2
    ensures r == Err(FeatureMismatch) <==> X.Mat? && Y.Mat? && X.cols != Y.cols
    ensures r.Ok? <==> X.Mat? && Y.Mat? && X.cols == Y.cols
    ensures r.Ok? ==> r.value == compute(X.rows, Y.rows)
  {
    if X.Rank() != 2 || Y.Rank() != 2 then Err(NotTwoDimensional)
    else if X.Shape()[1] != Y.Shape()[1] then Err(FeatureMismatch)
    else Ok(compute(X.rows, Y.rows))
  }

  /**
   * `Kernel.__call__` as it is declared: `Y` is a required argument, so a call
   * that leaves it out raises a TypeError before any check runs.
   */
  function CallAsWritten(compute: Compute, X: NdArray, Y: Option<NdArray>): (r: Result<seq<Row>>)
    ensures Y.None? ==> r == Err(MissingArgument)
    ensures Y.Some? ==> r == Call(compute, X, Y.value)
  {
    match Y
    case None => Err(MissingArgument)
    case Some(y) => Call(compute, X, y)
  }

  /**
   * The one-argument self-similarity call `kernel(X)`, taken as `kernel(X, X)`:
   * it succeeds exactly on two-dimensional input and compares X with itself.
   */
  function CallSelf(compute: Compute, X: NdArray): (r: Result<seq<Row>>)
    ensures r.Ok? <==> X.Mat?
    ensures r.Err? ==> r.error == NotTwoDimensional
    ensures r.Ok? ==> r.value == compute(X.rows, X.rows)
    ensures r == CallAsWritten(compute, X, Some(X))
  {
    Call(compute, X, X)
  }

  // ---------------------------------------------------------------------------
  // Kernel matrices built from a pairwise similarity.

  /** The similarities of one sample `x` to each sample of `Y`. */
  function RowOf(k: (Row, Row) -> real, x: Row, Y: seq<Row>): Row {
    seq(|Y|, j requires 0 <= j < |Y| => k(x, Y[j]))
  }

  /** The similarities of each sample of `X` to one sample `y`. */
  function Column(k: (Row, Row) -> real, X: seq<Row>, y: Row): Row {
    seq(|X|, i requires 0 <= i < |X| => k(X[i], y))
  }

  /** The kernel matrix: entry (i, j) is the similarity of `X[i]` and `Y[j]`. */
  function Gram(k: (Row, Row) -> real, X: seq<Row>, Y: seq<Row>): seq<Row> {
    seq(|X|, i requires 0 <= i < |X| => RowOf(k, X[i], Y))
  }

  ghost predicate Symmetric(k: (Row, Row) -> real) {
    forall a: Row, b: Row :: k(a, b) == k(b, a)
  }

  /** A kernel matrix of |X| rows and |Y| columns has |X| * |Y| entries. */
  lemma {:induction false} GramEntryCount(k: (Row, Row) -> real, X: seq<Row>, Y: seq<Row>)
    ensures EntryCount(Gram(k, X, Y)) == |X| * |Y|
  {
    if |X| > 0 {
      var front := X[..|X| - 1];
      assert Gram(k, X, Y)[..|X| - 1] == Gram(k, front, Y);
      GramEntryCount(k, front, Y);
      assert |X| * |Y| == |front| * |Y| + |Y|;
    }
  }

  /** Adding a sample `y` to the right-hand side adds the column of similarities to `y`. */
  lemma {:induction false} GramSumAddColumn(k: (Row, Row) -> real, X: seq<Row>, Y: seq<Row>, y: Row)
    ensures MatrixSum(Gram(k, X, Y + [y])) == MatrixSum(Gram(k, X, Y)) + Sum(Column(k, X, y))
  {
    if |X| > 0 {
      var front, x := X[..|X| - 1], X[|X| - 1];
      GramSumAddColumn(k, front, Y, y);
      assert Gram(k, X, Y + [y])[..|X| - 1] == Gram(k, front, Y + [y]);
      assert Gram(k, X, Y)[..|X| - 1] == Gram(k, front, Y);
      assert Column(k, X, y)[..|X| - 1] == Column(k, front, y);
      assert RowOf(k, x, Y + [y])[..|Y|] == RowOf(k, x, Y);
    }
  }

  /** A kernel matrix against no samples sums to zero. */
  lemma {:induction false} GramSumNoColumns(k: (Row, Row) -> real, X: seq<Row>)
    ensures MatrixSum(Gram(k, X, [])) == 0.0
  {
    if |X| > 0 {
      assert Gram(k, X, [])[..|X| - 1] == Gram(k, X[..|X| - 1], []);
      GramSumNoColumns(k, X[..|X| - 1]);
    }
  }

  /** Summing a kernel matrix by rows or by columns gives the same total. */
  lemma {:induction false} GramSumTranspose(k: (Row, Row) -> real, flipped: (Row, Row) -> real, X: seq<Row>, Y: seq<Row>)
    requires forall a: Row, b: Row :: flipped(a, b) == k(b, a)
    ensures MatrixSum(Gram(k, X, Y)) == MatrixSum(Gram(flipped, Y, X))
  {
    if |Y| > 0 {
      var front, y := Y[..|Y| - 1], Y[|Y| - 1];
      assert Y == front + [y];
      GramSumAddColumn(k, X, front, y);
      GramSumTranspose(k, flipped, X, front);
      assert Column(k, X, y) == RowOf(flipped, y, X);
      assert Gram(flipped, Y, X)[..|Y| - 1] == Gram(flipped, front, X);
    } else {
      GramSumNoColumns(k, X);
    }
  }

  /** With a symmetric similarity the mean of K(X, Y) equals the mean of K(Y, X). */
  lemma GramMeanSymmetric(k: (Row, Row) -> real, X: seq<Row>, Y: seq<Row>)
    requires Symmetric(k)
    ensures Mean(Gram(k, X, Y)) == Mean(Gram(k, Y, X))
  {
    GramSumTranspose(k, k, X, Y);
    GramEntryCount(k, X, Y);
    GramEntryCount(k, Y, X);
    assert |X| * |Y| == |Y| * |X|;
  }
}
