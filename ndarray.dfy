/** The part of numpy's array model the package relies on: shape, rank, size, sums and the mean. */
module NdArrays {

  /** One sample: a feature vector. */
  type Row = seq<real>

  /** Every row has exactly `cols` entries. */
  predicate Rectangular(rows: seq<Row>, cols: nat) {
    forall i :: 0 <= i < |rows| ==> |rows[i]| == cols
  }

  /** The feature count of a list of rows, read off its first row. */
  function Width(rows: seq<Row>): nat {
    if |rows| == 0 then 0 else |rows[0]|
  }

  /** A list of rows that numpy turns into a two-dimensional array. */
  predicate IsTable(rows: seq<Row>) {
    Rectangular(rows, Width(rows))
  }

  /** The product of a shape's extents, which is the number of elements of the array. */
  function Product(s: seq<nat>): (p: nat)
    ensures p == 0 <==> 0 in s
  {
    if |s| == 0 then 1
    else
      var rest := Product(s[1..]);
      assert 0 in s <==> s[0] == 0 || 0 in s[1..];
      s[0] * rest
  }

  /**
   * A numpy array. Two-dimensional arrays keep their rows; an array of any
   * other rank keeps only its shape, because every modelled path that meets
   * one either raises or looks at nothing but its shape and size.
   */
  datatype RawArray =
    | Mat(rows: seq<Row>, cols: nat)
    | NonMatrix(shape: seq<nat>)
  {
    predicate WellFormed() {
      if Mat? then Rectangular(rows, cols) else |shape| != 2
    }

    /** `a.shape`: a matrix of m rows and d columns has shape (m, d). */
    function Shape(): seq<nat> {
      if Mat? then [|rows|, cols] else shape
    }

    /** `a.ndim`. */
    function Rank(): nat {
      |Shape()|
    }

    /** `a.size`: zero exactly when some extent of the shape is zero. */
    function Size(): (n: nat)
      ensures n == 0 <==> 0 in Shape()
      ensures Mat? ==> (n == 0 <==> |rows| == 0 || cols == 0)
    {
      assert Mat? ==> (0 in Shape() <==> |rows| == 0 || cols == 0);
      Product(Shape())
    }
  }

  type NdArray = a: RawArray | a.WellFormed() witness NonMatrix([0])

  /** `np.asarray([])`: a one-dimensional array with no elements. */
  const EmptyList: NdArray := NonMatrix([0])

  /**
   * `np.asarray(rows)` for a list of equal-length rows: the empty list is
   * one-dimensional, any other list is a matrix with one row per element.
   */
  function AsArray(rows: seq<Row>): (a: NdArray)
    requires IsTable(rows)
    ensures a.Rank() == 2 <==> |rows| > 0
    ensures |rows| > 0 ==> a.Mat? && a.rows == rows && a.cols == Width(rows)
    ensures a.Size() == 0 <==> |rows| == 0 || Width(rows) == 0
  {
    if |rows| == 0 then EmptyList else Mat(rows, Width(rows))
  }

  /** The sum of a sequence of reals. */
  function Sum(s: seq<real>): real {
    if |s| == 0 then 0.0 else Sum(s[..|s| - 1]) + s[|s| - 1]
  }

  /** The sum of every entry of a matrix. */
  function MatrixSum(m: seq<Row>): real {
    if |m| == 0 then 0.0 else MatrixSum(m[..|m| - 1]) + Sum(m[|m| - 1])
  }

  /** The number of entries of a matrix. */
  function EntryCount(m: seq<Row>): nat {
    if |m| == 0 then 0 else EntryCount(m[..|m| - 1]) + |m[|m| - 1]|
  }

  /**
   * `np.mean(m)`: the sum of the entries over their number. numpy yields nan
   * for an array with no entries; no modelled path takes the mean of one, and
   * the model returns 0.0 there.
   */
  function Mean(m: seq<Row>): real {
    if EntryCount(m) == 0 then 0.0 else MatrixSum(m) / EntryCount(m) as real
  }
}
