/** The shared data model: a time series is either a scalar series (a 1-D
    array of shape (n,)) or a vector series (a 2-D array of shape (n, D),
    every sample a vector of D components).  The numeric code tells the two
    apart by the rank of the array; here the rank is the constructor. */
module TimeSeries {
  import opened Sums

  datatype SeriesData =
    | Scalar(values: seq<real>)
    | Vector(dim: nat, rows: seq<seq<real>>)

  /** A vector series is rectangular: every sample has `dim` components. */
  predicate Rectangular(s: SeriesData)
  {
    s.Vector? ==> forall i :: 0 <= i < |s.rows| ==> |s.rows[i]| == s.dim
  }

  type Series = s: SeriesData | Rectangular(s) witness Scalar([])

  /** The shape of the array: (n,) for a scalar series, (n, D) for a vector one. */
  datatype Shape = Shape1(n: nat) | Shape2(n: nat, d: nat)

  datatype Error = ShapeMismatch

  datatype Result<T> = Ok(value: T) | Err(error: Error)

  datatype Option<T> = None | Some(value: T)

  /** The number of time steps, len(ts). */
  function Length(s: Series): nat
  {
    match s
    case Scalar(values) => |values|
    case Vector(_, rows) => |rows|
  }

  function ShapeOf(s: Series): (shape: Shape)
    ensures shape.n == Length(s)
  {
    match s
    case Scalar(values) => Shape1(|values|)
    case Vector(dim, rows) => Shape2(|rows|, dim)
  }

  /** The second series of a paired operation: the given one, or the first
      series itself when the second is omitted. */
  function OtherOr(ts1: Series, ts2: Option<Series>): Series
  {
    if ts2.Some? then ts2.value else ts1
  }

  /** Components of u and v multiplied pairwise and added up. */
  function Dot(u: seq<real>, v: seq<real>): real
    requires |u| == |v|
  {
    Sum(seq(|u|, d requires 0 <= d < |u| => u[d] * v[d]))
  }

  /** Component-wise difference u - v. */
  function VecSub(u: seq<real>, v: seq<real>): (w: seq<real>)
    requires |u| == |v|
    ensures |w| == |u|
  {
    seq(|u|, d requires 0 <= d < |u| => u[d] - v[d])
  }

  /** Sum of the squared components, np.square(v).sum(). */
  function SumOfSquares(v: seq<real>): real
  {
    Sum(seq(|v|, d requires 0 <= d < |v| => v[d] * v[d]))
  }

  /** Row-by-row difference of two equally long arrays of samples, a - b. */
  function RowDifferences(a: seq<seq<real>>, b: seq<seq<real>>): (d: seq<seq<real>>)
    requires |a| == |b| && forall i :: 0 <= i < |a| ==> |a[i]| == |b[i]|
    ensures |d| == |a|
  {
    seq(|a|, i requires 0 <= i < |a| => VecSub(a[i], b[i]))
  }

  /** The squared norm of every row, np.square(d).sum(axis=1). */
  function RowSquaredNorms(d: seq<seq<real>>): (r: seq<real>)
    ensures |r| == |d|
  {
    seq(|d|, i requires 0 <= i < |d| => SumOfSquares(d[i]))
  }

  /** Squared Euclidean distance between sample i of s and sample j of s. */
  function SqDistance(s: Series, i: nat, j: nat): real
    requires i < Length(s) && j < Length(s)
  {
    match s
    case Scalar(x) => (x[i] - x[j]) * (x[i] - x[j])
    case Vector(_, r) => SumOfSquares(VecSub(r[i], r[j]))
  }

  /** The product of sample i of s1 with sample j of s2: a plain product for
      scalar series, the dot product (the implied sum over the components)
      for vector series. */
  function SampleProduct(s1: Series, s2: Series, i: nat, j: nat): real
    requires ShapeOf(s1) == ShapeOf(s2)
    requires i < Length(s1) && j < Length(s1)
  {
    match s1
    case Scalar(x) => x[i] * s2.values[j]
    case Vector(_, r) => Dot(r[i], s2.rows[j])
  }

  /** The sample-by-sample products ts1 * ts2, reduced over the components
      of a vector series; for ts1 == ts2 the squared magnitudes. */
  function PointwiseProducts(s1: Series, s2: Series): (p: seq<real>)
    requires ShapeOf(s1) == ShapeOf(s2)
    ensures |p| == Length(s1)
  {
    seq(Length(s1), i requires 0 <= i < Length(s1) => SampleProduct(s1, s2, i, i))
  }

  /** A squared distance expands into two squared magnitudes and a cross
      term: |a - b|^2 = a.a + b.b - 2 a.b. */
  lemma {:induction false} SqDistanceExpands(s: Series, i: nat, j: nat)
    requires i < Length(s) && j < Length(s)
    ensures SqDistance(s, i, j)
         == SampleProduct(s, s, i, i) + SampleProduct(s, s, j, j) - 2.0 * SampleProduct(s, s, i, j)
  {
    match s
    case Scalar(x) =>
      assert (x[i] - x[j]) * (x[i] - x[j]) == x[i] * x[i] + x[j] * x[j] - 2.0 * (x[i] * x[j]);
    case Vector(dim, r) =>
      var u, v := r[i], r[j];
      var squares := seq(dim, d requires 0 <= d < dim => VecSub(u, v)[d] * VecSub(u, v)[d]);
      var uu := seq(dim, d requires 0 <= d < dim => u[d] * u[d]);
      var vv := seq(dim, d requires 0 <= d < dim => v[d] * v[d]);
      var uv := seq(dim, d requires 0 <= d < dim => u[d] * v[d]);
      var both := seq(dim, d requires 0 <= d < dim => uu[d] + vv[d]);
      var cross := seq(dim, d requires 0 <= d < dim => -2.0 * uv[d]);
      forall d | 0 <= d < dim
        ensures squares[d] == both[d] + cross[d]
      {
        assert VecSub(u, v)[d] == u[d] - v[d];
        assert (u[d] - v[d]) * (u[d] - v[d]) == u[d] * u[d] + v[d] * v[d] + -2.0 * (u[d] * v[d]);
      }
      SumAdd(uu, vv, both);
      SumScale(uv, -2.0, cross);
      SumAdd(both, cross, squares);
  }

  /** The bound of a Python slice `a[:stop]` over a sequence of length n:
      None means up to the end, a negative stop counts from the end. */
  function SliceStop(n: nat, stop: Option<int>): (end: nat)
    ensures end <= n
  {
    match stop
    case None => n
    case Some(s) =>
      if s < 0 then (if n + s < 0 then 0 else n + s)
      else if s < n then s else n
  }

  /** Why the direct estimators write `-shift if shift else None`: for shift 0
      the bound None keeps the whole series, whereas `-0` would be the bound 0
      and select nothing; for any other shift it drops the last `shift` samples. */
  lemma {:induction false} ShiftedSliceStop(n: nat, shift: nat)
    requires shift <= n
    ensures SliceStop(n, if shift != 0 then Some(-(shift as int)) else None) == n - shift
    ensures 0 < n ==> SliceStop(n, Some(-0)) == 0 != n
  {
  }
}
