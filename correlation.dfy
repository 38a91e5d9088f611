/** The correlation function of one or two time series, computed in the
    source by a zero-padded FFT.  The transform pair itself is a library call;
    what the pipeline
        ifft(conj(fft(ts1, n2)) * fft(ts2, n2)).real
    yields at lag k, for real input, is the circular correlation of the two
    series zero-padded to length n2, and that is what is modelled here. */
module Correlation {
  import opened Sums
  import opened TimeSeries
  import opened PowerOfTwo

  /** x followed by zeros up to length m (fft(x, m) pads its input so). */
  function Pad(x: seq<real>, m: nat): (r: seq<real>)
    requires |x| <= m
    ensures |r| == m
    ensures forall i :: 0 <= i < |x| ==> r[i] == x[i]
    ensures forall i :: |x| <= i < m ==> r[i] == 0.0
  {
    x + seq(m - |x|, _ => 0.0)
  }

  /** The circular correlation of a and b at lag k: indices into b wrap
      around modulo the common length. */
  function CircularCorrelation(a: seq<real>, b: seq<real>, k: nat): real
    requires 0 < |a| == |b|
  {
    Sum(seq(|a|, i requires 0 <= i < |a| => a[i] * b[(i + k) % |b|]))
  }

  /** The linear (non-wrapping) correlation sum at lag k:
      the sum over i < n - k of x[i] * y[i + k]. */
  function LinearCorrelation(x: seq<real>, y: seq<real>, k: nat): real
    requires |x| == |y| && k <= |x|
  {
    Sum(seq(|x| - k, i requires 0 <= i < |x| - k => x[i] * y[i + k]))
  }

  lemma {:induction false} SmallModulus(a: nat, m: nat)
    requires a < m
    ensures a % m == a
  {
  }

  /** Zero padding to a length of at least 2n - 1 keeps every lag k < n free
      of wrap-around: the circular correlation of the padded sequences is the
      linear correlation of the originals. */
  lemma {:induction false} PaddingPreventsWraparound(x: seq<real>, y: seq<real>, m: nat, k: nat)
    requires |x| == |y| && k < |x| && 2 * |x| <= m + 1
    ensures CircularCorrelation(Pad(x, m), Pad(y, m), k) == LinearCorrelation(x, y, k)
  {
    var n := |x|;
    var a, b := Pad(x, m), Pad(y, m);
    var terms := seq(m, i requires 0 <= i < m => a[i] * b[(i + k) % m]);
    var linear := seq(n - k, i requires 0 <= i < n - k => x[i] * y[i + k]);
    forall i | 0 <= i < n - k
      ensures terms[i] == linear[i]
    {
      SmallModulus(i + k, m);
      assert a[i] == x[i] && b[i + k] == y[i + k];
    }
    forall i | n - k <= i < m
      ensures terms[i] == 0.0
    {
      if i < n {
        SmallModulus(i + k, m);
        assert b[i + k] == 0.0;
      } else {
        assert a[i] == 0.0;
      }
    }
    assert terms[..n - k] == linear;
    SumOfZeros(terms[n - k..]);
    SumSplit(terms, n - k);
  }

  /** Column d of a vector series: the time series of one component. */
  function Column(s: Series, d: nat): (c: seq<real>)
    requires s.Vector? && d < s.dim
    ensures |c| == Length(s)
  {
    seq(|s.rows|, i requires 0 <= i < |s.rows| => s.rows[i][d])
  }

  /** What the FFT pipeline leaves at lag k, summed over the components of a
      vector series (np.add.reduce over axis 1). */
  function PaddedCorrelation(s1: Series, s2: Series, m: nat, k: nat): real
    requires ShapeOf(s1) == ShapeOf(s2) && Length(s1) <= m && 0 < m
  {
    match s1
    case Scalar(x) => CircularCorrelation(Pad(x, m), Pad(s2.values, m), k)
    case Vector(dim, _) =>
      Sum(seq(dim, d requires 0 <= d < dim =>
        CircularCorrelation(Pad(Column(s1, d), m), Pad(Column(s2, d), m), k)))
  }

  /** The lag-k correlation sum of two series of the same shape: the sum over
      the n - k overlapping pairs of the product (dot product) of sample i of
      s1 with sample i + k of s2. */
  function LaggedProductSum(s1: Series, s2: Series, k: nat): real
    requires ShapeOf(s1) == ShapeOf(s2) && k <= Length(s1)
  {
    Sum(LaggedProducts(s1, s2, k))
  }

  /** The products of sample i of s1 with sample i + k of s2, for i < n - k. */
  function LaggedProducts(s1: Series, s2: Series, k: nat): (p: seq<real>)
    requires ShapeOf(s1) == ShapeOf(s2) && k <= Length(s1)
    ensures |p| == Length(s1) - k
  {
    seq(Length(s1) - k, i requires 0 <= i < Length(s1) - k => SampleProduct(s1, s2, i, i + k))
  }

  /** correlation(ts1, ts2): entry k is what the padded FFT pipeline computes
      at lag k, divided by the n - k pairs that overlap at that lag.  A second
      series of another shape fails the source's assertion. */
  function Correlate(ts1: Series, ts2: Option<Series>): (r: Result<seq<real>>)
    ensures r.Err? <==> ts2.Some? && ShapeOf(ts2.value) != ShapeOf(ts1)
    ensures r.Ok? ==> |r.value| == Length(ts1)
  {
    var n := Length(ts1);
    var n2 := 2 * NextPowerOfTwo(n);
    if ts2.Some? && ShapeOf(ts2.value) != ShapeOf(ts1) then Err(ShapeMismatch)
    else
      var other := OtherOr(ts1, ts2);
      Ok(seq(n, k requires 0 <= k < n => PaddedCorrelation(ts1, other, n2, k) / (n - k) as real))
  }

  /** The matrix of component products at lag k: row i holds
      s1[i][d] * s2[i + k][d] for every component d. */
  function LagProducts(s1: Series, s2: Series, k: nat): (p: seq<seq<real>>)
    requires s1.Vector? && ShapeOf(s1) == ShapeOf(s2) && k <= Length(s1)
    ensures |p| == Length(s1) - k
    ensures forall i :: 0 <= i < |p| ==> |p[i]| == s1.dim
  {
    var n, dim := Length(s1), s1.dim;
    seq(n - k, i requires 0 <= i < n - k =>
      seq(dim, d requires 0 <= d < dim => s1.rows[i][d] * s2.rows[i + k][d]))
  }

  /** One component: the padded pipeline on column d sums column d of the
      product matrix. */
  lemma {:induction false} ComponentPaddedIsLinear(s1: Series, s2: Series, m: nat, k: nat, d: nat)
    requires s1.Vector? && ShapeOf(s1) == ShapeOf(s2) && d < s1.dim
    requires k < Length(s1) && 2 * Length(s1) <= m + 1
    ensures CircularCorrelation(Pad(Column(s1, d), m), Pad(Column(s2, d), m), k)
         == ColumnSums(LagProducts(s1, s2, k), s1.dim)[d]
  {
    var n := Length(s1);
    var p := LagProducts(s1, s2, k);
    var x, y := Column(s1, d), Column(s2, d);
    PaddingPreventsWraparound(x, y, m, k);
    var linear := seq(n - k, i requires 0 <= i < n - k => x[i] * y[i + k]);
    var column := seq(|p|, i requires 0 <= i < |p| => p[i][d]);
    forall i | 0 <= i < n - k
      ensures linear[i] == column[i]
    {
    }
    assert linear == column;
  }

  /** Row sums of the product matrix are the dot products of the lagged pairs. */
  lemma {:induction false} RowSumsAreDotProducts(s1: Series, s2: Series, k: nat)
    requires s1.Vector? && ShapeOf(s1) == ShapeOf(s2) && k <= Length(s1)
    ensures RowSums(LagProducts(s1, s2, k)) == LaggedProducts(s1, s2, k)
  {
    var p := LagProducts(s1, s2, k);
    forall i | 0 <= i < |p|
      ensures Sum(p[i]) == SampleProduct(s1, s2, i, i + k)
    {
      var u, v := s1.rows[i], s2.rows[i + k];
      assert p[i] == seq(|u|, d requires 0 <= d < |u| => u[d] * v[d]);
    }
  }

  /** For a vector series the per-component correlations add up to the
      correlation of dot products. */
  lemma {:induction false} VectorPaddedIsLinear(s1: Series, s2: Series, m: nat, k: nat)
    requires s1.Vector? && ShapeOf(s1) == ShapeOf(s2)
    requires k < Length(s1) && 2 * Length(s1) <= m + 1
    ensures PaddedCorrelation(s1, s2, m, k) == LaggedProductSum(s1, s2, k)
  {
    var dim := s1.dim;
    var p := LagProducts(s1, s2, k);
    var perComponent := seq(dim, d requires 0 <= d < dim =>
      CircularCorrelation(Pad(Column(s1, d), m), Pad(Column(s2, d), m), k));
    forall d | 0 <= d < dim
      ensures perComponent[d] == ColumnSums(p, dim)[d]
    {
      ComponentPaddedIsLinear(s1, s2, m, k, d);
    }
    assert PaddedCorrelation(s1, s2, m, k) == Sum(perComponent);
    assert perComponent == ColumnSums(p, dim);
    SumExchange(p, dim);
    RowSumsAreDotProducts(s1, s2, k);
    assert LaggedProductSum(s1, s2, k) == Sum(RowSums(p));
  }

  /** The padded pipeline at any lag k < n equals the linear correlation sum,
      for scalar and for vector series alike. */
  lemma {:induction false} PaddedIsLinear(s1: Series, s2: Series, m: nat, k: nat)
    requires ShapeOf(s1) == ShapeOf(s2)
    requires k < Length(s1) && 2 * Length(s1) <= m + 1
    ensures PaddedCorrelation(s1, s2, m, k) == LaggedProductSum(s1, s2, k)
  {
    match s1
    case Scalar(x) =>
      var y := s2.values;
      PaddingPreventsWraparound(x, y, m, k);
      var linear := seq(|x| - k, i requires 0 <= i < |x| - k => x[i] * y[i + k]);
      var products := LaggedProducts(s1, s2, k);
      forall i | 0 <= i < |x| - k
        ensures linear[i] == products[i]
      {
        assert products[i] == SampleProduct(s1, s2, i, i + k);
      }
      assert linear == products;
    case Vector(_, _) =>
      VectorPaddedIsLinear(s1, s2, m, k);
  }

  /** The correlation function, entry by entry: the lag-k correlation sum of
      ts1 with ts2 (with ts1 itself when ts2 is omitted) over the n - k
      overlapping pairs, divided by n - k. */
  lemma {:induction false} CorrelateIsLinear(ts1: Series, ts2: Option<Series>, k: nat)
    requires ts2.Some? ==> ShapeOf(ts2.value) == ShapeOf(ts1)
    requires k < Length(ts1)
    ensures Correlate(ts1, ts2).Ok?
    ensures Correlate(ts1, ts2).value[k]
         == LaggedProductSum(ts1, OtherOr(ts1, ts2), k) / (Length(ts1) - k) as real
  {
    var n := Length(ts1);
    PaddedIsLinear(ts1, OtherOr(ts1, ts2), 2 * NextPowerOfTwo(n), k);
  }

  /** Omitting ts2 is the same as passing ts1 twice. */
  lemma {:induction false} AutoCorrelationIsSelfCorrelation(ts: Series)
    ensures Correlate(ts, None) == Correlate(ts, Some(ts))
  {
  }

  /** At lag 0 the auto-correlation is the mean squared magnitude of the
      samples (the mean of the dot products of each sample with itself). */
  lemma {:induction false} AutoCorrelationAtZero(ts: Series)
    requires 0 < Length(ts)
    ensures Correlate(ts, None).Ok?
    ensures Correlate(ts, None).value[0] == Sum(PointwiseProducts(ts, ts)) / Length(ts) as real
  {
    var n := Length(ts);
    CorrelateIsLinear(ts, None, 0);
    assert OtherOr(ts, None) == ts;
    assert LaggedProducts(ts, ts, 0) == PointwiseProducts(ts, ts);
  }

  lemma {:induction false} SumOfFour(a: real, b: real, c: real, d: real)
    ensures Sum([a]) == a
    ensures Sum([a, b]) == a + b
    ensures Sum([a, b, c]) == a + b + c
    ensures Sum([a, b, c, d]) == a + b + c + d
  {
    assert [a][..0] == [];
    assert [a, b][..1] == [a];
    assert [a, b, c][..2] == [a, b];
    assert [a, b, c, d][..3] == [a, b, c];
  }

  /** The lag-k product sums of 1, 2, 3, 4 with itself: 1+4+9+16, 2+6+12,
      3+8 and 4. */
  lemma {:induction false} LaggedSumsOfOneToFour(k: nat)
    requires k < 4
    ensures LaggedProductSum(Scalar([1.0, 2.0, 3.0, 4.0]), Scalar([1.0, 2.0, 3.0, 4.0]), k)
         == [30.0, 20.0, 11.0, 4.0][k]
  {
    var ts: Series := Scalar([1.0, 2.0, 3.0, 4.0]);
    var p := LaggedProducts(ts, ts, k);
    if k == 0 {
      assert p == [1.0, 4.0, 9.0, 16.0];
      SumOfFour(1.0, 4.0, 9.0, 16.0);
    } else if k == 1 {
      assert p == [2.0, 6.0, 12.0];
      SumOfFour(2.0, 6.0, 12.0, 0.0);
    } else if k == 2 {
      assert p == [3.0, 8.0];
      SumOfFour(3.0, 8.0, 0.0, 0.0);
    } else {
      assert p == [4.0];
      SumOfFour(4.0, 0.0, 0.0, 0.0);
    }
  }

  /** The series 1, 2, 3, 4 is padded to 8 samples; its correlation function
      is (1+4+9+16)/4, (2+6+12)/3, (3+8)/2, 4/1. */
  lemma {:induction false} CorrelationOfOneToFour()
    ensures Correlate(Scalar([1.0, 2.0, 3.0, 4.0]), None) == Ok([7.5, 20.0 / 3.0, 5.5, 4.0])
  {
    var ts: Series := Scalar([1.0, 2.0, 3.0, 4.0]);
    var expected := [7.5, 20.0 / 3.0, 5.5, 4.0];
    forall k | 0 <= k < 4
      ensures Correlate(ts, None).value[k] == expected[k]
    {
      CorrelateIsLinear(ts, None, k);
      assert OtherOr(ts, None) == ts;
      LaggedSumsOfOneToFour(k);
    }
    assert Correlate(ts, None).value == expected;
  }

  /** Without the padding the lags wrap around: on 1, 2, 3, 4 itself the
      circular correlation at lag 1 picks up the product 4 * 1 of the last
      and the first sample, 24 instead of the linear 20. */
  lemma {:induction false} UnpaddedLagsWrapAround()
    ensures CircularCorrelation([1.0, 2.0, 3.0, 4.0], [1.0, 2.0, 3.0, 4.0], 1) == 24.0
    ensures LinearCorrelation([1.0, 2.0, 3.0, 4.0], [1.0, 2.0, 3.0, 4.0], 1) == 20.0
  {
    var x := [1.0, 2.0, 3.0, 4.0];
    assert seq(4, i requires 0 <= i < 4 => x[i] * x[(i + 1) % 4]) == [2.0, 6.0, 12.0, 4.0];
    assert seq(3, i requires 0 <= i < 3 => x[i] * x[i + 1]) == [2.0, 6.0, 12.0];
    SumOfFour(2.0, 6.0, 12.0, 4.0);
  }
}
