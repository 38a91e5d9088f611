/** The two mean-square-displacement estimators of the package: the direct
    loop over shifts, and the formulation by prefix sums and one correlation
    call, which equals it exactly in real arithmetic. */
module Msd {
  import opened Sums
  import opened TimeSeries
  import opened Correlation

  /** The squared displacements at lag k: pair i compares sample i with
      sample i + k, for the n - k pairs that overlap. */
  function Displacements(s: Series, k: nat): (d: seq<real>)
    requires k <= Length(s)
    ensures |d| == Length(s) - k
  {
    seq(Length(s) - k, i requires 0 <= i < Length(s) - k => SqDistance(s, i, i + k))
  }

  /** The mean square displacement at lag k: the mean, over the n - k
      overlapping pairs, of the squared distance between the two samples. */
  function MeanSqDisplacement(s: Series, k: nat): real
    requires k < Length(s)
  {
    Sum(Displacements(s, k)) / (Length(s) - k) as real
  }

  /** At lag 0 every sample is compared with itself. */
  lemma {:induction false} MeanSqDisplacementAtZero(s: Series)
    requires 0 < Length(s)
    ensures MeanSqDisplacement(s, 0) == 0.0
  {
    var d := Displacements(s, 0);
    forall i | 0 <= i < |d|
      ensures d[i] == 0.0
    {
      if s.Vector? {
        var u := s.rows[i];
        var w := VecSub(u, u);
        assert seq(|w|, j requires 0 <= j < |w| => w[j] * w[j]) == seq(|w|, j => 0.0);
        SumOfZeros(seq(|w|, j => 0.0));
      }
    }
    SumOfZeros(d);
  }

  lemma {:induction false} SumOfSquaresNonnegative(v: seq<real>)
    ensures SumOfSquares(v) >= 0.0
  {
    SumNonnegative(seq(|v|, d requires 0 <= d < |v| => v[d] * v[d]));
  }

  /** A mean of squared distances is never negative. */
  lemma {:induction false} MeanSqDisplacementNonnegative(s: Series, k: nat)
    requires k < Length(s)
    ensures MeanSqDisplacement(s, k) >= 0.0
  {
    var d := Displacements(s, k);
    forall i | 0 <= i < |d|
      ensures d[i] >= 0.0
    {
      if s.Vector? {
        SumOfSquaresNonnegative(VecSub(s.rows[i], s.rows[i + k]));
      } else {
        var e := s.values[i] - s.values[i + k];
        assert d[i] == e * e;
      }
    }
    SumNonnegative(d);
  }

  /** Uniform linear motion r[i] = i * v: the displacement over lag k is k * v
      for every pair, so the mean square displacement is k^2 |v|^2. */
  lemma {:induction false} UniformMotion(s: Series, v: seq<real>, k: nat)
    requires s.Vector? && s.dim == |v| && k < Length(s)
    requires forall i, d :: 0 <= i < Length(s) && 0 <= d < |v| ==> s.rows[i][d] == (i as real) * v[d]
    ensures MeanSqDisplacement(s, k) == (k * k) as real * SumOfSquares(v)
  {
    var disp := Displacements(s, k);
    var each := (k * k) as real * SumOfSquares(v);
    forall i | 0 <= i < |disp|
      ensures disp[i] == each
    {
      UniformPairDisplacement(s, v, i, k);
    }
    SumOfConstant(disp, each);
  }

  lemma {:induction false} UniformPairDisplacement(s: Series, v: seq<real>, i: nat, k: nat)
    requires s.Vector? && s.dim == |v| && i + k < Length(s)
    requires forall i, d :: 0 <= i < Length(s) && 0 <= d < |v| ==> s.rows[i][d] == (i as real) * v[d]
    ensures SqDistance(s, i, i + k) == (k * k) as real * SumOfSquares(v)
  {
    var kk := (k * k) as real;
    var squares := seq(|v|, d requires 0 <= d < |v| => v[d] * v[d]);
    var w := VecSub(s.rows[i], s.rows[i + k]);
    var sq := seq(|w|, d requires 0 <= d < |w| => w[d] * w[d]);
    forall d | 0 <= d < |v|
      ensures sq[d] == kk * squares[d]
    {
      assert w[d] == (i as real) * v[d] - ((i + k) as real) * v[d];
      assert w[d] == -((k as real) * v[d]);
    }
    SumScale(squares, kk, sq);
  }

  /** The squared norms of ts[:n - k] - ts[k:] are the squared displacements
      at lag k. */
  lemma {:induction false} ShiftedDifferences(ts: Series, k: nat)
    requires ts.Vector? && k < Length(ts)
    ensures RowSquaredNorms(RowDifferences(ts.rows[..Length(ts) - k], ts.rows[k..]))
         == Displacements(ts, k)
  {
    var n, r := Length(ts), ts.rows;
    var sqdist := RowSquaredNorms(RowDifferences(r[..n - k], r[k..]));
    forall i | 0 <= i < n - k
      ensures sqdist[i] == Displacements(ts, k)[i]
    {
      assert r[..n - k][i] == r[i] && r[k..][i] == r[i + k];
      assert RowDifferences(r[..n - k], r[k..])[i] == VecSub(r[i], r[i + k]);
      assert Displacements(ts, k)[i] == SqDistance(ts, i, i + k) == SumOfSquares(VecSub(r[i], r[i + k]));
    }
  }

  /** compute_msd_notoptimized: for every shift, fill entry `shift` of a
      zero-initialised array with the mean over the n - shift pairs of the
      squared distance, summed over the components.  A non-empty array must
      be two dimensional: a scalar series has no axis 1 to sum over.  An
      empty series of either rank runs no iteration and gives an empty array. */
  method ComputeMsdNotOptimized(ts: Series) returns (msd: seq<real>)
    requires ts.Vector? || Length(ts) == 0
    ensures |msd| == Length(ts)
    ensures forall k :: 0 <= k < |msd| ==> msd[k] == MeanSqDisplacement(ts, k)
  {
    var n := Length(ts);
    var r := if ts.Vector? then ts.rows else [];
    var result := new real[n](_ => 0.0);
    for shift := 0 to n
      invariant forall k :: 0 <= k < shift ==> result[k] == MeanSqDisplacement(ts, k)
    {
      ShiftedSliceStop(n, shift);
      var stop := SliceStop(n, if shift != 0 then Some(-(shift as int)) else None);
      var diffs := RowDifferences(r[..stop], r[shift..]);
      var sqdist := RowSquaredNorms(diffs);
      ShiftedDifferences(ts, shift);
      result[shift] := Sum(sqdist) / (n - shift) as real;
    }
    msd := result[..];
  }

  /** compute_msd(ts1, ts2): the squared magnitudes' running totals from the
      front and from the back, twice the grand total, and twice the
      correlation as the cross term.  The sum over i of
      |x[i + k] - x[i]|^2 splits into the squares of the first n - k samples,
      the squares of the last n - k samples and the cross products at lag k.
      A second series of another shape fails the source's assertion. */
  function ComputeMsd(ts1: Series, ts2: Option<Series>): (r: Result<seq<real>>)
    requires 0 < Length(ts1)
    ensures r.Err? <==> ts2.Some? && ShapeOf(ts2.value) != ShapeOf(ts1)
    ensures r.Ok? ==> |r.value| == Length(ts1)
  {
    if ts2.Some? && ShapeOf(ts2.value) != ShapeOf(ts1) then Err(ShapeMismatch)
    else
      var other := OtherOr(ts1, ts2);
      Ok(PrefixSumFormula(PointwiseProducts(ts1, other), Correlate(ts1, Some(other)).value))
  }

  /** The whole-array expression of compute_msd, given the pointwise
      products dsq and the correlation corr: the running totals from the
      front and from the back shifted by one behind a leading 0, subtracted
      from twice the grand total, divided by n - k, less twice corr. */
  function PrefixSumFormula(dsq: seq<real>, corr: seq<real>): (r: seq<real>)
    requires 0 < |dsq| == |corr|
    ensures |r| == |dsq|
  {
    var n := |dsq|;
    var sumDsq1 := Accumulate(dsq);
    var sumDsq2 := Accumulate(Reversed(dsq));
    var sumsq := 2.0 * sumDsq1[n - 1];
    var fromFront := [0.0] + sumDsq1[..n - 1];
    var fromBack := [0.0] + sumDsq2[..n - 1];
    seq(n, k requires 0 <= k < n =>
      (sumsq - fromFront[k] - fromBack[k]) / (n - k) as real - 2.0 * corr[k])
  }

  /** The squares of the first n - k samples plus those of the last n - k. */
  function SquaredRuns(dsq: seq<real>, k: nat): real
    requires k <= |dsq|
  {
    Sum(dsq[..|dsq| - k]) + Sum(dsq[k..])
  }

  /** The running-total terms of compute_msd at lag k: twice the grand total
      less the first k and the last k squared magnitudes leaves the squares
      of the first n - k samples plus those of the last n - k samples. */
  lemma {:induction false} PrefixTermsAtLag(dsq: seq<real>, k: nat)
    requires k < |dsq|
    ensures 2.0 * Accumulate(dsq)[|dsq| - 1]
            - ([0.0] + Accumulate(dsq)[..|dsq| - 1])[k]
            - ([0.0] + Accumulate(Reversed(dsq))[..|dsq| - 1])[k]
         == Sum(dsq[..|dsq| - k]) + Sum(dsq[k..])
  {
    FrontRemainder(dsq, k);
    BackRemainder(dsq, k);
  }

  /** The grand total less the first k samples leaves the last n - k. */
  lemma {:induction false} FrontRemainder(dsq: seq<real>, k: nat)
    requires k < |dsq|
    ensures Accumulate(dsq)[|dsq| - 1] - ([0.0] + Accumulate(dsq)[..|dsq| - 1])[k] == Sum(dsq[k..])
  {
    RunningTotalBefore(dsq, k);
    SumSplit(dsq, k);
  }

  /** The grand total less the last k samples leaves the first n - k. */
  lemma {:induction false} BackRemainder(dsq: seq<real>, k: nat)
    requires k < |dsq|
    ensures Sum(dsq) - ([0.0] + Accumulate(Reversed(dsq))[..|dsq| - 1])[k] == Sum(dsq[..|dsq| - k])
  {
    RunningTotalAfter(dsq, k);
    SumSplit(dsq, |dsq| - k);
  }

  /** Entry k of [0] + accumulate(s[::-1])[:-1] is the sum of the last k samples. */
  lemma {:induction false} RunningTotalAfter(s: seq<real>, k: nat)
    requires k < |s|
    ensures ([0.0] + Accumulate(Reversed(s))[..|s| - 1])[k] == Sum(s[|s| - k..])
  {
    RunningTotalBefore(Reversed(s), k);
    ReversedPrefixSum(s, k);
  }

  /** Entry k of [0] + accumulate(s)[:-1] is the sum of the first k samples. */
  lemma {:induction false} RunningTotalBefore(s: seq<real>, k: nat)
    requires k < |s|
    ensures ([0.0] + Accumulate(s)[..|s| - 1])[k] == Sum(s[..k])
  {
    if k == 0 {
      assert s[..0] == [];
    } else {
      AccumulateEntry(s, k - 1);
    }
  }

  /** Entry k of the prefix-sum formula is the sum of the first n - k and of
      the last n - k entries of dsq, over n - k, less twice corr[k]. */
  lemma {:induction false} PrefixSumFormulaAt(dsq: seq<real>, corr: seq<real>, k: nat)
    requires 0 < |dsq| == |corr| && k < |dsq|
    ensures PrefixSumFormula(dsq, corr)[k] == SquaredRuns(dsq, k) / (|dsq| - k) as real - 2.0 * corr[k]
  {
    var n := |dsq|;
    var acc1, acc2 := Accumulate(dsq), Accumulate(Reversed(dsq));
    var numerator := 2.0 * acc1[n - 1] - ([0.0] + acc1[..n - 1])[k] - ([0.0] + acc2[..n - 1])[k];
    assert PrefixSumFormula(dsq, corr)[k] == numerator / (n - k) as real - 2.0 * corr[k];
    PrefixTermsAtLag(dsq, k);
  }

  /** One pair of the displacement sum, expanded. */
  lemma {:induction false} DisplacementExpands(s: Series, k: nat, i: nat)
    requires i + k < Length(s)
    ensures Displacements(s, k)[i]
         == PointwiseProducts(s, s)[..Length(s) - k][i] + PointwiseProducts(s, s)[k..][i]
            + -2.0 * LaggedProducts(s, s, k)[i]
  {
    SqDistanceExpands(s, i, i + k);
  }

  lemma {:induction false} DisplacementsExpand(s: Series, k: nat)
    requires k < Length(s)
    ensures Displacements(s, k)
         == Plus(Plus(PointwiseProducts(s, s)[..Length(s) - k], PointwiseProducts(s, s)[k..]),
                 Scaled(-2.0, LaggedProducts(s, s, k)))
  {
    var n := Length(s);
    var expanded := Plus(Plus(PointwiseProducts(s, s)[..n - k], PointwiseProducts(s, s)[k..]),
                         Scaled(-2.0, LaggedProducts(s, s, k)));
    forall i | 0 <= i < n - k
      ensures Displacements(s, k)[i] == expanded[i]
    {
      DisplacementExpands(s, k, i);
    }
  }

  /** The squared displacements at lag k split into two runs of squared
      magnitudes and twice the lagged products. */
  lemma {:induction false} DisplacementsSplit(s: Series, k: nat)
    requires k < Length(s)
    ensures Sum(Displacements(s, k)) == SquaredRuns(PointwiseProducts(s, s), k) - 2.0 * LaggedProductSum(s, s, k)
  {
    var n := Length(s);
    var front := PointwiseProducts(s, s)[..n - k];
    var back := PointwiseProducts(s, s)[k..];
    var lagged := LaggedProducts(s, s, k);
    assert Displacements(s, k) == Plus(Plus(front, back), Scaled(-2.0, lagged)) by {
      DisplacementsExpand(s, k);
    }
    SumPlus(Plus(front, back), Scaled(-2.0, lagged));
    SumPlus(front, back);
    SumScaled(-2.0, lagged);
  }

  /** The direct estimate at lag k in terms of the squared magnitudes and
      the lag-k product sum. */
  lemma {:induction false} MeanSqDisplacementSplit(ts: Series, k: nat)
    requires k < Length(ts)
    ensures MeanSqDisplacement(ts, k)
         == (SquaredRuns(PointwiseProducts(ts, ts), k) - 2.0 * LaggedProductSum(ts, ts, k)) / (Length(ts) - k) as real
  {
    DisplacementsSplit(ts, k);
  }

  /** a/m - 2(c/m) = (a - 2c)/m, the step that joins the formula's two terms. */
  lemma {:induction false} QuotientsCombine(a: real, c: real, m: real)
    requires m > 0.0
    ensures a / m - 2.0 * (c / m) == (a - 2.0 * c) / m
  {
  }

  /** With ts2 omitted, compute_msd is the prefix-sum formula applied to
      the squared magnitudes and the self-correlation. */
  lemma {:induction false} AutoFormula(ts: Series)
    requires 0 < Length(ts)
    ensures Correlate(ts, Some(ts)).Ok?
    ensures ComputeMsd(ts, None)
         == Ok(PrefixSumFormula(PointwiseProducts(ts, ts), Correlate(ts, Some(ts)).value))
  {
    assert OtherOr(ts, None) == ts;
  }

  /** The self-correlation at lag k is the lag-k product sum over n - k. */
  lemma {:induction false} AutoCorrelationAtLag(ts: Series, k: nat)
    requires k < Length(ts)
    ensures Correlate(ts, Some(ts)).Ok?
    ensures Correlate(ts, Some(ts)).value[k] == LaggedProductSum(ts, ts, k) / (Length(ts) - k) as real
  {
    CorrelateIsLinear(ts, Some(ts), k);
    assert OtherOr(ts, Some(ts)) == ts;
  }

  /** Entry k of compute_msd(ts) through the formula: the squared runs over
      n - k, less twice the self-correlation at lag k. */
  lemma {:induction false} FormulaEntry(ts: Series, k: nat)
    requires k < Length(ts)
    ensures ComputeMsd(ts, None).Ok? && Correlate(ts, Some(ts)).Ok?
    ensures ComputeMsd(ts, None).value[k]
         == SquaredRuns(PointwiseProducts(ts, ts), k) / (|PointwiseProducts(ts, ts)| - k) as real
            - 2.0 * Correlate(ts, Some(ts)).value[k]
  {
    AutoFormula(ts);
    PrefixSumFormulaAt(PointwiseProducts(ts, ts), Correlate(ts, Some(ts)).value, k);
  }

  /** Entry k of compute_msd(ts) as one quotient over n - k. */
  lemma {:induction false} FormulaEntryAsQuotient(ts: Series, k: nat)
    requires k < Length(ts)
    ensures ComputeMsd(ts, None).Ok?
    ensures ComputeMsd(ts, None).value[k]
         == (SquaredRuns(PointwiseProducts(ts, ts), k) - 2.0 * LaggedProductSum(ts, ts, k)) / (Length(ts) - k) as real
  {
    FormulaEntry(ts, k);
    assert |PointwiseProducts(ts, ts)| == Length(ts);
    AutoCorrelationAtLag(ts, k);
    QuotientsCombine(SquaredRuns(PointwiseProducts(ts, ts), k), LaggedProductSum(ts, ts, k), (Length(ts) - k) as real);
  }

  /** For the auto case the prefix-sum formulation equals the direct
      estimator at every lag, in exact arithmetic. */
  lemma {:induction false} ComputeMsdMatchesDirect(ts: Series, k: nat)
    requires k < Length(ts)
    ensures ComputeMsd(ts, None).Ok?
    ensures ComputeMsd(ts, None).value[k] == MeanSqDisplacement(ts, k)
  {
    FormulaEntryAsQuotient(ts, k);
    MeanSqDisplacementSplit(ts, k);
  }
}
