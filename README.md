# Time-series statistics of WebNmoldyn, modelled in Dafny

This project models the numeric core of WebNmoldyn's trajectory analysis. It
covers three things:

- the correlation function of one or two time series, computed by a
  zero-padded FFT;
- the two mean-square-displacement (MSD) estimators: the direct loop over
  shifts, and the prefix-sum formulation that needs only one correlation call;
- the `window` helper, which builds the mirror (even periodic) extension of a
  windowed signal.

All arithmetic is over Dafny's exact `real`. A series is a `Series`: either
`Scalar(values)`, a 1-D array of shape (n,), or `Vector(dim, rows)`, a 2-D array
of shape (n, D) whose rows all have `dim` entries. The source tells the two
apart by the rank of the numpy array; here the rank is the constructor. The
source's `assert ts2.shape == ts1.shape` becomes the result `Err(ShapeMismatch)`.

The FFT pipeline `ifft(conj(fft(ts1, n2)) * fft(ts2, n2)).real` is modelled by
what it evaluates to for real input: the circular correlation of the two
series, each zero-padded to length `n2`. The proof that padding to
`n2 = 2 * round_up_to_power_of_two(n) >= 2n` rules out wrap-around for every
lag `k < n` is `Correlation.PaddingPreventsWraparound`. It turns the pipeline's
output into the linear correlation sum, and the headline lemma
`Msd.ComputeMsdMatchesDirect` then shows that the fast estimator equals the
direct one at every lag.

Modules:

- `Sums` (sums.dfy): sums, running totals (numpy's `add.accumulate`),
  reversal, exchange of a double sum.
- `TimeSeries` (time_series.dfy): the series datatype, shapes, the result type,
  per-sample products and squared distances, Python's `[:stop]` slice bound.
- `PowerOfTwo` (power_of_two.dfy): `round_up_to_power_of_two`.
- `Correlation` (correlation.dfy): `correlation`.
- `Msd` (msd.dfy): `compute_msd_notoptimized` and `compute_msd`.
- `Window` (window.dfy): `window`.
- `MsdScript` (msd_script.dfy): `msd/msd.py`.

Edge cases where the model follows the code:

- `compute_msd` on an empty series fails: `sum_dsq1[-1]` is out of range
  (pythonpackage/computation.py:89). `Msd.ComputeMsd` therefore requires
  `n >= 1`.
- The direct estimators sum along axis 1 (pythonpackage/computation.py:61,
  msd/msd.py:16). A non-empty 1-D series has no axis 1, so numpy rejects it.
  An empty series of either rank runs no iteration and gives an empty array.
  `Msd.ComputeMsdNotOptimized` and `MsdScript.ComputeMsd` therefore require a
  `Vector` series or an empty one.
- `window` allocates `2*len(series) - 2` entries (pythonpackage/computation.py:117),
  although its comment says `2*len(ts)-1`. The model follows the allocation.
  With one sample the array is empty, the single windowed sample is
  broadcast onto the empty slice `[:1]`, and the result is empty. With no
  samples the allocation itself fails on the negative length, so
  `Window.Window` requires at least one sample.

## Model

| member | source | states |
|---|---|---|
| PowerOfTwo.RoundUpToPowerOfTwo | pythonpackage/computation.py:5-9 | the doubling loop returns a power of two p with p >= 1 and p >= n, with p = 1 or p/2 < n, and no power of two that is at least n is smaller; it equals the reference NextPowerOfTwo(n) |
| PowerOfTwo.NextPowerOfTwo | pythonpackage/computation.py:5-9 | a recursive reference definition (by halving n, rounded up) whose result is a power of two, at least 1 and at least n, with p = 1 or p/2 < n |
| PowerOfTwo.NextPowerOfTwoIsLeast | pythonpackage/computation.py:5-9 | NextPowerOfTwo(n) is at most every power of two q >= n, so it is the least such power |
| PowerOfTwo.PowersOfTwoSpaced | pythonpackage/computation.py:7-8 | two distinct powers of two q < p satisfy q <= p/2, the fact that makes the doubling loop stop at the least power |
| Correlation.Pad | pythonpackage/computation.py:26-35 | fft's zero padding of a series to n2 samples: length n2, the original samples first, zeros after them |
| Correlation.PaddedCorrelation | pythonpackage/computation.py:26-46 | defines what the FFT pipeline leaves at lag k: the circular correlation of the two series zero-padded to m, and for vector series the sum of the per-component correlations (add.reduce over axis 1); its value is stated by PaddedIsLinear |
| Correlation.PaddingPreventsWraparound | pythonpackage/computation.py:24-39 | for sequences of length n padded with zeros to m >= 2n - 1, the circular correlation at any lag k < n equals the linear sum over i < n-k of x[i]*y[i+k] |
| Correlation.UnpaddedLagsWrapAround | pythonpackage/computation.py:24 | without padding the lags wrap: on 1,2,3,4 the circular lag-1 correlation is 24, the linear one 20 |
| Correlation.Correlate | pythonpackage/computation.py:11-46 | the result is an error exactly when ts2 is given with another shape than ts1; otherwise it has length n |
| Correlation.PaddedIsLinear | pythonpackage/computation.py:37-46 | for scalar and vector series of equal shape, the padded pipeline at lag k < n (summed over components for vectors) equals the sum over the n-k pairs of the product, or dot product, of ts1[i] and ts2[i+k] |
| Correlation.VectorPaddedIsLinear | pythonpackage/computation.py:44-46 | for a vector series, adding up the D per-component correlations gives the correlation of dot products |
| Correlation.CorrelateIsLinear | pythonpackage/computation.py:41-46 | for shapes that match, entry k of correlation(ts1, ts2) is the linear lag-k sum of products (dot products for vectors) divided by n-k, with ts2 read as ts1 when omitted |
| Correlation.AutoCorrelationIsSelfCorrelation | pythonpackage/computation.py:28-31 | correlation(ts) equals correlation(ts, ts) |
| Correlation.AutoCorrelationAtZero | pythonpackage/computation.py:43 | the lag-0 auto-correlation is the mean of the squared magnitudes of the samples |
| Correlation.LaggedSumsOfOneToFour | pythonpackage/computation.py:43 | the lag-k product sums of 1,2,3,4 with itself are 30, 20, 11 and 4 |
| Correlation.CorrelationOfOneToFour | pythonpackage/computation.py:23-46 | correlation of 1,2,3,4 is exactly [7.5, 20/3, 5.5, 4] |
| Msd.Displacements | pythonpackage/computation.py:60-61 | the squared distances of the n-k pairs (ts[i], ts[i+k]), one entry per pair |
| Msd.MeanSqDisplacement | pythonpackage/computation.py:60-62 | defines the direct estimate at lag k as the mean of the n-k squared distances; its properties are MeanSqDisplacementAtZero, MeanSqDisplacementNonnegative, UniformMotion and ComputeMsdMatchesDirect |
| Msd.ComputeMsdNotOptimized | pythonpackage/computation.py:49-63 | the loop returns one entry per shift, and entry k is the mean over the n-k pairs of the squared distance between ts[i] and ts[i+k], summed over the components |
| Msd.ShiftedDifferences | pythonpackage/computation.py:60-61 | the squared row norms of ts[:n-k] - ts[k:] are the squared displacements at lag k |
| TimeSeries.SliceStop | pythonpackage/computation.py:60 | Python's `[:stop]` bound on n samples, always between 0 and n; what it selects for the estimators' bound is stated by ShiftedSliceStop |
| TimeSeries.ShiftedSliceStop | pythonpackage/computation.py:60 | the bound `-shift if shift else None` selects the first n-shift samples, including all n at shift 0, whereas a bound of -0 would select none |
| Msd.MeanSqDisplacementAtZero | pythonpackage/computation.py:60-62 | the MSD at lag 0 is 0 |
| Msd.MeanSqDisplacementNonnegative | pythonpackage/computation.py:61-62 | every MSD entry is non-negative |
| Msd.ComputeMsd | pythonpackage/computation.py:66-94 | for n >= 1 the result is an error exactly when ts2 is given with another shape than ts1; otherwise it has length n |
| TimeSeries.PointwiseProducts | pythonpackage/computation.py:83-86 | dsq: one entry per sample, the product ts1[i]*ts2[i], summed over the components for vector series |
| Msd.PrefixSumFormula | pythonpackage/computation.py:87-93 | defines the array expression of compute_msd from dsq and the correlation, one entry per lag; entry k is stated by PrefixSumFormulaAt |
| Sums.Accumulate | pythonpackage/computation.py:87-89 | the running totals have one entry per sample, and the last one is the grand total |
| Sums.AccumulateEntry | pythonpackage/computation.py:87-88 | entry i of the running totals is the sum of the first i+1 samples |
| Msd.RunningTotalBefore | pythonpackage/computation.py:91 | entry k of [0] followed by the running totals without their last entry is the sum of the first k samples |
| Msd.RunningTotalAfter | pythonpackage/computation.py:88-92 | the same entry built from the reversed samples is the sum of the last k samples |
| Sums.ReversedPrefixSum | pythonpackage/computation.py:88 | the first k running totals of the reversed series add up the last k samples |
| Msd.PrefixTermsAtLag | pythonpackage/computation.py:87-92 | twice the grand total, less the shifted running totals from the front and from the back, is the sum of the first n-k squared magnitudes plus the sum of the last n-k |
| Msd.PrefixSumFormulaAt | pythonpackage/computation.py:87-93 | entry k of the whole-array expression is the squares of the first n-k samples plus those of the last n-k, over n-k, less twice the correlation at lag k |
| TimeSeries.SqDistanceExpands | pythonpackage/computation.py:83-93 | the identity (a-b)·(a-b) = a·a + b·b - 2 a·b, for scalar and vector samples |
| Msd.DisplacementsSplit | pythonpackage/computation.py:83-93 | the sum of the squared displacements at lag k is the two runs of squared magnitudes minus twice the lag-k product sum |
| Msd.MeanSqDisplacementSplit | pythonpackage/computation.py:60-62 | the direct MSD at lag k is the two runs of squared magnitudes, less twice the lag-k product sum, over n-k |
| Msd.AutoCorrelationAtLag | pythonpackage/computation.py:79-93 | with ts2 omitted, compute_msd correlates ts with itself, and entry k of that correlation is the lag-k product sum over n-k |
| Msd.FormulaEntryAsQuotient | pythonpackage/computation.py:78-94 | with ts2 omitted, entry k of compute_msd is one quotient: the two runs less twice the lag-k product sum, over n-k |
| Msd.ComputeMsdMatchesDirect | pythonpackage/computation.py:78-94 | for n >= 1 with ts2 omitted, compute_msd(ts)[k] equals the direct MSD at every lag k < n, for scalar and vector series |
| Msd.UniformMotion | msd/msd.py:15-17 | for uniform linear motion r[i] = i·v, the MSD at lag k is k^2 times the squared norm of v |
| MsdScript.ComputeMsd | msd/msd.py:3-18 | one entry per shift; entry k is the mean over the n-k pairs (r[i], r[i+k]) of the squared distance; entry 0 is 0; every entry is non-negative |
| MsdScript.EstimatorsAgree | msd/msd.py:12-18 | the script's estimator and compute_msd_notoptimized return the same array for the same input |
| MsdScript.UnitVelocityMsd | msd/msd.py:12-18 | for the unit-speed trajectory along the first axis, the MSD at lag k is k^2 |
| MsdScript.UnitVelocityTrajectory | msd/msd.py:12-18 | the trajectory (0,0,0), (1,0,0), (2,0,0), (3,0,0) has MSD exactly [0, 1, 4, 9] |
| Window.Windowed | pythonpackage/computation.py:120 | series*window_function: one entry per sample, entry i is series[i]*w[i] |
| Window.InnerReversed | pythonpackage/computation.py:124 | the slice res[-2:0:-1] has m-2 entries (none for one sample), and entry j is res[m-2-j] |
| Window.MirrorIsEven | pythonpackage/computation.py:122-124 | a signal holding res in its first m entries and res read back from index m-2 in the rest is even: entry i equals entry 2m-2-i |
| Window.Window | pythonpackage/computation.py:103-126 | for m >= 1 samples the output has length 2m-2 (empty for one sample); entry i < m is series[i]*w[i]; entry i >= m is series[2m-2-i]*w[2m-2-i], the reversed inner samples; the output is even: entry i equals entry 2m-2-i |

## Left out

- The FFT and inverse FFT (numpy calls on complex floats). They are replaced by
  the circular-correlation sum that the pipeline yields for real input. The
  discrete Fourier transform, complex conjugation and the real-part
  extraction are not modelled.
- Floating-point rounding. Everything is exact `real` arithmetic, so
  "equal within tolerance" becomes exact equality.
- `gaussian` (pythonpackage/computation.py:96-101): a pointwise floating-point
  `exp`. There is nothing in it to verify beyond the formula.
- Msd.ComputeMsd: only the error condition and the length are stated for a
  distinct `ts2`. The source promises no meaning for the cross formula, so
  nothing is claimed about it.
- Msd.ComputeMsd: n = 0 is excluded by its precondition, because the source
  fails on `sum_dsq1[-1]`.
- Window.Window: a window function whose length differs from the series, and
  numpy's broadcasting of a length-1 window, are excluded by its precondition.
  An empty series is excluded too, because `np.zeros` fails on the negative
  length.
- Msd.ComputeMsdNotOptimized and MsdScript.ComputeMsd: a non-empty 1-D series
  is excluded by the precondition, because `sum(axis=1)` rejects it.
- Element types: the model does not cover integer input arrays, arrays of
  rank above 2, or numpy's own shape broadcasting.
- The slice assignments of `window` are modelled as element-by-element loops
  over the allocated array.
- pythonpackage/plot.py and msd/plot.py (matplotlib plotting) and
  pythonpackage/sysinfo.py (printing platform and library versions) are not
  part of this model. The `__version__` constants are static metadata and are
  left out too.
