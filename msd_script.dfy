/** msd/msd.py: the stand-alone direct estimator over an array of
    coordinates r of shape (t, D), written out a second time in the script
    next to the package. */
module MsdScript {
  import opened Sums
  import opened TimeSeries
  import Msd

  /** compute_msd(r): one entry per shift; entry `shift` is the mean over the
      t - shift pairs (r[i], r[i + shift]) of the squared Euclidean distance,
      the coordinates summed along axis 1.  An empty array of either rank
      runs no iteration. */
  method ComputeMsd(r: Series) returns (msd: seq<real>)
    requires r.Vector? || Length(r) == 0
    ensures |msd| == Length(r)
    ensures forall k :: 0 <= k < |msd| ==> msd[k] == Msd.MeanSqDisplacement(r, k)
    ensures 0 < |msd| ==> msd[0] == 0.0
    ensures forall k :: 0 <= k < |msd| ==> msd[k] >= 0.0
  {
    var n := Length(r);
    var coords := if r.Vector? then r.rows else [];
    var result := new real[n](_ => 0.0);
    for shift := 0 to n
      invariant forall k :: 0 <= k < shift ==> result[k] == Msd.MeanSqDisplacement(r, k)
    {
      ShiftedSliceStop(n, shift);
      var stop := SliceStop(n, if shift != 0 then Some(-(shift as int)) else None);
      var diffs := RowDifferences(coords[..stop], coords[shift..]);
      var sqdist := RowSquaredNorms(diffs);
      Msd.ShiftedDifferences(r, shift);
      result[shift] := Sum(sqdist) / (n - shift) as real;
    }
    msd := result[..];
    if 0 < n {
      Msd.MeanSqDisplacementAtZero(r);
    }
    forall k | 0 <= k < n
      ensures msd[k] >= 0.0
    {
      Msd.MeanSqDisplacementNonnegative(r, k);
    }
  }

  /** The script's estimator and the package's compute_msd_notoptimized give
      the same array for the same coordinates. */
  method EstimatorsAgree(r: Series) returns (fromScript: seq<real>, fromPackage: seq<real>)
    requires r.Vector? || Length(r) == 0
    ensures fromScript == fromPackage
  {
    fromScript := ComputeMsd(r);
    fromPackage := Msd.ComputeMsdNotOptimized(r);
  }

  /** The trajectory (0,0,0), (1,0,0), (2,0,0), (3,0,0): uniform motion at
      unit speed along the first axis. */
  function UnitVelocityCoordinates(): (r: Series)
    ensures r.Vector? && r.dim == 3 && Length(r) == 4
    ensures forall i, d :: 0 <= i < Length(r) && 0 <= d < 3 ==> r.rows[i][d] == (i as real) * [1.0, 0.0, 0.0][d]
  {
    Vector(3, [[0.0, 0.0, 0.0], [1.0, 0.0, 0.0], [2.0, 0.0, 0.0], [3.0, 0.0, 0.0]])
  }

  lemma {:induction false} UnitSpeed()
    ensures SumOfSquares([1.0, 0.0, 0.0]) == 1.0
  {
    var v := [1.0, 0.0, 0.0];
    var sq := seq(|v|, d requires 0 <= d < |v| => v[d] * v[d]);
    assert sq == [1.0, 0.0, 0.0];
    assert sq[..2] == [1.0, 0.0] && sq[..2][..1] == [1.0] && [1.0][..0] == [];
    assert Sum([1.0]) == 1.0;
    assert Sum([1.0, 0.0]) == 1.0;
  }

  /** At unit speed the mean square displacement at lag k is k^2. */
  lemma {:induction false} UnitVelocityMsd(k: nat)
    requires k < 4
    ensures Msd.MeanSqDisplacement(UnitVelocityCoordinates(), k) == (k * k) as real
  {
    UnitSpeed();
    Msd.UniformMotion(UnitVelocityCoordinates(), [1.0, 0.0, 0.0], k);
  }

  /** The unit-velocity trajectory has mean square displacement 0, 1, 4, 9. */
  method UnitVelocityTrajectory() returns (msd: seq<real>)
    ensures msd == [0.0, 1.0, 4.0, 9.0]
  {
    msd := ComputeMsd(UnitVelocityCoordinates());
    UnitVelocityMsd(0);
    UnitVelocityMsd(1);
    UnitVelocityMsd(2);
    UnitVelocityMsd(3);
  }
}
