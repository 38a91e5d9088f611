/** window(series, window_function): the windowed signal followed by its
    mirror image without the two end points, i.e. one period of the even
    periodic extension of series * window_function. */
module Window {
  import opened Sums

  /** series * window_function, sample by sample. */
  function Windowed(series: seq<real>, windowFunction: seq<real>): (res: seq<real>)
    requires |windowFunction| == |series|
    ensures |res| == |series|
    ensures forall i :: 0 <= i < |res| ==> res[i] == series[i] * windowFunction[i]
  {
    seq(|series|, i requires 0 <= i < |series| => series[i] * windowFunction[i])
  }

  /** The slice res[-2:0:-1]: from the second last sample back to the
      second.  On a single sample the slice is empty. */
  function InnerReversed(res: seq<real>): (tail: seq<real>)
    requires 1 <= |res|
    ensures |tail| == if |res| < 2 then 0 else |res| - 2
    ensures forall j :: 0 <= j < |tail| ==> tail[j] == res[|res| - 2 - j]
  {
    if |res| < 2 then [] else Reversed(res[1..|res| - 1])
  }

  /** Allocates a zero array of length 2m - 2, copies the windowed signal into
      its first m entries and the inner samples in reverse into the rest.
      With one sample the array is empty: the slice [:1] of it is empty too,
      and numpy broadcasts the single windowed sample onto it, so nothing is
      written.  With no samples the allocation of length -2 fails. */
  method Window(series: seq<real>, windowFunction: seq<real>) returns (smoothed: seq<real>)
    requires 1 <= |series| && |windowFunction| == |series|
    ensures |smoothed| == 2 * |series| - 2
    ensures forall i :: 0 <= i < |series| <= |smoothed| ==> smoothed[i] == series[i] * windowFunction[i]
    ensures forall i :: |series| <= i < |smoothed| ==>
              smoothed[i] == series[|smoothed| - i] * windowFunction[|smoothed| - i]
    ensures forall i :: 0 < i < |smoothed| ==> smoothed[i] == smoothed[|smoothed| - i]
  {
    var m := |series|;
    var signal := new real[2 * m - 2](_ => 0.0);
    var res := Windowed(series, windowFunction);
    var head := if m <= 2 * m - 2 then m else 2 * m - 2;
    for i := 0 to head
      invariant forall k :: 0 <= k < i ==> signal[k] == res[k]
    {
      signal[i] := res[i];
    }
    var tail := InnerReversed(res);
    for j := 0 to |tail|
      invariant forall k :: 0 <= k < head ==> signal[k] == res[k]
      invariant forall k :: m <= k < m + j ==> signal[k] == res[2 * m - 2 - k]
    {
      signal[m + j] := tail[j];
    }
    smoothed := signal[..];
    MirrorIsEven(smoothed, res);
  }

  /** A signal whose first m entries are res and whose remaining entries are
      res read back from index m - 2 is even: entry i equals entry 2m - 2 - i. */
  lemma {:induction false} MirrorIsEven(smoothed: seq<real>, res: seq<real>)
    requires 1 <= |res| && |smoothed| == 2 * |res| - 2
    requires forall i :: 0 <= i < |res| <= |smoothed| ==> smoothed[i] == res[i]
    requires forall i :: |res| <= i < |smoothed| ==> smoothed[i] == res[|smoothed| - i]
    ensures forall i :: 0 < i < |smoothed| ==> smoothed[i] == smoothed[|smoothed| - i]
  {
    forall i | 0 < i < |smoothed|
      ensures smoothed[i] == smoothed[|smoothed| - i]
    {
      if i >= |res| {
        assert smoothed[|smoothed| - i] == res[|smoothed| - i];
      } else if |smoothed| - i >= |res| {
        assert smoothed[|smoothed| - i] == res[i];
      }
    }
  }
}
