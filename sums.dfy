/** Finite sums over sequences of reals, and the whole-array reductions the
    numeric code builds on (numpy's add.reduce, add.accumulate and the
    reversing slice [::-1]).  Real arithmetic is exact, so sums can be
    regrouped freely. */
module Sums {

  /** The sum of a sequence, accumulated from the front. */
  function Sum(s: seq<real>): real
  {
    if |s| == 0 then 0.0 else Sum(s[..|s| - 1]) + s[|s| - 1]
  }

  lemma {:induction false} SumConcat(a: seq<real>, b: seq<real>)
    ensures Sum(a + b) == Sum(a) + Sum(b)
  {
    if |b| == 0 {
      assert a + b == a;
    } else {
      assert (a + b)[..|a + b| - 1] == a + b[..|b| - 1];
      SumConcat(a, b[..|b| - 1]);
    }
  }

  /** Splitting a sequence at any point splits its sum. */
  lemma SumSplit(s: seq<real>, k: nat)
    requires k <= |s|
    ensures Sum(s) == Sum(s[..k]) + Sum(s[k..])
  {
    assert s == s[..k] + s[k..];
    SumConcat(s[..k], s[k..]);
  }

  lemma {:induction false} SumOfZeros(s: seq<real>)
    requires forall i :: 0 <= i < |s| ==> s[i] == 0.0
    ensures Sum(s) == 0.0
  {
    if |s| > 0 {
      SumOfZeros(s[..|s| - 1]);
    }
  }

  lemma {:induction false} SumOfConstant(s: seq<real>, c: real)
    requires forall i :: 0 <= i < |s| ==> s[i] == c
    ensures Sum(s) == (|s| as real) * c
  {
    if |s| > 0 {
      SumOfConstant(s[..|s| - 1], c);
    }
  }

  lemma {:induction false} SumNonnegative(s: seq<real>)
    requires forall i :: 0 <= i < |s| ==> s[i] >= 0.0
    ensures Sum(s) >= 0.0
  {
    if |s| > 0 {
      SumNonnegative(s[..|s| - 1]);
    }
  }

  /** Sums are additive: adding two sequences entry by entry adds their sums. */
  lemma {:induction false} SumAdd(a: seq<real>, b: seq<real>, x: seq<real>)
    requires |a| == |b| == |x|
    requires forall i :: 0 <= i < |x| ==> x[i] == a[i] + b[i]
    ensures Sum(x) == Sum(a) + Sum(b)
  {
    if |x| > 0 {
      var m := |x| - 1;
      SumAdd(a[..m], b[..m], x[..m]);
    }
  }

  /** Sums are homogeneous: scaling every entry scales the sum. */
  lemma {:induction false} SumScale(a: seq<real>, c: real, x: seq<real>)
    requires |a| == |x|
    requires forall i :: 0 <= i < |x| ==> x[i] == c * a[i]
    ensures Sum(x) == c * Sum(a)
  {
    if |x| > 0 {
      var m := |x| - 1;
      SumScale(a[..m], c, x[..m]);
    }
  }

  /** Entry-by-entry sum of two sequences of the same length. */
  function Plus(a: seq<real>, b: seq<real>): (x: seq<real>)
    requires |a| == |b|
    ensures |x| == |a| && forall i :: 0 <= i < |x| ==> x[i] == a[i] + b[i]
  {
    seq(|a|, i requires 0 <= i < |a| => a[i] + b[i])
  }

  /** Every entry of a multiplied by c. */
  function Scaled(c: real, a: seq<real>): (x: seq<real>)
    ensures |x| == |a| && forall i :: 0 <= i < |x| ==> x[i] == c * a[i]
  {
    seq(|a|, i requires 0 <= i < |a| => c * a[i])
  }

  lemma SumPlus(a: seq<real>, b: seq<real>)
    requires |a| == |b|
    ensures Sum(Plus(a, b)) == Sum(a) + Sum(b)
  {
    SumAdd(a, b, Plus(a, b));
  }

  lemma SumScaled(c: real, a: seq<real>)
    ensures Sum(Scaled(c, a)) == c * Sum(a)
  {
    SumScale(a, c, Scaled(c, a));
  }

  /** The running totals of `s`, as numpy's add.accumulate computes them:
      each entry is the previous total plus the next sample, so the last one
      is the grand total. */
  function Accumulate(s: seq<real>): (r: seq<real>)
    ensures |r| == |s|
    ensures 0 < |s| ==> r[|s| - 1] == Sum(s)
  {
    if |s| == 0 then []
    else
      var front := Accumulate(s[..|s| - 1]);
      var total := if |front| == 0 then 0.0 else front[|front| - 1];
      front + [total + s[|s| - 1]]
  }

  /** Entry i of the running totals is the sum of the first i + 1 samples. */
  lemma {:induction false} AccumulateEntry(s: seq<real>, i: nat)
    requires i < |s|
    ensures Accumulate(s)[i] == Sum(s[..i + 1])
  {
    if i == |s| - 1 {
      assert s[..i + 1] == s;
    } else {
      AccumulateEntry(s[..|s| - 1], i);
      assert s[..|s| - 1][..i + 1] == s[..i + 1];
    }
  }

  /** The sequence read back to front, as the slice [::-1] gives it. */
  function Reversed(s: seq<real>): (r: seq<real>)
  {
    seq(|s|, i requires 0 <= i < |s| => s[|s| - 1 - i])
  }

  /** The first k running totals of the reversed sequence are the sums of the
      last k samples. */
  lemma {:induction false} ReversedPrefixSum(s: seq<real>, k: nat)
    requires k <= |s|
    ensures Sum(Reversed(s)[..k]) == Sum(s[|s| - k..])
  {
    if k > 0 {
      var r := Reversed(s);
      ReversedPrefixSum(s, k - 1);
      assert r[..k][..k - 1] == r[..k - 1];
      assert s[|s| - k..] == [s[|s| - k]] + s[|s| - k + 1..];
      SumConcat([s[|s| - k]], s[|s| - k + 1..]);
      assert Sum([s[|s| - k]]) == s[|s| - k] by {
        assert [s[|s| - k]][..0] == [];
      }
    }
  }

  /** The entries of a matrix added up column by column equal the entries
      added up row by row (every row has `width` entries). */
  function ColumnSums(m: seq<seq<real>>, width: nat): seq<real>
    requires forall i :: 0 <= i < |m| ==> |m[i]| == width
  {
    seq(width, d requires 0 <= d < width => Sum(seq(|m|, i requires 0 <= i < |m| => m[i][d])))
  }

  function RowSums(m: seq<seq<real>>): seq<real>
  {
    seq(|m|, i requires 0 <= i < |m| => Sum(m[i]))
  }

  lemma {:induction false} SumExchange(m: seq<seq<real>>, width: nat)
    requires forall i :: 0 <= i < |m| ==> |m[i]| == width
    ensures Sum(ColumnSums(m, width)) == Sum(RowSums(m))
  {
    if |m| == 0 {
      SumOfZeros(ColumnSums(m, width));
    } else {
      var k := |m| - 1;
      var front := m[..k];
      SumExchange(front, width);
      assert RowSums(m)[..k] == RowSums(front);
      forall d | 0 <= d < width
        ensures ColumnSums(m, width)[d] == ColumnSums(front, width)[d] + m[k][d]
      {
        assert seq(|m|, i requires 0 <= i < |m| => m[i][d])[..k]
            == seq(|front|, i requires 0 <= i < |front| => front[i][d]);
      }
      SumAdd(ColumnSums(front, width), m[k], ColumnSums(m, width));
    }
  }
}
