/** Sizing of the FFT buffer: round_up_to_power_of_two. */
module PowerOfTwo {

  predicate IsPowerOfTwo(p: int)
    decreases if p < 0 then 0 else p
  {
    p == 1 || (p >= 2 && p % 2 == 0 && IsPowerOfTwo(p / 2))
  }

  /** Two powers of two that differ differ at least by a factor of two. */
  lemma {:induction false} PowersOfTwoSpaced(q: int, p: int)
    requires IsPowerOfTwo(q) && IsPowerOfTwo(p) && q < p
    ensures q <= p / 2
    decreases p
  {
    if q != 1 {
      PowersOfTwoSpaced(q / 2, p / 2);
    }
  }

  /** The least power of two that is at least n, by halving n (rounded up):
      a reference definition independent of the doubling loop. */
  function NextPowerOfTwo(n: int): (p: int)
    ensures IsPowerOfTwo(p) && 1 <= p && n <= p
    ensures p == 1 || p / 2 < n
    decreases if n < 0 then 0 else n
  {
    if n <= 1 then 1 else 2 * NextPowerOfTwo((n + 1) / 2)
  }

  /** NextPowerOfTwo(n) is below every power of two that is at least n. */
  lemma NextPowerOfTwoIsLeast(n: int, q: int)
    requires IsPowerOfTwo(q) && n <= q
    ensures NextPowerOfTwo(n) <= q
  {
    var p := NextPowerOfTwo(n);
    if q < p {
      PowersOfTwoSpaced(q, p);
    }
  }

  /** round_up_to_power_of_two: double p, starting from 1, until it reaches n. */
  method RoundUpToPowerOfTwo(n: int) returns (p: int)
    ensures IsPowerOfTwo(p) && 1 <= p && n <= p
    ensures p == 1 || p / 2 < n
    ensures forall q :: IsPowerOfTwo(q) && n <= q ==> p <= q
    ensures p == NextPowerOfTwo(n)
  {
    p := 1;
    while p < n
      invariant IsPowerOfTwo(p) && 1 <= p
      invariant p == 1 || p / 2 < n
      decreases n - p
    {
      p := p + p;
    }
    forall q | IsPowerOfTwo(q) && n <= q
      ensures p <= q
    {
      if q < p {
        PowersOfTwoSpaced(q, p);
      }
    }
    NextPowerOfTwoIsLeast(n, p);
    var least := NextPowerOfTwo(n);
    assert p <= least;
  }
}
