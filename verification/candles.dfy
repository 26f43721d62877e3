/** Candles and the small aggregate functions over them. */
module Candles {
  import opened Common

  datatype Candle = Candle(timestamp: int, open: real, high: real, low: real, close: real, volume: real)

  function Sum(xs: seq<real>): real {
    if xs == [] then 0.0 else Sum(xs[..|xs| - 1]) + xs[|xs| - 1]
  }

  /** The last `n` rows; like the language's negative slice, all rows when `n` is zero. */
  function LastRows<T>(xs: seq<T>, n: nat): (r: seq<T>)
    ensures |r| == if n == 0 then |xs| else MinI(n, |xs|)
    ensures r == xs[|xs| - |r|..]
  {
    if n == 0 || n >= |xs| then xs else xs[|xs| - n..]
  }

  lemma OneTermMore(x: real, n: nat)
    ensures x * ((n + 1) as real) == x * n as real + x
  {
    assert (n + 1) as real == n as real + 1.0;
  }

  /** A sum lies between its length times any lower and any upper bound of its terms. */
  lemma {:induction false} SumBounds(xs: seq<real>, lo: real, hi: real)
    requires forall i | 0 <= i < |xs| :: lo <= xs[i] <= hi
    ensures lo * (|xs| as real) <= Sum(xs) <= hi * (|xs| as real)
  {
    if xs != [] {
      var n := |xs| - 1;
      assert |xs[..n]| == n;
      SumBounds(xs[..n], lo, hi);
      OneTermMore(lo, n);
      OneTermMore(hi, n);
      assert Sum(xs) == Sum(xs[..n]) + xs[n] && |xs| == n + 1;
    }
  }

  function Mean(xs: seq<real>): real {
    if xs == [] then 0.0 else Sum(xs) / |xs| as real
  }

  /** A mean lies in the hull of its terms. */
  lemma MeanInHull(xs: seq<real>, lo: real, hi: real)
    requires xs != [] && forall i | 0 <= i < |xs| :: lo <= xs[i] <= hi
    ensures lo <= Mean(xs) <= hi
  {
    SumBounds(xs, lo, hi);
    Quotient(Sum(xs), |xs| as real, lo, hi);
  }

  lemma Quotient(s: real, n: real, lo: real, hi: real)
    requires n > 0.0 && lo * n <= s <= hi * n
    ensures lo <= s / n <= hi
  {
    var q := s / n;
    assert q * n == s;
    assert (q - lo) * n >= 0.0 && (hi - q) * n >= 0.0;
  }
}
