/** Values shared by the analysis script, the models and the serializers:
    an optional value, sums and means of scores, and rounding to two decimals. */
module Common {

  datatype Option<+T> = None | Some(value: T)

  /** Sum of integer scores (Python's `sum` over ints). */
  function Sum(xs: seq<int>): int
  {
    if xs == [] then 0 else Sum(xs[..|xs| - 1]) + xs[|xs| - 1]
  }

  /** Sum of exact reals (pandas' column sum, calculated exactly). */
  function SumReal(xs: seq<real>): real
  {
    if xs == [] then 0.0 else SumReal(xs[..|xs| - 1]) + xs[|xs| - 1]
  }

  /** Exact arithmetic mean of integer scores: `sum(xs) / len(xs)`. */
  function MeanInt(xs: seq<int>): real
    requires |xs| > 0
  {
    Sum(xs) as real / |xs| as real
  }

  /** Exact arithmetic mean of reals (pandas' `Series.mean`). */
  function MeanReal(xs: seq<real>): real
    requires |xs| > 0
  {
    SumReal(xs) / |xs| as real
  }

  /** Python's `round(x, 2)` on an exact value: the nearest multiple of 1/100,
      a tie going to the even multiple. */
  function Round2(x: real): (r: real)
    ensures x - 0.005 <= r <= x + 0.005
    ensures (r * 100.0).Floor as real == r * 100.0
  {
    var k := Hundredths(x);
    assert (k as real / 100.0) * 100.0 == k as real;
    k as real / 100.0
  }

  /** The whole number of hundredths `Round2` rounds `x` to: `100 * x` rounded
      to the nearest integer, a tie going to the even one. */
  function Hundredths(x: real): (k: int)
    ensures x * 100.0 - 0.5 <= k as real <= x * 100.0 + 0.5
  {
    var scaled := x * 100.0;
    var n := scaled.Floor;
    var frac := scaled - n as real;
    if frac > 0.5 then n + 1
    else if frac < 0.5 then n
    else if n % 2 == 0 then n else n + 1
  }

  /** Rounding never reverses the order of two values. */
  lemma {:induction false} Round2Monotone(x: real, y: real)
    requires x <= y
    ensures Round2(x) <= Round2(y)
  {
    var nx, ny := (x * 100.0).Floor, (y * 100.0).Floor;
    assert x * 100.0 <= y * 100.0;
    assert nx <= ny;
    assert Hundredths(x) <= Hundredths(y) by {
      if nx == ny {
        assert x * 100.0 - nx as real <= y * 100.0 - ny as real;
      } else {
        assert Hundredths(x) <= nx + 1 <= ny <= Hundredths(y);
      }
    }
  }

  /** A value that already has at most two decimals is left as it is. */
  lemma Round2OfHundredths(k: int)
    ensures Round2(k as real / 100.0) == k as real / 100.0
  {
    var x := k as real / 100.0;
    assert x * 100.0 == k as real;
    assert (x * 100.0).Floor == k;
  }

  /** A whole number is left as it is. */
  lemma Round2OfInt(n: int)
    ensures Round2(n as real) == n as real
  {
    Round2OfHundredths(n * 100);
    assert (n * 100) as real / 100.0 == n as real;
  }

  /** Rounding keeps a value inside any interval whose bounds are whole numbers. */
  lemma Round2Within(x: real, lo: int, hi: int)
    requires lo as real <= x <= hi as real
    ensures lo as real <= Round2(x) <= hi as real
  {
    Round2Monotone(lo as real, x);
    Round2Monotone(x, hi as real);
    Round2OfHundredths(lo * 100);
    Round2OfHundredths(hi * 100);
    assert (lo * 100) as real / 100.0 == lo as real;
    assert (hi * 100) as real / 100.0 == hi as real;
  }

  /** Scores bounded by `lo` and `hi` have a sum bounded by `lo * n` and `hi * n`. */
  lemma {:induction false} SumBounds(xs: seq<int>, lo: int, hi: int)
    requires forall i :: 0 <= i < |xs| ==> lo <= xs[i] <= hi
    ensures lo * |xs| <= Sum(xs) <= hi * |xs|
  {
    if xs != [] {
      SumBounds(xs[..|xs| - 1], lo, hi);
    }
  }

  /** Bounded values have a sum bounded by `lo * n` and `hi * n`. */
  lemma {:induction false} SumRealBounds(xs: seq<real>, lo: real, hi: real)
    requires forall i :: 0 <= i < |xs| ==> lo <= xs[i] <= hi
    ensures lo * |xs| as real <= SumReal(xs) <= hi * |xs| as real
  {
    if xs != [] {
      SumRealBounds(xs[..|xs| - 1], lo, hi);
    }
  }

  /** The mean of bounded values lies between the bounds. */
  lemma MeanRealBounds(xs: seq<real>, lo: real, hi: real)
    requires |xs| > 0
    requires forall i :: 0 <= i < |xs| ==> lo <= xs[i] <= hi
    ensures lo <= MeanReal(xs) <= hi
  {
    SumRealBounds(xs, lo, hi);
    var n := |xs| as real;
    var q := SumReal(xs) / n;
    assert q * n == SumReal(xs);
  }

  /** The mean of bounded scores lies between the bounds. */
  lemma MeanIntBounds(xs: seq<int>, lo: int, hi: int)
    requires |xs| > 0
    requires forall i :: 0 <= i < |xs| ==> lo <= xs[i] <= hi
    ensures lo as real <= MeanInt(xs) <= hi as real
  {
    SumBounds(xs, lo, hi);
    QuotientBounds(Sum(xs), |xs|, lo, hi);
  }

  lemma QuotientBounds(s: int, n: int, lo: int, hi: int)
    requires n > 0
    requires lo * n <= s <= hi * n
    ensures lo as real <= s as real / n as real <= hi as real
  {
    var q := s as real / n as real;
    assert q * n as real == s as real;
  }

  /** `k` copies of the same score sum to `k * s`. */
  lemma {:induction false} SumConstant(xs: seq<int>, s: int)
    requires forall i :: 0 <= i < |xs| ==> xs[i] == s
    ensures Sum(xs) == s * |xs|
  {
    if xs != [] {
      SumConstant(xs[..|xs| - 1], s);
    }
  }

  /** The mean of `k` copies of the same score is that score. */
  lemma MeanIntConstant(xs: seq<int>, s: int)
    requires |xs| > 0
    requires forall i :: 0 <= i < |xs| ==> xs[i] == s
    ensures MeanInt(xs) == s as real
  {
    SumConstant(xs, s);
    assert (s * |xs|) as real == s as real * |xs| as real;
  }

  /** The smallest element of a non-empty sequence. */
  function MinOf(xs: seq<int>): (m: int)
    requires |xs| > 0
    ensures m in xs
    ensures forall i :: 0 <= i < |xs| ==> m <= xs[i]
  {
    if |xs| == 1 then xs[0]
    else
      var m := MinOf(xs[..|xs| - 1]);
      if xs[|xs| - 1] < m then xs[|xs| - 1] else m
  }

  /** The largest element of a non-empty sequence. */
  function MaxOf(xs: seq<int>): (m: int)
    requires |xs| > 0
    ensures m in xs
    ensures forall i :: 0 <= i < |xs| ==> xs[i] <= m
  {
    if |xs| == 1 then xs[0]
    else
      var m := MaxOf(xs[..|xs| - 1]);
      if xs[|xs| - 1] > m then xs[|xs| - 1] else m
  }
}
