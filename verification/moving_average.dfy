/**
 * The two simple-moving-average helpers of MarketMonitorv1..v7: the
 * min-period trailing mean that keeps the input length, and the cumulative-sum
 * form that keeps full windows only, plus the NaN padding that re-aligns the
 * latter with its dates.
 */
module MovingAverage {
  import opened Wrappers

  function Sum(s: seq<real>): real
  {
    if |s| == 0 then 0.0 else Sum(s[..|s| - 1]) + s[|s| - 1]
  }

  function Mean(s: seq<real>): real
    requires |s| > 0
  {
    Sum(s) / (|s| as real)
  }

  /** First index of the trailing window of width `w` that ends at `i`. */
  function WindowStart(i: nat, w: nat): nat
  {
    if i + 1 >= w then i + 1 - w else 0
  }

  ghost predicate Within(s: seq<real>, lo: real, hi: real)
  {
    forall k :: 0 <= k < |s| ==> lo <= s[k] <= hi
  }

  /**
   * The min-period form `[mean(data[max(0, i-w+1):i+1]) for i in range(len(data))]`.
   * It keeps the input length, starts at the first value, and stays within
   * any bounds the data stays within.
   */
  function TrailingSma(data: seq<real>, w: nat): (r: seq<real>)
    requires w >= 1
    ensures |r| == |data|
    ensures |data| > 0 ==> r[0] == data[0]
    ensures forall lo, hi :: Within(data, lo, hi) ==> Within(r, lo, hi)
  {
    var r := seq(|data|, i requires 0 <= i < |data| => Mean(data[WindowStart(i, w)..i + 1]));
    if |data| > 0 then
      assert data[WindowStart(0, w)..1] == [data[0]];
      assert Sum([data[0]]) == Sum([]) + data[0];
      TrailingWithin(data, w, r);
      r
    else r
  }

  lemma TrailingWithin(data: seq<real>, w: nat, r: seq<real>)
    requires w >= 1
    requires r == seq(|data|, i requires 0 <= i < |data| => Mean(data[WindowStart(i, w)..i + 1]))
    ensures forall lo, hi :: Within(data, lo, hi) ==> Within(r, lo, hi)
  {
    forall lo, hi | Within(data, lo, hi) ensures Within(r, lo, hi) {
      forall i | 0 <= i < |r| ensures lo <= r[i] <= hi {
        MeanWithin(data[WindowStart(i, w)..i + 1], lo, hi);
      }
    }
  }

  lemma {:induction false} SumWithin(s: seq<real>, lo: real, hi: real)
    requires Within(s, lo, hi)
    ensures (|s| as real) * lo <= Sum(s) <= (|s| as real) * hi
  {
    if |s| > 0 {
      var n := (|s| - 1) as real;
      SumWithin(s[..|s| - 1], lo, hi);
      assert Sum(s) == Sum(s[..|s| - 1]) + s[|s| - 1];
      assert (|s| as real) * lo == n * lo + lo && (|s| as real) * hi == n * hi + hi;
    }
  }

  lemma MeanWithin(s: seq<real>, lo: real, hi: real)
    requires |s| > 0 && Within(s, lo, hi)
    ensures lo <= Mean(s) <= hi
  {
    SumWithin(s, lo, hi);
    var n := |s| as real;
    var m := Mean(s);
    assert m * n == Sum(s);
    assert (m - lo) * n >= 0.0 && (hi - m) * n >= 0.0;
    PositiveFactor(m - lo, n);
    PositiveFactor(hi - m, n);
  }

  /** A product with a positive factor that is not negative has a non-negative other factor. */
  lemma PositiveFactor(x: real, n: real)
    requires n > 0.0 && x * n >= 0.0
    ensures x >= 0.0
  {
  }

  lemma {:induction false} SumAppend(a: seq<real>, b: seq<real>)
    ensures Sum(a + b) == Sum(a) + Sum(b)
    decreases |b|
  {
    if |b| > 0 {
      assert (a + b)[..|a + b| - 1] == a + b[..|b| - 1];
      SumAppend(a, b[..|b| - 1]);
    } else {
      assert a + b == a;
    }
  }

  /** The running totals `np.cumsum(data)`: entry j is the sum of data[0..j]. */
  function CumSum(data: seq<real>): (c: seq<real>)
    ensures |c| == |data|
  {
    seq(|data|, j requires 0 <= j < |data| => Sum(data[..j + 1]))
  }

  /** A difference of running totals is the sum of the window between them. */
  lemma WindowFromTotals(data: seq<real>, k: nat, j: nat)
    requires k <= j < |data|
    ensures Sum(data[..j + 1]) - Sum(data[..k]) == Sum(data[k..j + 1])
  {
    assert data[..j + 1] == data[..k] + data[k..j + 1];
    SumAppend(data[..k], data[k..j + 1]);
  }

  /**
   * The cumulative-sum form of MarketMonitorv7: `ret = cumsum(data);
   * ret[w:] -= ret[:-w]; ret[w-1:] / w`.  Fewer than `w` values give nothing;
   * otherwise there are n - w + 1 values and value k is the mean of the full
   * window data[k..k+w-1].
   */
  function FullWindowSma(data: seq<real>, w: nat): (r: seq<real>)
    requires w >= 1
    ensures |data| < w ==> r == []
    ensures |data| >= w ==> |r| == |data| - w + 1
    ensures forall k :: 0 <= k < |r| ==> r[k] == Mean(data[k..k + w])
  {
    if |data| < w then []
    else
      var c := CumSum(data);
      var r := seq(|data| - w + 1, k requires 0 <= k < |data| - w + 1 =>
        (c[k + w - 1] - (if k >= 1 then c[k - 1] else 0.0)) / (w as real));
      FullWindowMeans(data, w, c, r);
      r
  }

  lemma FullWindowMeans(data: seq<real>, w: nat, c: seq<real>, r: seq<real>)
    requires w >= 1 && |data| >= w && c == CumSum(data)
    requires r == seq(|data| - w + 1, k requires 0 <= k < |data| - w + 1 =>
        (c[k + w - 1] - (if k >= 1 then c[k - 1] else 0.0)) / (w as real))
    ensures forall k :: 0 <= k < |r| ==> r[k] == Mean(data[k..k + w])
  {
    forall k | 0 <= k < |r| ensures r[k] == Mean(data[k..k + w]) {
      WindowFromTotals(data, k, k + w - 1);
      if k >= 1 {
        assert c[k - 1] == Sum(data[..k]);
      } else {
        assert data[..0] == [];
      }
    }
  }

  /**
   * `get_padded_sma`: w - 1 NaNs, then the full-window means.  On input of at
   * least `w` values it is aligned with the input: an entry is missing exactly
   * for the first w - 1 positions and otherwise equals the min-period trailing
   * mean at the same position.
   */
  function PaddedSma(data: seq<real>, w: nat): (r: seq<Option<real>>)
    requires w >= 1
    ensures |data| >= w ==> |r| == |data|
    ensures |data| < w ==> |r| == w - 1
    ensures forall i :: 0 <= i < |r| ==> (r[i] == None <==> i < w - 1)
    ensures |data| >= w ==> forall i :: w - 1 <= i < |r| ==> r[i] == Some(TrailingSma(data, w)[i])
  {
    var sma := FullWindowSma(data, w);
    var r := seq(w - 1, _ => None) + seq(|sma|, k requires 0 <= k < |sma| => Some(sma[k]));
    if |data| >= w then
      assert forall i :: w - 1 <= i < |r| ==> WindowStart(i, w) == i - (w - 1);
      r
    else r
  }

  /** The SMA window of MarketMonitorv5..v7: 20 for periods under 1000 days, else 10. */
  function SmaWindow(daysCount: int): (w: nat)
    ensures w >= 1
    ensures daysCount < 1000 <==> w == 20
    ensures daysCount >= 1000 <==> w == 10
  {
    if daysCount < 1000 then 20 else 10
  }

  /** A constant series is its own moving average. */
  lemma ConstantSeries(data: seq<real>, w: nat, c: real)
    requires w >= 1
    requires forall k :: 0 <= k < |data| ==> data[k] == c
    ensures forall i :: 0 <= i < |data| ==> TrailingSma(data, w)[i] == c
  {
    assert Within(data, c, c);
  }
}
