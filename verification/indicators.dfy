/**
 * `calculate_indicators` of the sector dashboards.  The rolling means come
 * from `MovingAverage.TrailingSma` (pandas' `min_periods=1`, so every bar has
 * a value); the 14-bar average gain and loss of the RSI are inputs.  What is
 * modelled is the decision logic: when an RSI value is replaced by 50, and
 * when the benchmark-relative columns fall back to zero.
 */
module Indicators {
  import opened Wrappers
  import MovingAverage

  const RsiNeutral: real := 50.0

  /**
   * `100 - 100 / (1 + gain / loss)` with a zero loss replaced by NaN, and
   * NaN replaced by 50: undefined averages and a zero average loss both give 50.
   */
  function Rsi(gain: Option<real>, loss: Option<real>): (r: real)
    requires NonNegative(gain) && NonNegative(loss)
    ensures gain.None? || loss.None? || loss == Some(0.0) ==> r == RsiNeutral
    ensures 0.0 <= r <= 100.0
    ensures gain.Some? && loss.Some? && loss.value > 0.0 ==>
      ((r == RsiNeutral <==> gain.value == loss.value) && (r > RsiNeutral <==> gain.value > loss.value))
  {
    if gain.None? || loss.None? || loss.value == 0.0 then RsiNeutral
    else
      var rs := gain.value / loss.value;
      RsiFacts(gain.value, loss.value);
      100.0 - 100.0 / (1.0 + rs)
  }

  /** The averages of clipped gains and losses are never negative. */
  predicate NonNegative(x: Option<real>)
  {
    x.Some? ==> x.value >= 0.0
  }

  lemma RsiFacts(g: real, l: real)
    requires g >= 0.0 && l > 0.0
    ensures 0.0 <= 100.0 - 100.0 / (1.0 + g / l) <= 100.0
    ensures 100.0 - 100.0 / (1.0 + g / l) == 50.0 <==> g == l
    ensures 100.0 - 100.0 / (1.0 + g / l) > 50.0 <==> g > l
  {
    var rs := g / l;
    assert g == rs * l;
    assert rs >= 0.0;
    assert 1.0 + rs >= 1.0;
    assert 0.0 < 100.0 / (1.0 + rs) <= 100.0;
    assert rs == 1.0 <==> g == l;
    assert rs > 1.0 <==> g > l;
    assert 100.0 / (1.0 + rs) == 50.0 <==> 1.0 + rs == 2.0;
    assert 100.0 / (1.0 + rs) < 50.0 <==> 1.0 + rs > 2.0;
  }

  /** The RSI column: one value per bar, never missing. */
  function RsiColumn(gains: seq<Option<real>>, losses: seq<Option<real>>): (r: seq<real>)
    requires |gains| == |losses|
    requires forall i :: 0 <= i < |gains| ==> NonNegative(gains[i]) && NonNegative(losses[i])
    ensures |r| == |gains|
    ensures forall i :: 0 <= i < |r| ==> r[i] == Rsi(gains[i], losses[i])
  {
    seq(|gains|, i requires 0 <= i < |gains| => Rsi(gains[i], losses[i]))
  }

  /** `x / base - 1`, missing when either side is, or when the base is zero. */
  function Change(x: Option<real>, base: Option<real>): (r: Option<real>)
    ensures r.Some? <==> x.Some? && base.Some? && base.value != 0.0
    ensures r.Some? ==> (r.value == 0.0 <==> x.value == base.value)
  {
    if x.Some? && base.Some? && base.value != 0.0 then Some(x.value / base.value - 1.0) else None
  }

  /** `pct_change(k) * 100`: nothing for the first `k` bars. */
  function PctChange(x: seq<Option<real>>, k: nat): (r: seq<Option<real>>)
    requires k >= 1
    ensures |r| == |x|
    ensures forall i :: 0 <= i < |r| && i < k ==> r[i] == None
    ensures forall i :: k <= i < |r| ==> r[i] == Times100(Change(x[i], x[i - k]))
  {
    seq(|x|, i requires 0 <= i < |x| => if i < k then None else Times100(Change(x[i], x[i - k])))
  }

  function Times100(x: Option<real>): Option<real>
  {
    if x.Some? then Some(x.value * 100.0) else None
  }

  function Minus(a: Option<real>, b: Option<real>): Option<real>
  {
    if a.Some? && b.Some? then Some(a.value - b.value) else None
  }

  function Ratio(a: Option<real>, b: Option<real>): Option<real>
  {
    if a.Some? && b.Some? && b.value != 0.0 then Some(a.value / b.value) else None
  }

  function FillZero(x: Option<real>): real
  {
    if x.Some? then x.value else 0.0
  }

  function Present(xs: seq<real>): (r: seq<Option<real>>)
    ensures |r| == |xs| && forall i :: 0 <= i < |r| ==> r[i] == Some(xs[i])
  {
    seq(|xs|, i requires 0 <= i < |xs| => Some(xs[i]))
  }

  /**
   * The benchmark as `calculate_indicators` receives it: missing (`None`),
   * an empty frame, or its closes reindexed onto the sector's bars and
   * forward-filled (the reindexing is not modelled; its result is the input).
   */
  datatype Benchmark = NoBenchmark | EmptyBenchmark | Aligned(closes: seq<Option<real>>)

  /** `aligned.notna().any()` behind the `not spy_df.empty` test. */
  predicate Usable(b: Benchmark)
  {
    b.Aligned? && exists i :: 0 <= i < |b.closes| && b.closes[i].Some?
  }

  /** The benchmark-relative columns: daily Alpha and the `period`-bar relative performance. */
  datatype Relative = Relative(alpha: seq<Option<real>>, relPerf: seq<Option<real>>)

  predicate AllZero(xs: seq<Option<real>>)
  {
    forall i :: 0 <= i < |xs| ==> xs[i] == Some(0.0)
  }

  /** Daily Alpha: the sector's percent return minus the benchmark's. */
  function AlphaColumn(closes: seq<real>, spy: seq<Option<real>>, fillAlpha: bool): (a: seq<Option<real>>)
    requires |spy| == |closes|
    ensures |a| == |closes|
    ensures forall i :: 0 <= i < |a| ==> a[i] == (if fillAlpha then Some(FillZero(Minus(PctChange(Present(closes), 1)[i], PctChange(spy, 1)[i]))) else Minus(PctChange(Present(closes), 1)[i], PctChange(spy, 1)[i]))
  {
    var ret := PctChange(Present(closes), 1);
    var spyRet := PctChange(spy, 1);
    seq(|closes|, i requires 0 <= i < |closes| =>
      var a := Minus(ret[i], spyRet[i]);
      if fillAlpha then Some(FillZero(a)) else a)
  }

  /** `Close / aligned`, the relative line. */
  function RelLine(closes: seq<real>, spy: seq<Option<real>>): (l: seq<Option<real>>)
    requires |spy| == |closes|
    ensures |l| == |closes|
    ensures forall i :: 0 <= i < |l| ==> l[i] == Ratio(Some(closes[i]), spy[i])
  {
    seq(|closes|, i requires 0 <= i < |closes| => Ratio(Some(closes[i]), spy[i]))
  }

  /** Bar i's Alpha straight from the closes: the sector's percent change from the bar before minus the benchmark's; nothing on the first bar. */
  function DailyAlpha(closes: seq<real>, spy: seq<Option<real>>, i: nat): Option<real>
    requires i < |closes| == |spy|
  {
    if i == 0 then None
    else Minus(Times100(Change(Some(closes[i]), Some(closes[i - 1]))), Times100(Change(spy[i], spy[i - 1])))
  }

  /** Bar i's relative performance straight from the closes: the percent change of close / benchmark over `period` bars. */
  function RelPerfAt(closes: seq<real>, spy: seq<Option<real>>, period: nat, i: nat): Option<real>
    requires i < |closes| == |spy| && period <= i
  {
    Times100(Change(Ratio(Some(closes[i]), spy[i]), Ratio(Some(closes[i - period]), spy[i - period])))
  }

  /**
   * The relative block of SectorIndexv2 to v12: computed only against a usable
   * benchmark, with Alpha's gaps filled with 0 where `fillAlpha` (SectorIndexv12);
   * otherwise both columns are 0 on every bar.
   */
  function RelativeMetrics(closes: seq<real>, b: Benchmark, period: nat, fillAlpha: bool): (r: Relative)
    requires period >= 1
    requires b.Aligned? ==> |b.closes| == |closes|
    ensures |r.alpha| == |closes| && |r.relPerf| == |closes|
    ensures !Usable(b) ==> AllZero(r.alpha) && AllZero(r.relPerf)
    ensures Usable(b) ==> forall i :: 0 <= i < |closes| && i < period ==> r.relPerf[i] == None
    ensures Usable(b) && fillAlpha ==> forall i :: 0 <= i < |closes| ==> r.alpha[i].Some?
    ensures Usable(b) && !fillAlpha ==> forall i :: 0 <= i < |closes| ==> (r.alpha[i].Some? <==> i >= 1 && b.closes[i].Some? && b.closes[i - 1].Some? && b.closes[i - 1].value != 0.0 && closes[i - 1] != 0.0)
    ensures Usable(b) ==> forall i :: period <= i < |closes| ==> r.relPerf[i] == RelPerfAt(closes, b.closes, period, i)
    ensures Usable(b) ==> forall i :: 0 <= i < |closes| ==>
      r.alpha[i] == (if fillAlpha then Some(FillZero(DailyAlpha(closes, b.closes, i))) else DailyAlpha(closes, b.closes, i))
  {
    if !Usable(b) then Relative(seq(|closes|, _ => Some(0.0)), seq(|closes|, _ => Some(0.0)))
    else
      var alpha, relPerf := AlphaColumn(closes, b.closes, fillAlpha), PctChange(RelLine(closes, b.closes), period);
      AlphaIsDaily(closes, b.closes, fillAlpha);
      RelPerfIsPointwise(closes, b.closes, period);
      Relative(alpha, relPerf)
  }

  /** The Alpha column, built from the two pct_change columns, is each bar's excess return over the benchmark. */
  lemma AlphaIsDaily(closes: seq<real>, spy: seq<Option<real>>, fillAlpha: bool)
    requires |spy| == |closes|
    ensures var a := AlphaColumn(closes, spy, fillAlpha);
      forall i :: 0 <= i < |closes| ==>
        a[i] == (if fillAlpha then Some(FillZero(DailyAlpha(closes, spy, i))) else DailyAlpha(closes, spy, i))
  {
    var ret, spyRet := PctChange(Present(closes), 1), PctChange(spy, 1);
    forall i | 0 <= i < |closes|
      ensures Minus(ret[i], spyRet[i]) == DailyAlpha(closes, spy, i)
    {
      if i > 0 {
        assert Present(closes)[i] == Some(closes[i]) && Present(closes)[i - 1] == Some(closes[i - 1]);
      }
    }
  }

  /** The relative-performance column is, from bar `period` on, the pointwise change of the relative line. */
  lemma RelPerfIsPointwise(closes: seq<real>, spy: seq<Option<real>>, period: nat)
    requires |spy| == |closes| && period >= 1
    ensures var p := PctChange(RelLine(closes, spy), period);
      forall i :: period <= i < |closes| ==> p[i] == RelPerfAt(closes, spy, period, i)
  {
  }

  /** SectorIndexv1 tests only that a benchmark was passed, so an all-missing one gives missing values, not zeros. */
  function RelativeMetricsV1(closes: seq<real>, spy: Option<seq<Option<real>>>): (r: Relative)
    requires spy.Some? ==> |spy.value| == |closes|
    ensures |r.alpha| == |closes| && |r.relPerf| == |closes|
    ensures spy.None? ==> AllZero(r.alpha) && AllZero(r.relPerf)
    ensures spy.Some? && Usable(Aligned(spy.value)) ==> r == RelativeMetrics(closes, Aligned(spy.value), RelPeriodShort, false)
    ensures spy.Some? && !Usable(Aligned(spy.value)) ==> forall i :: 0 <= i < |r.alpha| ==> r.alpha[i] == None && r.relPerf[i] == None
  {
    if spy.None? then Relative(seq(|closes|, _ => Some(0.0)), seq(|closes|, _ => Some(0.0)))
    else Relative(AlphaColumn(closes, spy.value, false), PctChange(RelLine(closes, spy.value), RelPeriodShort))
  }

  /** The relative-performance horizons: 63 bars (v12), 150 (v9, v7_pre), 20 (v1 to v6). */
  const RelPeriodV12: nat := 63
  const RelPeriodLong: nat := 150
  const RelPeriodShort: nat := 20

  /** A sector measured against itself has zero Alpha and zero relative performance wherever they are defined. */
  lemma SelfRelativeIsZero(closes: seq<real>, period: nat, fillAlpha: bool)
    requires period >= 1
    requires forall i :: 0 <= i < |closes| ==> closes[i] > 0.0
    ensures var r := RelativeMetrics(closes, Aligned(Present(closes)), period, fillAlpha);
      (forall i :: 0 <= i < |closes| && r.alpha[i].Some? ==> r.alpha[i] == Some(0.0))
      && (forall i :: 0 <= i < |closes| && r.relPerf[i].Some? ==> r.relPerf[i] == Some(0.0))
  {
    var p := Present(closes);
    if |closes| > 0 {
      assert p[0].Some?;
      assert Usable(Aligned(p));
      var line := RelLine(closes, p);
      forall i | 0 <= i < |closes|
        ensures line[i] == Some(1.0)
      {
        assert closes[i] / closes[i] == 1.0;
      }
      ChangeOfConstant(line, period);
    }
  }

  lemma ChangeOfConstant(line: seq<Option<real>>, period: nat)
    requires period >= 1
    requires forall i :: 0 <= i < |line| ==> line[i] == Some(1.0)
    ensures forall i :: 0 <= i < |line| ==> PctChange(line, period)[i] == None || PctChange(line, period)[i] == Some(0.0)
  {
  }

  /** The indicator columns of one sector. */
  datatype Columns = Columns(sma20: seq<real>, sma50: seq<real>, sma200: seq<real>, rsi: seq<real>, rel: Relative)

  /** `calculate_indicators` of SectorIndexv12: every SMA and RSI bar has a value; Alpha is never missing. */
  function CalculateV12(closes: seq<real>, gains: seq<Option<real>>, losses: seq<Option<real>>, b: Benchmark): (c: Columns)
    requires |gains| == |closes| && |losses| == |closes|
    requires forall i :: 0 <= i < |gains| ==> NonNegative(gains[i]) && NonNegative(losses[i])
    requires b.Aligned? ==> |b.closes| == |closes|
    ensures |c.rel.alpha| == |closes| && |c.rel.relPerf| == |closes|
    ensures |c.sma20| == |closes| && |c.sma50| == |closes| && |c.sma200| == |closes| && |c.rsi| == |closes|
    ensures forall i :: 0 <= i < |closes| ==> 0.0 <= c.rsi[i] <= 100.0
    ensures forall i :: 0 <= i < |closes| ==> c.rel.alpha[i].Some?
    ensures !Usable(b) ==> AllZero(c.rel.alpha) && AllZero(c.rel.relPerf)
    ensures c.rel == RelativeMetrics(closes, b, RelPeriodV12, true)
    ensures c.sma20 == MovingAverage.TrailingSma(closes, 20) && c.sma50 == MovingAverage.TrailingSma(closes, 50)
      && c.sma200 == MovingAverage.TrailingSma(closes, 200)
    ensures forall i :: 0 <= i < |closes| ==> c.rsi[i] == Rsi(gains[i], losses[i])
  {
    Columns(MovingAverage.TrailingSma(closes, 20), MovingAverage.TrailingSma(closes, 50),
      MovingAverage.TrailingSma(closes, 200), RsiColumn(gains, losses),
      RelativeMetrics(closes, b, RelPeriodV12, true))
  }
}
