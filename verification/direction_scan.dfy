/**
 * The reversal markers of the sector dashboards.  SectorIndexv9 and v12 scan
 * for bars where the sign of the SMA's daily change differs from the
 * previous bar's and keep those confirmed by a 10% move of the close away
 * from the extreme of the trailing 30 bars.  SectorIndexv7_pre marks every
 * bar whose close deviates from the SMA by more than 1.5%.
 */
module DirectionScan {
  import opened Wrappers

  datatype Signal = Bull | Bear

  datatype Marker = Marker(index: nat, signal: Signal)

  const Lookback: nat := 30
  const ReversalPriceThreshold: real := 10.0   // percent
  const DeviationThreshold: real := 1.5        // percent

  predicate Positive(xs: seq<real>)
  {
    forall i :: 0 <= i < |xs| ==> xs[i] > 0.0
  }

  /** `np.sign` of `diff().fillna(0)`: the first bar has direction 0. */
  function Direction(sma: seq<real>, i: nat): (d: int)
    requires i < |sma|
    ensures -1 <= d <= 1
    ensures d > 0 <==> i > 0 && sma[i] > sma[i - 1]
    ensures d < 0 <==> i > 0 && sma[i] < sma[i - 1]
  {
    if i == 0 then 0
    else if sma[i] > sma[i - 1] then 1
    else if sma[i] < sma[i - 1] then -1
    else 0
  }

  /** `Direction != Direction.shift(1).fillna(0)`, on a bar other than the first. */
  predicate Candidate(sma: seq<real>, i: nat)
    requires i < |sma|
  {
    i > 0 && Direction(sma, i) != Direction(sma, i - 1)
  }

  /** First bar of `df.loc[:idx].tail(30)`. */
  function LookbackStart(i: nat): nat
  {
    if i + 1 >= Lookback then i + 1 - Lookback else 0
  }

  function MinOf(s: seq<real>): (m: real)
    requires |s| > 0
    ensures forall k :: 0 <= k < |s| ==> m <= s[k]
    ensures exists k :: 0 <= k < |s| && m == s[k]
  {
    if |s| == 1 then s[0]
    else
      var t := MinOf(s[1..]);
      assert forall k :: 1 <= k < |s| ==> s[k] == s[1..][k - 1];
      if s[0] <= t then s[0] else t
  }

  function MaxOf(s: seq<real>): (m: real)
    requires |s| > 0
    ensures forall k :: 0 <= k < |s| ==> s[k] <= m
    ensures exists k :: 0 <= k < |s| && m == s[k]
  {
    if |s| == 1 then s[0]
    else
      var t := MaxOf(s[1..]);
      assert forall k :: 1 <= k < |s| ==> s[k] == s[1..][k - 1];
      if s[0] >= t then s[0] else t
  }

  /** The lowest and highest close of the trailing window, the bar itself included. */
  function TrailingLow(closes: seq<real>, i: nat): real
    requires i < |closes|
  {
    MinOf(closes[LookbackStart(i)..i + 1])
  }

  function TrailingHigh(closes: seq<real>, i: nat): real
    requires i < |closes|
  {
    MaxOf(closes[LookbackStart(i)..i + 1])
  }

  /** The marker a bar yields, if any. */
  function MarkerAt(closes: seq<real>, sma: seq<real>, i: nat): (m: Option<Signal>)
    requires |closes| == |sma| && i < |closes| && Positive(closes)
    ensures m.Some? ==> Candidate(sma, i)
    ensures m == Some(Bull) ==> Direction(sma, i) > 0
    ensures m == Some(Bear) ==> Direction(sma, i) < 0
    ensures Direction(sma, i) == 0 ==> m.None?
  {
    if !Candidate(sma, i) then None
    else
      var d := Direction(sma, i);
      var lo := TrailingLow(closes, i);
      var hi := TrailingHigh(closes, i);
      LowHighPositive(closes, i);
      if d > 0 && (closes[i] - lo) / lo * 100.0 >= ReversalPriceThreshold then Some(Bull)
      else if d < 0 && (closes[i] - hi) / hi * 100.0 <= -ReversalPriceThreshold then Some(Bear)
      else None
  }

  lemma LowHighPositive(closes: seq<real>, i: nat)
    requires i < |closes| && Positive(closes)
    ensures TrailingLow(closes, i) > 0.0 && TrailingHigh(closes, i) > 0.0
  {
    var w := closes[LookbackStart(i)..i + 1];
    var lo := MinOf(w);
    var hi := MaxOf(w);
    var k :| 0 <= k < |w| && lo == w[k];
    var j :| 0 <= j < |w| && hi == w[j];
    assert w[k] == closes[LookbackStart(i) + k];
    assert w[j] == closes[LookbackStart(i) + j];
  }

  /** `(c - base) / base * 100 >= 10` for a positive base, stated without division. */
  lemma GainGate(c: real, base: real)
    requires base > 0.0
    ensures (c - base) / base * 100.0 >= ReversalPriceThreshold <==> c >= 1.1 * base
    ensures (c - base) / base * 100.0 <= -ReversalPriceThreshold <==> c <= 0.9 * base
  {
    var x := (c - base) / base;
    assert c - base == x * base;
    assert x * 100.0 >= 10.0 <==> x >= 0.1;
    assert x * 100.0 <= -10.0 <==> x <= -0.1;
    ScaleBy(x, 0.1, base);
    ScaleBy(-0.1, x, base);
  }

  lemma ScaleBy(x: real, y: real, b: real)
    requires b > 0.0
    ensures x >= y <==> x * b >= y * b
  {
  }

  /** A Bull marker needs the close at least 10% above the trailing low. */
  lemma BullGate(closes: seq<real>, sma: seq<real>, i: nat)
    requires |closes| == |sma| && i < |closes| && Positive(closes)
    ensures MarkerAt(closes, sma, i) == Some(Bull) <==>
      Candidate(sma, i) && Direction(sma, i) > 0 && closes[i] >= 1.1 * TrailingLow(closes, i)
  {
    LowHighPositive(closes, i);
    GainGate(closes[i], TrailingLow(closes, i));
  }

  /** A Bear marker needs the close at least 10% below the trailing high. */
  lemma BearGate(closes: seq<real>, sma: seq<real>, i: nat)
    requires |closes| == |sma| && i < |closes| && Positive(closes)
    ensures MarkerAt(closes, sma, i) == Some(Bear) <==>
      Candidate(sma, i) && Direction(sma, i) < 0 && closes[i] <= 0.9 * TrailingHigh(closes, i)
  {
    LowHighPositive(closes, i);
    GainGate(closes[i], TrailingHigh(closes, i));
  }

  /** The markers of the first `n` bars, in bar order: what the scan loop has appended after `n` iterations. */
  function Collect(marks: seq<Option<Signal>>, n: nat): seq<Marker>
    requires n <= |marks|
  {
    if n == 0 then []
    else Collect(marks, n - 1) + (if marks[n - 1].Some? then [Marker(n - 1, marks[n - 1].value)] else [])
  }

  predicate Listed(r: seq<Marker>, j: nat)
  {
    exists k :: 0 <= k < |r| && r[k].index == j
  }

  /** The collected markers are exactly the marked bars, each once, in increasing bar order. */
  lemma CollectFacts(marks: seq<Option<Signal>>, n: nat)
    requires n <= |marks|
    ensures var c := Collect(marks, n);
      (forall k :: 0 <= k < |c| ==> c[k].index < n && marks[c[k].index] == Some(c[k].signal))
      && (forall k, l :: 0 <= k < l < |c| ==> c[k].index < c[l].index)
      && (forall j :: 0 <= j < n ==> (Listed(c, j) <==> marks[j].Some?))
  {
    CollectSound(marks, n);
    CollectSorted(marks, n);
    CollectComplete(marks, n);
  }

  lemma {:induction false} CollectSound(marks: seq<Option<Signal>>, n: nat)
    requires n <= |marks|
    ensures forall k :: 0 <= k < |Collect(marks, n)| ==>
      Collect(marks, n)[k].index < n && marks[Collect(marks, n)[k].index] == Some(Collect(marks, n)[k].signal)
  {
    if n > 0 {
      CollectSound(marks, n - 1);
      var p := Collect(marks, n - 1);
      var c := Collect(marks, n);
      forall k | 0 <= k < |c|
        ensures c[k].index < n && marks[c[k].index] == Some(c[k].signal)
      {
        if k < |p| {
          assert c[k] == p[k];
        } else {
          assert c[k] == Marker(n - 1, marks[n - 1].value);
        }
      }
    }
  }

  lemma {:induction false} CollectSorted(marks: seq<Option<Signal>>, n: nat)
    requires n <= |marks|
    ensures forall k, l :: 0 <= k < l < |Collect(marks, n)| ==> Collect(marks, n)[k].index < Collect(marks, n)[l].index
  {
    if n > 0 {
      CollectSorted(marks, n - 1);
      CollectSound(marks, n - 1);
      var p := Collect(marks, n - 1);
      var c := Collect(marks, n);
      forall k, l | 0 <= k < l < |c|
        ensures c[k].index < c[l].index
      {
        assert c[k] == p[k];
        if l < |p| {
          assert c[l] == p[l];
        } else {
          assert c[l] == Marker(n - 1, marks[n - 1].value);
        }
      }
    }
  }

  lemma {:induction false} CollectComplete(marks: seq<Option<Signal>>, n: nat)
    requires n <= |marks|
    ensures var c := Collect(marks, n);
      forall j :: 0 <= j < n ==> (Listed(c, j) <==> marks[j].Some?)
  {
    if n > 0 {
      CollectComplete(marks, n - 1);
      CollectSound(marks, n - 1);
      var p := Collect(marks, n - 1);
      var c := Collect(marks, n);
      forall j | 0 <= j < n
        ensures Listed(c, j) <==> marks[j].Some?
      {
        if j < n - 1 {
          if Listed(p, j) {
            var k :| 0 <= k < |p| && p[k].index == j;
            assert c[k] == p[k];
          }
          if Listed(c, j) {
            var k :| 0 <= k < |c| && c[k].index == j;
            if k < |p| { assert c[k] == p[k]; }
          }
        } else {
          if marks[j].Some? {
            assert c[|p|].index == j;
          }
          if Listed(c, j) {
            var k :| 0 <= k < |c| && c[k].index == j;
            if k < |p| { assert c[k] == p[k]; }
          }
        }
      }
    }
  }

  /**
   * The scan loop of `generate_dashboard`: one marker per qualifying bar, in
   * bar order, each with the signal that bar yields.
   */
  method ScanReversals(closes: seq<real>, sma: seq<real>) returns (r: seq<Marker>)
    requires |closes| == |sma| && Positive(closes)
    ensures forall k :: 0 <= k < |r| ==> 0 < r[k].index < |closes|
    ensures forall k, l :: 0 <= k < l < |r| ==> r[k].index < r[l].index
    ensures forall k :: 0 <= k < |r| ==> MarkerAt(closes, sma, r[k].index) == Some(r[k].signal)
    ensures forall i :: 0 <= i < |closes| ==> (Listed(r, i) <==> MarkerAt(closes, sma, i).Some?)
  {
    var marks := Marks(closes, sma);
    r := [];
    var i := 0;
    while i < |closes|
      invariant 0 <= i <= |closes|
      invariant r == Collect(marks, i)
    {
      if marks[i].Some? {
        r := r + [Marker(i, marks[i].value)];
      }
      i := i + 1;
    }
    CollectFacts(marks, |closes|);
  }

  /** The marker of every bar. */
  function Marks(closes: seq<real>, sma: seq<real>): (m: seq<Option<Signal>>)
    requires |closes| == |sma| && Positive(closes)
    ensures |m| == |closes|
    ensures forall i :: 0 <= i < |m| ==> m[i] == MarkerAt(closes, sma, i)
    ensures forall i :: 0 <= i < |m| && m[i].Some? ==> i > 0
  {
    seq(|closes|, i requires 0 <= i < |closes| => MarkerAt(closes, sma, i))
  }

  /**
   * The markers need not alternate: an SMA that rises, pauses and rises
   * again yields two Bull markers with no Bear between them.
   */
  lemma TwoBullsInARow()
    ensures MarkerAt([10.0, 12.0, 12.0, 12.0], [1.0, 2.0, 2.0, 3.0], 1) == Some(Bull)
    ensures MarkerAt([10.0, 12.0, 12.0, 12.0], [1.0, 2.0, 2.0, 3.0], 2) == None
    ensures MarkerAt([10.0, 12.0, 12.0, 12.0], [1.0, 2.0, 2.0, 3.0], 3) == Some(Bull)
  {
    var c := [10.0, 12.0, 12.0, 12.0];
    var s := [1.0, 2.0, 2.0, 3.0];
    assert c[0..2] == [10.0, 12.0];
    assert MinOf(c[0..2]) == 10.0;
    assert c[0..4] == [10.0, 12.0, 12.0, 12.0];
    assert MinOf([12.0, 12.0, 12.0]) == 12.0;
    assert MinOf(c[0..4]) == 10.0;
    BullGate(c, s, 1);
    BullGate(c, s, 3);
  }

  // ---------------------------------------------------- SectorIndexv7_pre

  /** `(Close - SMA_50) / SMA_50 * 100`. */
  function Deviation(close: real, sma: real): real
    requires sma != 0.0
  {
    (close - sma) / sma * 100.0
  }

  /** The marker SectorIndexv7_pre puts on a bar: Bull beyond +1.5%, Bear beyond -1.5%. */
  function Band(close: real, sma: real): (m: Option<Signal>)
    requires sma != 0.0
    ensures m == Some(Bull) <==> Deviation(close, sma) > DeviationThreshold
    ensures m == Some(Bear) <==> Deviation(close, sma) < -DeviationThreshold
  {
    var dev := Deviation(close, sma);
    if dev > DeviationThreshold || -dev > DeviationThreshold then
      Some(if dev > DeviationThreshold then Bull else Bear)
    else None
  }

  /** The SMA-deviation markers: the bars beyond the band, in bar order. */
  function DeviationMarkers(closes: seq<real>, sma: seq<real>): (r: seq<Marker>)
    requires |closes| == |sma| && Positive(sma)
    ensures forall k :: 0 <= k < |r| ==> r[k].index < |closes|
    ensures forall k, l :: 0 <= k < l < |r| ==> r[k].index < r[l].index
    ensures forall k :: 0 <= k < |r| ==> (r[k].signal == Bull <==> Deviation(closes[r[k].index], sma[r[k].index]) > DeviationThreshold)
    ensures forall k :: 0 <= k < |r| ==> (r[k].signal == Bear <==> Deviation(closes[r[k].index], sma[r[k].index]) < -DeviationThreshold)
    ensures forall i :: 0 <= i < |closes| ==>
      (Listed(r, i) <==> Deviation(closes[i], sma[i]) > DeviationThreshold || Deviation(closes[i], sma[i]) < -DeviationThreshold)
  {
    var bands := seq(|closes|, i requires 0 <= i < |closes| => Band(closes[i], sma[i]));
    CollectFacts(bands, |closes|);
    Collect(bands, |closes|)
  }
}
