/**
 * `find_significant_reversals` of MarketMonitorv4..v7: a scan over a list of
 * values that reports, by index, the bar that CONFIRMS a turn, i.e. the bar
 * whose percentage change from the running extreme reaches the threshold.
 */
module ThresholdReversal {
  import opened Turns

  const TwoPercent: real := 0.02   // MarketMonitorv4, v5, v6
  const OnePercent: real := 0.01   // MarketMonitorv7

  /** A reported reversal: the index of the confirming bar and its kind. */
  datatype Signal = Signal(index: nat, kind: Kind)

  datatype State = State(trend: Trend, last: real, found: seq<Signal>)

  ghost predicate NonZero(data: seq<real>)
  {
    forall k :: 0 <= k < |data| ==> data[k] != 0.0
  }

  /** The loop body for bar `i` with value `price`. */
  function Step(s: State, i: nat, price: real, t: real): (r: State)
    requires s.last != 0.0
    ensures r.last == s.last || r.last == price
  {
    var pct := (price - s.last) / s.last;
    if s.trend != Rising && pct >= t then State(Rising, price, s.found + [Signal(i, Trough)])
    else if s.trend != Falling && pct <= -t then State(Falling, price, s.found + [Signal(i, Peak)])
    else if (s.trend == Rising && price > s.last) || (s.trend == Falling && price < s.last)
    then s.(last := price)
    else s
  }

  /** Bars `i` .. |data|-1. */
  function Run(data: seq<real>, i: nat, s: State, t: real): State
    requires 1 <= i <= |data| && NonZero(data) && s.last != 0.0
    decreases |data| - i
  {
    if i == |data| then s else Run(data, i + 1, Step(s, i, data[i], t), t)
  }

  /** The scan's state once bars 1 .. i-1 have been seen: the loop as a fold over a prefix of the data. */
  function StateAt(data: seq<real>, t: real, i: nat): (s: State)
    requires NonZero(data) && 1 <= i <= |data|
    ensures s.last != 0.0
    decreases i
  {
    if i == 1 then State(Flat, data[0], [])
    else Step(StateAt(data, t, i - 1), i - 1, data[i - 1], t)
  }

  function Kinds(rs: seq<Signal>): seq<Kind>
  {
    seq(|rs|, i requires 0 <= i < |rs| => rs[i].kind)
  }

  /** Each trough is at least `t` above, each peak at least `t` below, the value of an earlier bar. */
  ghost predicate Confirmed(rs: seq<Signal>, data: seq<real>, t: real)
  {
    forall k :: 0 <= k < |rs| ==> ConfirmedAt(rs[k], data, t)
  }

  ghost predicate ConfirmedAt(e: Signal, data: seq<real>, t: real)
  {
    && e.index < |data|
    && exists j :: 0 <= j < e.index && data[j] != 0.0 && Moved(data[j], data[e.index], e.kind, t)
  }

  /** `to` is at least `t` (relatively) above `from` for a trough, below it for a peak. */
  predicate Moved(from: real, to: real, kind: Kind, t: real)
    requires from != 0.0
  {
    if kind == Trough then (to - from) / from >= t else (to - from) / from <= -t
  }

  /**
   * find_significant_reversals.  Empty input gives nothing; indices are
   * confirming bars 1 <= i < n and strictly increase; kinds alternate; and
   * every signal is confirmed by a move of at least the threshold from an
   * earlier bar.
   */
  function FindSignificantReversals(data: seq<real>, t: real): (r: seq<Signal>)
    requires NonZero(data)
    ensures |data| <= 1 ==> r == []
    ensures forall k :: 0 <= k < |r| ==> 1 <= r[k].index < |data|
    ensures forall k, m :: 0 <= k < m < |r| ==> r[k].index < r[m].index
    ensures Alternates(Kinds(r))
    ensures Confirmed(r, data, t)
  {
    if |data| == 0 then []
    else
      var s0 := State(Flat, data[0], []);
      RunGood(data, 1, s0, t);
      Run(data, 1, s0, t).found
  }

  ghost predicate Shape(s: State)
  {
    && (s.trend == Flat ==> s.found == [])
    && (s.found != [] ==> s.found[|s.found| - 1].kind != Expected(s.trend))
    && Alternates(Kinds(s.found))
  }

  ghost predicate Indexed(found: seq<Signal>, i: nat)
  {
    && (forall k :: 0 <= k < |found| ==> 1 <= found[k].index < i)
    && (forall k, m :: 0 <= k < m < |found| ==> found[k].index < found[m].index)
  }

  ghost predicate Good(s: State, data: seq<real>, i: nat, t: real)
  {
    && Shape(s)
    && Indexed(s.found, i)
    && (exists j :: 0 <= j < i && j < |data| && data[j] == s.last)
    && Confirmed(s.found, data, t)
  }

  /** Where the running extreme goes on a bar that emits nothing: up to a new high while rising, down to a new low while falling, nowhere while flat. */
  function Follow(trend: Trend, last: real, price: real): real
  {
    match trend
    case Flat => last
    case Rising => if price > last then price else last
    case Falling => if price < last then price else last
  }

  /**
   * One bar emits a trough exactly when the scan is not rising and the
   * move from the running extreme reaches t, and otherwise a peak exactly
   * when it is not falling and the move reaches -t; the signal is for bar
   * `i`, of the kind the trend expects, and resets the extreme to the
   * price.  A bar that emits nothing keeps the trend and only lets the
   * extreme follow the price.
   */
  lemma StepEmits(s: State, i: nat, price: real, t: real)
    requires s.last != 0.0
    ensures var s' := Step(s, i, price, t);
      || s'.found == s.found
      || (&& s'.found == s.found + [Signal(i, s'.found[|s'.found| - 1].kind)]
          && s'.last == price
          && s'.trend != Flat
          && (s.trend != Flat ==> s'.found[|s'.found| - 1].kind == Expected(s.trend))
          && s'.found[|s'.found| - 1].kind != Expected(s'.trend)
          && Moved(s.last, price, s'.found[|s'.found| - 1].kind, t))
    ensures var s', pct := Step(s, i, price, t), (price - s.last) / s.last;
      var up, down := s.trend != Rising && pct >= t, s.trend != Falling && pct <= -t;
      && (up ==> s' == State(Rising, price, s.found + [Signal(i, Trough)]))
      && (!up && down ==> s' == State(Falling, price, s.found + [Signal(i, Peak)]))
      && (!up && !down ==> s' == s.(last := Follow(s.trend, s.last, price)))
  {
  }

  lemma StepShape(s: State, i: nat, price: real, t: real)
    requires s.last != 0.0 && Shape(s)
    ensures Shape(Step(s, i, price, t))
  {
    StepEmits(s, i, price, t);
    var s' := Step(s, i, price, t);
    if s'.found != s.found {
      assert Kinds(s'.found) == Kinds(s.found) + [s'.found[|s'.found| - 1].kind];
    }
  }

  lemma StepGood(data: seq<real>, i: nat, s: State, t: real)
    requires 1 <= i < |data| && NonZero(data) && s.last != 0.0
    requires Good(s, data, i, t)
    ensures Good(Step(s, i, data[i], t), data, i + 1, t)
  {
    var s' := Step(s, i, data[i], t);
    StepShape(s, i, data[i], t);
    StepEmits(s, i, data[i], t);
    var j :| 0 <= j < i && j < |data| && data[j] == s.last;
    if s'.found != s.found {
      var e := s'.found[|s'.found| - 1];
      assert ConfirmedAt(e, data, t);
      assert data[i] == s'.last;
    } else if s'.last == s.last {
      assert data[j] == s'.last;
    } else {
      assert data[i] == s'.last;
    }
  }

  lemma {:induction false} RunGood(data: seq<real>, i: nat, s: State, t: real)
    requires 1 <= i <= |data| && NonZero(data) && s.last != 0.0
    requires Good(s, data, i, t)
    ensures Good(Run(data, i, s, t), data, |data|, t)
    decreases |data| - i
  {
    if i < |data| {
      StepGood(data, i, s, t);
      RunGood(data, i + 1, Step(s, i, data[i], t), t);
    }
  }

  /** Running the loop from the start is running it from the state reached at any bar. */
  lemma {:induction false} RunFrom(data: seq<real>, t: real, i: nat)
    requires NonZero(data) && 1 <= i <= |data|
    ensures Run(data, 1, State(Flat, data[0], []), t) == Run(data, i, StateAt(data, t, i), t)
    decreases i
  {
    if i > 1 {
      RunFrom(data, t, i - 1);
    }
  }

  /** The reported signals are the history once every bar has been seen. */
  lemma FoundAtEnd(data: seq<real>, t: real)
    requires NonZero(data) && 1 <= |data|
    ensures FindSignificantReversals(data, t) == StateAt(data, t, |data|).found
  {
    RunFrom(data, t, |data|);
  }

  /** The largest of data[j..i]. */
  function RangeMax(data: seq<real>, j: nat, i: nat): (m: real)
    requires j < i <= |data|
    ensures exists k :: j <= k < i && data[k] == m
    ensures forall k :: j <= k < i ==> data[k] <= m
    decreases i
  {
    if i == j + 1 then data[j]
    else
      var m := RangeMax(data, j, i - 1);
      if data[i - 1] > m then data[i - 1] else m
  }

  /** The smallest of data[j..i]. */
  function RangeMin(data: seq<real>, j: nat, i: nat): (m: real)
    requires j < i <= |data|
    ensures exists k :: j <= k < i && data[k] == m
    ensures forall k :: j <= k < i ==> m <= data[k]
    decreases i
  {
    if i == j + 1 then data[j]
    else
      var m := RangeMin(data, j, i - 1);
      if data[i - 1] < m then data[i - 1] else m
  }

  /** The direction a history of signals leaves the scan in: none yet, rising after a trough, falling after a peak. */
  function TrendOf(found: seq<Signal>): Trend
  {
    if |found| == 0 then Flat
    else if found[|found| - 1].kind == Trough then Rising
    else Falling
  }

  /**
   * The running extreme before bar i, given the signals reported before it:
   * the first value while no turn is known, else the highest value since
   * the bar of the last trough, or the lowest since the bar of the last peak.
   */
  function Extreme(data: seq<real>, found: seq<Signal>, i: nat): (e: real)
    requires 0 < i <= |data|
    requires found != [] ==> found[|found| - 1].index < i
    ensures exists k :: 0 <= k < i && data[k] == e
  {
    if |found| == 0 then data[0]
    else
      var j := found[|found| - 1].index;
      if found[|found| - 1].kind == Trough then RangeMax(data, j, i) else RangeMin(data, j, i)
  }

  /**
   * Whether a bar at `price` confirms a turn, given the signals before it
   * and the running extreme `e`: with no turn yet, a move of t either way;
   * after a trough, a fall of t; after a peak, a rise of t.
   */
  predicate Triggers(prev: seq<Signal>, e: real, price: real, t: real)
    requires e != 0.0
  {
    var pct := (price - e) / e;
    if |prev| == 0 then pct >= t || pct <= -t
    else if prev[|prev| - 1].kind == Trough then pct <= -t
    else pct >= t
  }

  /** The kind of turn such a bar confirms: the opposite of the last signal, or with none yet a trough for a rise (checked first) and a peak otherwise. */
  function TriggerKind(prev: seq<Signal>, e: real, price: real, t: real): Kind
    requires e != 0.0
  {
    if |prev| == 0 then (if (price - e) / e >= t then Trough else Peak)
    else if prev[|prev| - 1].kind == Trough then Peak
    else Trough
  }

  /** The scan's state agrees with its history: trend from the last signal, `last` the running extreme. */
  ghost predicate Tracks(s: State, data: seq<real>, i: nat)
    requires 0 < i <= |data|
  {
    && Indexed(s.found, i)
    && s.trend == TrendOf(s.found)
    && s.last == Extreme(data, s.found, i)
  }

  /** Before every bar the state's trend and extreme are those its history of signals determines. */
  lemma {:induction false} TracksAt(data: seq<real>, t: real, i: nat)
    requires NonZero(data) && 1 <= i <= |data|
    ensures Tracks(StateAt(data, t, i), data, i)
    decreases i
  {
    if i > 1 {
      var s := StateAt(data, t, i - 1);
      TracksAt(data, t, i - 1);
      TracksStep(data, t, i - 1, s);
      assert StateAt(data, t, i) == Step(s, i - 1, data[i - 1], t);
    }
  }

  lemma TracksStep(data: seq<real>, t: real, i: nat, s: State)
    requires NonZero(data) && 1 <= i < |data| && s.last != 0.0
    requires Tracks(s, data, i)
    ensures Tracks(Step(s, i, data[i], t), data, i + 1)
  {
    var s' := Step(s, i, data[i], t);
    StepEmits(s, i, data[i], t);
    if s'.found == s.found {
      if s.found != [] {
        var j := s.found[|s.found| - 1].index;
        assert j < i;
      }
    } else {
      assert s'.found[|s'.found| - 1].index == i;
    }
  }

  /** The scan only appends, and whatever it appends from bar i on is for a bar at or after i. */
  lemma {:induction false} Grows(data: seq<real>, t: real, i: nat, m: nat)
    requires NonZero(data) && 1 <= i <= m <= |data|
    ensures var a, b := StateAt(data, t, i).found, StateAt(data, t, m).found;
      && |a| <= |b| && b[..|a|] == a
      && forall k :: |a| <= k < |b| ==> b[k].index >= i
    decreases m
  {
    if m > i {
      Grows(data, t, i, m - 1);
      StepEmits(StateAt(data, t, m - 1), m - 1, data[m - 1], t);
    }
  }

  /** The leading signals of `r` that are for bars before i. */
  function Before(r: seq<Signal>, i: nat): (p: seq<Signal>)
    ensures |p| <= |r| && p == r[..|p|]
    ensures forall k :: 0 <= k < |p| ==> p[k].index < i
    ensures |p| < |r| ==> r[|p|].index >= i
  {
    if |r| == 0 || r[0].index >= i then []
    else [r[0]] + Before(r[1..], i)
  }

  predicate Reported(r: seq<Signal>, i: nat)
  {
    exists k :: 0 <= k < |r| && r[k].index == i
  }

  /** A prefix whose signals are all for bars before i, followed only by signals at or after i, is what Before keeps. */
  lemma BeforeSplit(r: seq<Signal>, a: seq<Signal>, i: nat)
    requires |a| <= |r| && r[..|a|] == a
    requires forall k :: 0 <= k < |a| ==> a[k].index < i
    requires |a| < |r| ==> r[|a|].index >= i
    ensures Before(r, i) == a
  {
  }

  /** Bar i appends a signal to the history exactly when it triggers, and then the one it confirms. */
  lemma EmitsExactly(data: seq<real>, t: real, i: nat)
    requires NonZero(data) && 1 <= i < |data|
    ensures var a, b := StateAt(data, t, i).found, StateAt(data, t, i + 1).found;
      Indexed(a, i) &&
      var e := Extreme(data, a, i);
      && e != 0.0
      && (b != a <==> Triggers(a, e, data[i], t))
      && (b != a ==> b == a + [Signal(i, TriggerKind(a, e, data[i], t))])
  {
    var s := StateAt(data, t, i);
    TracksAt(data, t, i);
    StepEmits(s, i, data[i], t);
    assert StateAt(data, t, i + 1) == Step(s, i, data[i], t);
  }

  /**
   * The headline of find_significant_reversals: bar i (1 <= i < n) is
   * reported exactly when its move from the running extreme reaches the
   * threshold in a direction the signals before it allow, and then the
   * signal that follows those is for bar i, of the kind that move confirms.
   */
  lemma ReportedExactly(data: seq<real>, t: real, i: nat)
    requires NonZero(data) && 1 <= i < |data|
    ensures var r := FindSignificantReversals(data, t);
      var prev := Before(r, i);
      var e := Extreme(data, prev, i);
      && e != 0.0
      && (Reported(r, i) <==> Triggers(prev, e, data[i], t))
      && (Reported(r, i) ==> |prev| < |r| && r[|prev|] == Signal(i, TriggerKind(prev, e, data[i], t)))
  {
    var r := FindSignificantReversals(data, t);
    FoundAtEnd(data, t);
    var a, b := StateAt(data, t, i).found, StateAt(data, t, i + 1).found;
    EmitsExactly(data, t, i);
    Grows(data, t, i, |data|);
    Grows(data, t, i + 1, |data|);
    var e := Extreme(data, a, i);
    Located(r, a, b, i, Triggers(a, e, data[i], t), TriggerKind(a, e, data[i], t));
  }

  /**
   * Where bar i's signal sits in the final list, given the histories `a`
   * before and `b` after bar i, both prefixes of `r`: `a` is what comes
   * before bar i, and bar i is reported exactly when `b` grew.
   */
  lemma Located(r: seq<Signal>, a: seq<Signal>, b: seq<Signal>, i: nat, grew: bool, kind: Kind)
    requires |a| <= |r| && r[..|a|] == a && |b| <= |r| && r[..|b|] == b
    requires forall k :: 0 <= k < |a| ==> a[k].index < i
    requires forall k :: |a| <= k < |r| ==> r[k].index >= i
    requires forall k :: |b| <= k < |r| ==> r[k].index >= i + 1
    requires (b != a <==> grew) && (b != a ==> b == a + [Signal(i, kind)])
    ensures Reported(r, i) <==> grew
    ensures grew ==> |a| < |r| && r[|a|] == Signal(i, kind)
    ensures Before(r, i) == a
  {
    BeforeSplit(r, a, i);
    if b == a {
      forall k | 0 <= k < |r|
        ensures r[k].index != i
      {
        if k < |a| {
          assert r[k] == a[k];
        }
      }
    } else {
      assert r[|a|] == b[|a|];
    }
  }

  ghost predicate NonDecreasing(data: seq<real>)
  {
    forall i, j :: 0 <= i < j < |data| ==> data[i] <= data[j]
  }

  /**
   * On a positive series that never falls, no peak is ever confirmed, so by
   * alternation at most one signal (a trough) is reported.
   */
  lemma NonDecreasingOneTrough(data: seq<real>, t: real)
    requires 0.0 < t
    requires forall k :: 0 <= k < |data| ==> data[k] > 0.0
    requires NonDecreasing(data)
    ensures var r := FindSignificantReversals(data, t);
      |r| <= 1 && forall k :: 0 <= k < |r| ==> r[k].kind == Trough
  {
    if |data| > 0 {
      var s0 := State(Flat, data[0], []);
      RunNoPeak(data, 1, s0, t);
      var r := FindSignificantReversals(data, t);
      assert r == Run(data, 1, s0, t).found;
      var ks := Kinds(r);
      assert |ks| == |r| && forall i :: 0 <= i < |ks| ==> ks[i] == Trough;
      OneKindAtMostOnce(ks, Trough);
    }
  }

  ghost predicate AllTroughs(found: seq<Signal>)
  {
    forall k :: 0 <= k < |found| ==> found[k].kind == Trough
  }

  lemma {:induction false} RunNoPeak(data: seq<real>, i: nat, s: State, t: real)
    requires 0.0 < t && 1 <= i <= |data|
    requires forall k :: 0 <= k < |data| ==> data[k] > 0.0
    requires NonDecreasing(data)
    requires 0.0 < s.last && forall k :: i <= k < |data| ==> s.last <= data[k]
    requires AllTroughs(s.found)
    ensures AllTroughs(Run(data, i, s, t).found)
    decreases |data| - i
  {
    if i < |data| {
      var s' := Step(s, i, data[i], t);
      assert (data[i] - s.last) / s.last >= 0.0;
      StepEmits(s, i, data[i], t);
      assert forall k :: i + 1 <= k < |data| ==> data[i] <= data[k];
      RunNoPeak(data, i + 1, s', t);
      assert Run(data, i, s, t) == Run(data, i + 1, s', t);
    } else {
      assert Run(data, i, s, t) == s;
    }
  }

  /**
   * With a 2% threshold the peak of 100, 103, 104, 101, 98 is reported at
   * index 3, the bar that confirms it, not at the extreme (index 2); the
   * further fall to 98 only extends the falling extreme.
   */
  lemma ConfirmingBarExample()
    ensures FindSignificantReversals([100.0, 103.0, 104.0, 101.0, 98.0], TwoPercent)
      == [Signal(1, Trough), Signal(3, Peak)]
  {
  }
}
