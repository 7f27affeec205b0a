/**
 * The SMA turning-point state machine `find_sma_reversals` of the live
 * market monitors.  Rows whose raw close or SMA is missing are dropped; the
 * remaining rows are folded through a flat / rising / falling machine that
 * keeps an anchor (the latest extreme of the SMA) and emits a peak or a
 * trough, dated and priced at the anchor, when the SMA retreats from the
 * anchor by more than the threshold.
 */
module SmaReversal {
  import opened Wrappers
  import opened Turns

  /** Thresholds of the individual scripts. */
  const LiveThreshold: real := 0.001        // MarketMonitorLive, Livev3, Livev4, Livev5, Livev6
  const LiveMarketThreshold: real := 0.015  // LiveMarketv4, LiveMarketv6
  const MonitorV8Threshold: real := 0.01    // MarketMonitorv8

  /** One row of the merged frame: a date with an optional raw close and an optional SMA. */
  datatype Row = Row(date: int, raw: Option<real>, sma: Option<real>)

  /** A row where both values are present. */
  datatype Point = Point(date: int, raw: real, sma: real)

  /** An emitted turning point: (date, raw close on that date, kind). */
  datatype Reversal = Reversal(date: int, price: real, kind: Kind)

  datatype State = State(trend: Trend, anchor: Point, found: seq<Reversal>)

  function AsRow(p: Point): Row
  {
    Row(p.date, Some(p.raw), Some(p.sma))
  }

  /** The `dropna()` step: keep, in order, the rows that have both values. */
  function ValidData(rows: seq<Row>): (v: seq<Point>)
    ensures |v| <= |rows|
    ensures forall p :: p in v <==> AsRow(p) in rows
  {
    if |rows| == 0 then []
    else
      var rest := ValidData(rows[1..]);
      assert forall r :: r in rows <==> r == rows[0] || r in rows[1..];
      if rows[0].raw.Some? && rows[0].sma.Some?
      then [Point(rows[0].date, rows[0].raw.value, rows[0].sma.value)] + rest
      else rest
  }

  /** One iteration of the loop body. */
  function Step(s: State, p: Point, t: real): State
  {
    match s.trend
    case Flat =>
      if p.sma >= s.anchor.sma * (1.0 + t) then State(Rising, p, s.found)
      else if p.sma <= s.anchor.sma * (1.0 - t) then State(Falling, p, s.found)
      else s
    case Rising =>
      if p.sma > s.anchor.sma then State(Rising, p, s.found)
      else if p.sma < s.anchor.sma * (1.0 - t)
      then State(Falling, p, s.found + [Reversal(s.anchor.date, s.anchor.raw, Peak)])
      else s
    case Falling =>
      if p.sma < s.anchor.sma then State(Falling, p, s.found)
      else if p.sma > s.anchor.sma * (1.0 + t)
      then State(Rising, p, s.found + [Reversal(s.anchor.date, s.anchor.raw, Trough)])
      else s
  }

  /** The loop over all valid rows, first one included. */
  function Run(s: State, ps: seq<Point>, t: real): State
    decreases |ps|
  {
    if |ps| == 0 then s else Run(Step(s, ps[0], t), ps[1..], t)
  }

  function Kinds(rs: seq<Reversal>): seq<Kind>
  {
    seq(|rs|, i requires 0 <= i < |rs| => rs[i].kind)
  }

  ghost predicate IncreasingRows(rows: seq<Row>)
  {
    forall i, j :: 0 <= i < j < |rows| ==> rows[i].date < rows[j].date
  }

  ghost predicate IncreasingPoints(ps: seq<Point>)
  {
    forall i, j :: 0 <= i < j < |ps| ==> ps[i].date < ps[j].date
  }

  ghost predicate IncreasingReversals(rs: seq<Reversal>)
  {
    forall i, j :: 0 <= i < j < |rs| ==> rs[i].date < rs[j].date
  }

  /** Every reversal is dated and priced at some point of `v`. */
  ghost predicate Sourced(rs: seq<Reversal>, v: seq<Point>)
  {
    forall k :: 0 <= k < |rs| ==> exists q :: q in v && q.date == rs[k].date && q.raw == rs[k].price
  }

  /**
   * find_sma_reversals.  No valid row gives no reversal; kinds alternate; each
   * reversal is dated and priced at an input row that has both values; there
   * are fewer reversals than valid rows; and on date-ordered input the
   * reversal dates strictly increase.
   */
  function FindSmaReversals(rows: seq<Row>, t: real): (r: seq<Reversal>)
    ensures ValidData(rows) == [] ==> r == []
    ensures ValidData(rows) != [] ==> |r| < |ValidData(rows)|
    ensures Alternates(Kinds(r))
    ensures forall k :: 0 <= k < |r| ==>
      exists i :: 0 <= i < |rows| && rows[i].date == r[k].date && rows[i].raw == Some(r[k].price) && rows[i].sma.Some?
    ensures IncreasingRows(rows) ==> IncreasingReversals(r)
  {
    var v := ValidData(rows);
    if |v| == 0 then []
    else
      var s1 := Step(State(Flat, v[0], []), v[0], t);
      RunFacts(rows, v, s1, t);
      Run(s1, v[1..], t).found
  }

  lemma RunFacts(rows: seq<Row>, v: seq<Point>, s1: State, t: real)
    requires v == ValidData(rows) && |v| > 0
    requires s1 == Step(State(Flat, v[0], []), v[0], t)
    ensures var r := Run(s1, v[1..], t).found;
      && |r| < |v|
      && Alternates(Kinds(r))
      && (forall k :: 0 <= k < |r| ==>
           exists i :: 0 <= i < |rows| && rows[i].date == r[k].date && rows[i].raw == Some(r[k].price) && rows[i].sma.Some?)
      && (IncreasingRows(rows) ==> IncreasingReversals(r))
  {
    FirstStep(v[0], t);
    Suffix(v);
    RunGood(s1, v[1..], t, v);
    RunCount(s1, v[1..], t);
    var r := Run(s1, v[1..], t).found;
    SourcedRows(r, v, rows);
    if IncreasingRows(rows) {
      ValidDataIncreasing(rows);
      LaterDates(v);
      RunDates(s1, v[1..], t);
    }
  }

  /** Processing the anchor row itself never emits and keeps the anchor. */
  lemma FirstStep(p: Point, t: real)
    ensures Step(State(Flat, p, []), p, t).anchor == p
    ensures Step(State(Flat, p, []), p, t).found == []
  {
  }

  lemma Suffix(v: seq<Point>)
    requires |v| > 0
    ensures forall q :: q in v[1..] ==> q in v
  {
  }

  lemma LaterDates(v: seq<Point>)
    requires |v| > 0 && IncreasingPoints(v)
    ensures IncreasingPoints(v[1..])
    ensures forall q :: q in v[1..] ==> v[0].date < q.date
  {
    forall q | q in v[1..] ensures v[0].date < q.date {
      var j :| 0 <= j < |v[1..]| && v[1..][j] == q;
      assert v[j + 1] == q;
    }
  }

  /** The invariant of the machine. */
  ghost predicate Good(s: State, v: seq<Point>)
  {
    && (s.trend == Flat ==> s.found == [])
    && (s.found != [] ==> s.found[|s.found| - 1].kind != Expected(s.trend))
    && Alternates(Kinds(s.found))
    && s.anchor in v
    && Sourced(s.found, v)
  }

  lemma StepGood(s: State, p: Point, t: real, v: seq<Point>)
    requires Good(s, v) && p in v
    ensures Good(Step(s, p, t), v)
  {
    var s' := Step(s, p, t);
    if |s'.found| == |s.found| + 1 {
      assert s'.found[|s'.found| - 1] == Reversal(s.anchor.date, s.anchor.raw, Expected(s.trend));
      assert Kinds(s'.found) == Kinds(s.found) + [Expected(s.trend)];
    } else {
      assert s'.found == s.found;
    }
  }

  lemma {:induction false} RunGood(s: State, ps: seq<Point>, t: real, v: seq<Point>)
    requires Good(s, v)
    requires forall q :: q in ps ==> q in v
    ensures Good(Run(s, ps, t), v)
    decreases |ps|
  {
    if |ps| > 0 {
      StepGood(s, ps[0], t, v);
      RunGood(Step(s, ps[0], t), ps[1..], t, v);
    }
  }

  lemma {:induction false} RunCount(s: State, ps: seq<Point>, t: real)
    ensures |Run(s, ps, t).found| <= |s.found| + |ps|
    ensures |s.found| <= |Run(s, ps, t).found|
    ensures s.found == Run(s, ps, t).found[..|s.found|]
    decreases |ps|
  {
    if |ps| > 0 {
      RunCount(Step(s, ps[0], t), ps[1..], t);
    }
  }

  /** Date bookkeeping: reversals stay strictly before the anchor and increase. */
  ghost predicate Dated(s: State)
  {
    && IncreasingReversals(s.found)
    && (s.found != [] ==> s.found[|s.found| - 1].date < s.anchor.date)
  }

  lemma {:induction false} RunDates(s: State, ps: seq<Point>, t: real)
    requires Dated(s)
    requires IncreasingPoints(ps)
    requires forall q :: q in ps ==> s.anchor.date < q.date
    ensures Dated(Run(s, ps, t))
    decreases |ps|
  {
    if |ps| > 0 {
      var s' := Step(s, ps[0], t);
      assert s'.anchor == s.anchor || s'.anchor == ps[0];
      assert forall q :: q in ps[1..] ==> ps[0].date < q.date && q in ps;
      RunDates(s', ps[1..], t);
    }
  }

  lemma SourcedRows(r: seq<Reversal>, v: seq<Point>, rows: seq<Row>)
    requires v == ValidData(rows)
    requires Sourced(r, v)
    ensures forall k :: 0 <= k < |r| ==>
      exists i :: 0 <= i < |rows| && rows[i].date == r[k].date && rows[i].raw == Some(r[k].price) && rows[i].sma.Some?
  {
    forall k | 0 <= k < |r|
      ensures exists i :: 0 <= i < |rows| && rows[i].date == r[k].date && rows[i].raw == Some(r[k].price) && rows[i].sma.Some?
    {
      var q :| q in v && q.date == r[k].date && q.raw == r[k].price;
      assert AsRow(q) in rows;
      var i :| 0 <= i < |rows| && rows[i] == AsRow(q);
    }
  }

  /** The valid points keep the order of the rows they come from. */
  lemma {:induction false} ValidDataIncreasing(rows: seq<Row>)
    requires IncreasingRows(rows)
    ensures IncreasingPoints(ValidData(rows))
  {
    if |rows| > 0 {
      ValidDataIncreasing(rows[1..]);
      var rest := ValidData(rows[1..]);
      forall q | q in rest ensures rows[0].date < q.date {
        assert AsRow(q) in rows[1..];
      }
    }
  }

  /** The machine's state once the first i valid points have been processed (the loop as a fold over a prefix). */
  function StateAt(v: seq<Point>, t: real, i: nat): State
    requires 0 < |v| && i <= |v|
    decreases i
  {
    if i == 0 then State(Flat, v[0], []) else Step(StateAt(v, t, i - 1), v[i - 1], t)
  }

  /** Running the loop from the first point on is running it from the state reached at any later point. */
  lemma {:induction false} RunFrom(v: seq<Point>, t: real, i: nat)
    requires 1 <= i <= |v|
    ensures Run(StateAt(v, t, 1), v[1..], t) == Run(StateAt(v, t, i), v[i..], t)
    decreases i
  {
    if i > 1 {
      RunFrom(v, t, i - 1);
      assert v[i - 1..][0] == v[i - 1] && v[i - 1..][1..] == v[i..];
    }
  }

  /** The reversals are the state's list once every valid point has been seen. */
  lemma FoundAtEnd(rows: seq<Row>, t: real)
    requires ValidData(rows) != []
    ensures FindSmaReversals(rows, t) == StateAt(ValidData(rows), t, |ValidData(rows)|).found
  {
    var v := ValidData(rows);
    RunFrom(v, t, |v|);
    assert v[|v|..] == [];
  }

  /**
   * The point at which the current trend began: the index of the last
   * point that changed the trend, or 0 if none has (the machine may leave
   * the flat state on the first point itself).
   */
  function Start(v: seq<Point>, t: real, i: nat): (b: nat)
    requires 0 < |v| && i <= |v|
    ensures b <= i && (i > 0 ==> b < i)
    decreases i
  {
    if i == 0 then 0
    else if StateAt(v, t, i).trend != StateAt(v, t, i - 1).trend then i - 1
    else Start(v, t, i - 1)
  }

  /** Start is where the current trend began: point b changed the trend (or b is 0), and no later point up to i has changed it. */
  lemma {:induction false} StartBegins(v: seq<Point>, t: real, i: nat)
    requires 0 < |v| && i <= |v|
    ensures var b := Start(v, t, i);
      && (b == 0 || StateAt(v, t, b).trend != StateAt(v, t, b + 1).trend)
      && forall j :: b < j <= i ==> StateAt(v, t, j).trend == StateAt(v, t, i).trend
    decreases i
  {
    if i > 0 && StateAt(v, t, i).trend == StateAt(v, t, i - 1).trend {
      StartBegins(v, t, i - 1);
    }
  }

  /** v[a] is the first of the points b .. i-1 with the highest SMA among them. */
  ghost predicate FirstMax(v: seq<Point>, b: nat, i: nat, a: nat)
  {
    && b <= a < i <= |v|
    && (forall k :: b <= k < i ==> v[k].sma <= v[a].sma)
    && (forall k :: b <= k < a ==> v[k].sma < v[a].sma)
  }

  /** v[a] is the first of the points b .. i-1 with the lowest SMA among them. */
  ghost predicate FirstMin(v: seq<Point>, b: nat, i: nat, a: nat)
  {
    && b <= a < i <= |v|
    && (forall k :: b <= k < i ==> v[a].sma <= v[k].sma)
    && (forall k :: b <= k < a ==> v[a].sma < v[k].sma)
  }

  /** The anchor after i points is point a, for a trend begun at point b: the first point while flat, else the first highest (rising) or lowest (falling) SMA since b. */
  ghost predicate Anchored(s: State, v: seq<Point>, b: nat, i: nat, a: nat)
  {
    && a < |v| && s.anchor == v[a]
    && (s.trend == Flat ==> a == 0)
    && (s.trend == Rising ==> FirstMax(v, b, i, a))
    && (s.trend == Falling ==> FirstMin(v, b, i, a))
  }

  /** Extending the range by one point: a higher SMA becomes the first maximum, any other leaves it. */
  lemma FirstMaxNext(v: seq<Point>, b: nat, i: nat, a: nat)
    requires FirstMax(v, b, i, a) && i < |v|
    ensures v[i].sma > v[a].sma ==> FirstMax(v, b, i + 1, i)
    ensures v[i].sma <= v[a].sma ==> FirstMax(v, b, i + 1, a)
  {
  }

  lemma FirstMinNext(v: seq<Point>, b: nat, i: nat, a: nat)
    requires FirstMin(v, b, i, a) && i < |v|
    ensures v[i].sma < v[a].sma ==> FirstMin(v, b, i + 1, i)
    ensures v[i].sma >= v[a].sma ==> FirstMin(v, b, i + 1, a)
  {
  }

  /** One point keeps the anchor the first extreme since the trend began; a point that changes the trend becomes the new anchor and the new start. */
  lemma AnchoredStep(v: seq<Point>, t: real, i: nat, s: State, b: nat, a: nat) returns (a': nat)
    requires i < |v| && b <= i && Anchored(s, v, b, i, a)
    ensures var s' := Step(s, v[i], t);
      Anchored(s', v, if s'.trend != s.trend then i else b, i + 1, a')
  {
    var s' := Step(s, v[i], t);
    if s'.trend != s.trend {
      a' := i;
      assert s'.anchor == v[i];
      assert FirstMax(v, i, i + 1, i) && FirstMin(v, i, i + 1, i);
    } else if s.trend == Rising {
      FirstMaxNext(v, b, i, a);
      a' := if v[i].sma > v[a].sma then i else a;
      assert s'.anchor == v[a'];
    } else if s.trend == Falling {
      FirstMinNext(v, b, i, a);
      a' := if v[i].sma < v[a].sma then i else a;
      assert s'.anchor == v[a'];
    } else {
      a' := a;
      assert s' == s;
    }
  }

  /** At every point the anchor is the first extreme of the SMA since the current trend began. */
  lemma {:induction false} AnchoredAt(v: seq<Point>, t: real, i: nat) returns (a: nat)
    requires 0 < |v| && i <= |v|
    ensures Anchored(StateAt(v, t, i), v, Start(v, t, i), i, a)
    decreases i
  {
    if i == 0 {
      a := 0;
    } else {
      var s, s' := StateAt(v, t, i - 1), StateAt(v, t, i);
      var b := Start(v, t, i - 1);
      assert s' == Step(s, v[i - 1], t);
      assert Start(v, t, i) == if s'.trend != s.trend then i - 1 else b;
      var a0 := AnchoredAt(v, t, i - 1);
      a := AnchoredStep(v, t, i - 1, s, b, a0);
    }
  }

  /** The list only grows, by at most one reversal per point. */
  lemma StepAppends(s: State, p: Point, t: real)
    ensures var f := Step(s, p, t).found;
      |s.found| <= |f| <= |s.found| + 1 && f[..|s.found|] == s.found
  {
    assert s.found + [Reversal(s.anchor.date, s.anchor.raw, Peak)] == s.found + [Reversal(s.anchor.date, s.anchor.raw, Peak)];
  }

  lemma {:induction false} Grows(v: seq<Point>, t: real, i: nat, m: nat)
    requires 0 < |v| && i <= m <= |v|
    ensures var a, b := StateAt(v, t, i).found, StateAt(v, t, m).found;
      |a| <= |b| && b[..|a|] == a
    decreases m
  {
    if m > i {
      Grows(v, t, i, m - 1);
      StepAppends(StateAt(v, t, m - 1), v[m - 1], t);
    }
  }

  /** Some point appended the k-th reversal of the list reached after m points. */
  lemma {:induction false} EmittedAt(v: seq<Point>, t: real, m: nat, k: nat)
    requires 0 < |v| && m <= |v| && k < |StateAt(v, t, m).found|
    ensures exists i: nat :: i < m && |StateAt(v, t, i).found| == k && |StateAt(v, t, i + 1).found| == k + 1
    decreases m
  {
    assert StateAt(v, t, 0).found == [];
    var before := StateAt(v, t, m - 1);
    StepAppends(before, v[m - 1], t);
    if k < |before.found| {
      EmittedAt(v, t, m - 1, k);
    } else {
      assert |StateAt(v, t, m - 1).found| == k && |StateAt(v, t, m).found| == k + 1;
    }
  }

  /**
   * Point i, processed in state s whose anchor is v[a]: while rising, a
   * point that does not rise above the anchor but falls strictly more than t
   * below it appends exactly one peak, dated and priced at the anchor;
   * while falling, symmetrically a trough; any other point appends nothing.
   */
  lemma RowEmits(v: seq<Point>, t: real, i: nat, s: State, a: nat)
    requires a < |v| && i < |v| && s.anchor == v[a]
    ensures var f := Step(s, v[i], t).found;
      && (s.trend == Rising && v[i].sma <= v[a].sma && v[i].sma < v[a].sma * (1.0 - t)
          ==> f == s.found + [Reversal(v[a].date, v[a].raw, Peak)])
      && (s.trend == Falling && v[i].sma >= v[a].sma && v[i].sma > v[a].sma * (1.0 + t)
          ==> f == s.found + [Reversal(v[a].date, v[a].raw, Trough)])
      && (!(s.trend == Rising && v[i].sma <= v[a].sma && v[i].sma < v[a].sma * (1.0 - t))
          && !(s.trend == Falling && v[i].sma >= v[a].sma && v[i].sma > v[a].sma * (1.0 + t))
          ==> f == s.found)
  {
  }

  /** Row i confirms the turn r against the extreme v[a] of the trend begun at point b. */
  ghost predicate Confirms(v: seq<Point>, t: real, b: nat, a: nat, i: nat, r: Reversal)
  {
    && a < i < |v|
    && r == Reversal(v[a].date, v[a].raw, r.kind)
    && (r.kind == Peak ==> FirstMax(v, b, i, a) && v[i].sma < v[a].sma * (1.0 - t))
    && (r.kind == Trough ==> FirstMin(v, b, i, a) && v[i].sma > v[a].sma * (1.0 + t))
  }

  /**
   * The headline of find_sma_reversals: each peak (trough) is dated and
   * priced at the first valid row with the highest (lowest) SMA since its
   * trend began, and some later row's SMA is strictly more than t below
   * (above) that extreme.
   */
  lemma ReversalAtExtreme(rows: seq<Row>, t: real, k: nat)
    requires k < |FindSmaReversals(rows, t)|
    ensures var v, r := ValidData(rows), FindSmaReversals(rows, t);
      exists i: nat, a: nat :: 0 < i < |v| && Confirms(v, t, Start(v, t, i), a, i, r[k])
  {
    var v := ValidData(rows);
    FoundAtEnd(rows, t);
    var i, a := EmittedConfirmed(v, t, k);
  }

  /** The k-th reversal found over the points v is confirmed by some later point against its anchor. */
  lemma EmittedConfirmed(v: seq<Point>, t: real, k: nat) returns (i: nat, a: nat)
    requires 0 < |v| && k < |StateAt(v, t, |v|).found|
    ensures 0 < i < |v| && Confirms(v, t, Start(v, t, i), a, i, StateAt(v, t, |v|).found[k])
  {
    EmittedAt(v, t, |v|, k);
    i :| i < |v| && |StateAt(v, t, i).found| == k && |StateAt(v, t, i + 1).found| == k + 1;
    a := ConfirmedAt(v, t, i);
    var f, r := StateAt(v, t, i + 1).found, StateAt(v, t, |v|).found;
    Grows(v, t, i + 1, |v|);
    assert r[..|f|] == f;
    assert r[k] == f[k];
  }

  /** The point that appends a reversal confirms it against the anchor it was processed with. */
  lemma ConfirmedAt(v: seq<Point>, t: real, i: nat) returns (a: nat)
    requires i < |v| && |StateAt(v, t, i + 1).found| == |StateAt(v, t, i).found| + 1
    ensures Confirms(v, t, Start(v, t, i), a, i, StateAt(v, t, i + 1).found[|StateAt(v, t, i).found|])
  {
    var s := StateAt(v, t, i);
    a := AnchoredAt(v, t, i);
    assert StateAt(v, t, i + 1) == Step(s, v[i], t);
    RowEmits(v, t, i, s, a);
  }

  ghost predicate NonDecreasing(ps: seq<Point>)
  {
    forall i, j :: 0 <= i < j < |ps| ==> ps[i].sma <= ps[j].sma
  }

  ghost predicate NonIncreasing(ps: seq<Point>)
  {
    forall i, j :: 0 <= i < j < |ps| ==> ps[i].sma >= ps[j].sma
  }

  /**
   * A positive SMA that never falls produces no reversal: the machine can
   * leave the flat state only upwards and a rising anchor is never retraced.
   */
  lemma NonDecreasingQuiet(rows: seq<Row>, t: real)
    requires 0.0 < t
    requires NonDecreasing(ValidData(rows))
    requires forall p :: p in ValidData(rows) ==> p.sma > 0.0
    ensures FindSmaReversals(rows, t) == []
  {
    var v := ValidData(rows);
    if |v| > 0 {
      var s1 := Step(State(Flat, v[0], []), v[0], t);
      FirstStep(v[0], t);
      assert s1.trend != Falling;
      RunRisingQuiet(s1, v[1..], t);
    }
  }

  lemma {:induction false} RunRisingQuiet(s: State, ps: seq<Point>, t: real)
    requires 0.0 < t && s.trend != Falling && s.found == [] && s.anchor.sma > 0.0
    requires NonDecreasing(ps)
    requires forall q :: q in ps ==> s.anchor.sma <= q.sma && q.sma > 0.0
    ensures Run(s, ps, t).found == []
    decreases |ps|
  {
    if |ps| > 0 {
      var s' := Step(s, ps[0], t);
      assert s.anchor.sma * (1.0 - t) < s.anchor.sma;
      assert s'.anchor == s.anchor || s'.anchor == ps[0];
      assert forall q :: q in ps[1..] ==> q in ps && ps[0].sma <= q.sma;
      RunRisingQuiet(s', ps[1..], t);
    }
  }

  /** Symmetrically, a positive SMA that never rises produces no reversal. */
  lemma NonIncreasingQuiet(rows: seq<Row>, t: real)
    requires 0.0 < t
    requires NonIncreasing(ValidData(rows))
    requires forall p :: p in ValidData(rows) ==> p.sma > 0.0
    ensures FindSmaReversals(rows, t) == []
  {
    var v := ValidData(rows);
    if |v| > 0 {
      var s1 := Step(State(Flat, v[0], []), v[0], t);
      FirstStep(v[0], t);
      assert s1.trend != Rising;
      RunFallingQuiet(s1, v[1..], t);
    }
  }

  lemma {:induction false} RunFallingQuiet(s: State, ps: seq<Point>, t: real)
    requires 0.0 < t && s.trend != Rising && s.found == [] && s.anchor.sma > 0.0
    requires NonIncreasing(ps)
    requires forall q :: q in ps ==> s.anchor.sma >= q.sma && q.sma > 0.0
    ensures Run(s, ps, t).found == []
    decreases |ps|
  {
    if |ps| > 0 {
      var s' := Step(s, ps[0], t);
      assert s.anchor.sma * (1.0 + t) > s.anchor.sma;
      assert s'.anchor == s.anchor || s'.anchor == ps[0];
      assert forall q :: q in ps[1..] ==> q in ps && ps[0].sma >= q.sma;
      RunFallingQuiet(s', ps[1..], t);
    }
  }

  /**
   * With t = 0.001: reaching exactly 100.1 from 100 leaves the flat state
   * (non-strict), falling back to exactly 100.1 * 0.999 does not confirm
   * (strict), a row without a raw close is skipped, and the peak is reported
   * at the anchor's date with that date's raw close.
   */
  lemma PeakExample()
    ensures FindSmaReversals(
      [Row(1, Some(10.0), Some(100.0)), Row(2, Some(11.0), Some(100.1)), Row(3, None, Some(50.0)),
       Row(4, Some(12.0), Some(99.9999)), Row(5, Some(13.0), Some(99.9))], LiveThreshold)
      == [Reversal(2, 11.0, Peak)]
  {
  }
}
