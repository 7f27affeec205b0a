/**
 * `get_stock_data` of the sector dashboards: a cache hit is returned
 * without fetching; otherwise a bounded number of attempts is made against
 * the chart endpoint, each of which either raises or yields a frame.  The
 * replies are an abstract sequence, one per attempt.
 */
module SectorFetch {
  import opened Wrappers
  import opened SectorCache

  /** The parts of a chart reply the frame is built from. */
  datatype Chart = Chart(stamps: seq<int>, close: seq<Option<real>>, adj: Option<seq<Option<real>>>)

  /**
   * One attempt's reply: `Raised` stands for a network error, an HTTP error
   * status (`raise_for_status`) or an unreadable body; `Answer(None)` is a
   * body without a chart result.
   */
  datatype Reply = Raised | Answer(result: Option<Chart>)

  /**
   * How the adjusted close is looked up: `Fallback` defaults a missing
   * adjusted series to the quote close (SectorIndexv4 and later);
   * `NonEmptyOnly` defaults it to `[]` and also refuses an empty one
   * (SectorIndexv2, v3).
   */
  datatype AdjRule = Fallback | NonEmptyOnly

  datatype Fetcher = Fetcher(
    maxAttempts: nat,
    adjRule: AdjRule,
    minBars: nat,           // a frame with fewer bars raises
    needStamps: bool,       // an empty timestamp list raises
    quoteFirst: bool,       // the frame is built from the quote close before the adjusted one replaces it
    sleepAfterLast: bool,   // whether a failed last attempt still sleeps
    caches: bool)           // whether a success is written to the cache

  const FetchV12: Fetcher := Fetcher(5, Fallback, 0, false, false, true, true)
  const FetchV9: Fetcher := FetchV12
  const FetchV7Pre: Fetcher := FetchV12   // fewer than 800 bars only prints a warning
  const FetchV6: Fetcher := FetchV12
  const FetchV4: Fetcher := Fetcher(5, Fallback, 200, false, true, true, true)
  const FetchV3: Fetcher := Fetcher(5, NonEmptyOnly, 50, false, true, false, true)
  const FetchV2: Fetcher := Fetcher(3, NonEmptyOnly, 0, true, true, false, false)

  const SecondsPerDay: int := 86400

  /** The Close column: the adjusted series only when it has one value per timestamp. */
  function ChooseClose(rule: AdjRule, c: Chart): (r: seq<Option<real>>)
    ensures r == c.close || (c.adj.Some? && r == c.adj.value && |r| == |c.stamps|)
    ensures c.adj.Some? && |c.adj.value| == |c.stamps| && |c.adj.value| > 0 ==> r == c.adj.value
    ensures c.adj.None? ==> r == c.close
  {
    match rule
    case Fallback =>
      var adj := if c.adj.Some? then c.adj.value else c.close;
      if |adj| == |c.stamps| then adj else c.close
    case NonEmptyOnly =>
      if c.adj.Some? && |c.adj.value| > 0 && |c.adj.value| == |c.stamps| then c.adj.value else c.close
  }

  /** `ffill` continuing from `carry`, the last value seen so far. */
  function FillFrom(carry: Option<real>, xs: seq<Option<real>>): (r: seq<Option<real>>)
    ensures |r| == |xs|
    ensures forall i :: 0 <= i < |xs| && xs[i].Some? ==> r[i] == xs[i]
    ensures |xs| > 0 && xs[0].None? ==> r[0] == carry
    ensures forall i :: 0 < i < |xs| && xs[i].None? ==> r[i] == r[i - 1]
    ensures carry.Some? ==> forall i :: 0 <= i < |r| ==> r[i].Some?
    decreases |xs|
  {
    if |xs| == 0 then []
    else
      var v := if xs[0].Some? then xs[0] else carry;
      var rest := FillFrom(v, xs[1..]);
      assert forall i :: 0 < i < |xs| ==> xs[i] == xs[1..][i - 1];
      [v] + rest
  }

  /** `ffill`: a missing value takes the latest present value before it. */
  function FFill(xs: seq<Option<real>>): (r: seq<Option<real>>)
    ensures |r| == |xs|
    ensures forall i :: 0 <= i < |xs| && xs[i].Some? ==> r[i] == xs[i]
    ensures forall i :: 0 < i < |xs| && xs[i].None? ==> r[i] == r[i - 1]
    ensures |xs| > 0 && xs[0].None? ==> r[0] == None
  {
    FillFrom(None, xs)
  }

  /** After a forward fill the missing values form a prefix. */
  lemma {:induction false} FilledGapsLead(xs: seq<Option<real>>, i: int, j: int)
    requires 0 <= i <= j < |xs|
    requires FFill(xs)[i].Some?
    ensures FFill(xs)[j].Some?
    decreases j - i
  {
    if i < j {
      FilledGapsLead(xs, i, j - 1);
      var r := FFill(xs);
      if xs[j].None? {
        assert r[j] == r[j - 1];
      }
    }
  }

  function Bars(days: seq<int>, closes: seq<Option<real>>): (f: Frame)
    requires |days| == |closes|
    ensures |f| == |days|
    ensures forall i :: 0 <= i < |f| ==> f[i] == Bar(days[i], closes[i])
  {
    if |days| == 0 then [] else [Bar(days[0], closes[0])] + Bars(days[1..], closes[1..])
  }

  function Days(stamps: seq<int>): (d: seq<int>)
    ensures |d| == |stamps|
    ensures forall i :: 0 <= i < |d| ==> d[i] == stamps[i] / SecondsPerDay
  {
    if |stamps| == 0 then [] else [stamps[0] / SecondsPerDay] + Days(stamps[1..])
  }

  /** The position of the first present value (the length when there is none). */
  function FirstPresent(xs: seq<Option<real>>): (k: nat)
    ensures k <= |xs|
    ensures forall i :: 0 <= i < k ==> xs[i].None?
    ensures k < |xs| ==> xs[k].Some?
  {
    if |xs| == 0 || xs[0].Some? then 0 else 1 + FirstPresent(xs[1..])
  }

  /**
   * The bars `ffill().dropna(how='all')` keeps, judged on the close alone:
   * the leading bars before the first close are dropped and every later gap
   * takes the previous close.
   */
  function FilledBars(days: seq<int>, close: seq<Option<real>>): (f: Frame)
    requires |days| == |close|
    ensures |f| == |close| - FirstPresent(close)
    ensures forall i :: 0 <= i < |f| ==> f[i].close.Some?
    ensures forall i :: 0 <= i < |f| ==> f[i].day == days[FirstPresent(close) + i]
    ensures forall i :: 0 <= i < |f| && close[FirstPresent(close) + i].Some? ==> f[i].close == close[FirstPresent(close) + i]
  {
    var k := FirstPresent(close);
    var filled := FFill(close);
    FilledTail(close, k);
    Bars(days[k..], filled[k..])
  }

  lemma FilledTail(close: seq<Option<real>>, k: nat)
    requires k == FirstPresent(close)
    ensures forall j :: k <= j < |close| ==> FFill(close)[j].Some?
  {
    forall j | k <= j < |close|
      ensures FFill(close)[j].Some?
    {
      FilledGapsLead(close, k, j);
    }
  }

  /**
   * The frame one reply yields, or `None` when building it raises: no chart
   * result, a Close column whose length differs from the timestamps', an
   * empty timestamp list where that raises, a quote close of the wrong
   * length where the frame is first built from it, or too few bars.
   */
  function Attempt(fe: Fetcher, reply: Reply): (r: Option<Frame>)
    ensures reply.Raised? || reply.result.None? ==> r == None
    ensures r.Some? && fe.quoteFirst ==> |reply.result.value.close| == |reply.result.value.stamps|
    ensures r.Some? ==> |r.value| >= fe.minBars
    ensures r.Some? ==> forall i :: 0 <= i < |r.value| ==> r.value[i].close.Some?
    ensures r.Some? ==> |r.value| <= |reply.result.value.stamps|
    ensures r.Some? && fe.needStamps ==> |reply.result.value.stamps| > 0
  {
    if reply.Raised? || reply.result.None? then None
    else
      var c := reply.result.value;
      var close := ChooseClose(fe.adjRule, c);
      if fe.needStamps && |c.stamps| == 0 then None
      else if fe.quoteFirst && |c.close| != |c.stamps| then None
      else if |close| != |c.stamps| then None
      else
        var f := FilledBars(Days(c.stamps), close);
        if |f| < fe.minBars then None else Some(f)
  }

  /**
   * A reply whose quote close is one value short while its adjusted close
   * fits the two timestamps: the revisions that build the frame from the
   * quote close first fail the attempt, the later ones take the adjusted close.
   */
  lemma QuoteCloseLengthMatters()
    ensures var reply := Answer(Some(Chart([0, SecondsPerDay], [Some(1.0)], Some([Some(1.0), Some(2.0)]))));
      && Attempt(FetchV2, reply) == None
      && Attempt(FetchV4, reply) == None
      && Attempt(FetchV12, reply) == Some([Bar(0, Some(1.0)), Bar(1, Some(2.0))])
  {
    var adj := [Some(1.0), Some(2.0)];
    assert FirstPresent(adj) == 0;
    assert Days([0, SecondsPerDay]) == [0, 1];
    assert FFill(adj) == adj;
    assert Bars([0, 1], adj) == [Bar(0, Some(1.0)), Bar(1, Some(2.0))];
  }

  function ReplyAt(replies: seq<Reply>, k: nat): Reply
  {
    if k < |replies| then replies[k] else Raised
  }

  datatype Source = FromCache | Fetched | Failed

  datatype Outcome = Outcome(source: Source, frame: Frame, requests: nat, sleeps: nat, cache: Entry)

  /** What each of the first n attempts would yield, in order (see OutcomeAt). */
  function Outcomes(fe: Fetcher, replies: seq<Reply>, n: nat): (o: seq<Option<Frame>>)
    ensures |o| == n
  {
    if n == 0 then [] else Outcomes(fe, replies, n - 1) + [Attempt(fe, ReplyAt(replies, n - 1))]
  }

  /** Entry j of the outcomes is what the j-th reply builds. */
  lemma {:induction false} OutcomeAt(fe: Fetcher, replies: seq<Reply>, n: nat, j: nat)
    requires j < n
    ensures Outcomes(fe, replies, n)[j] == Attempt(fe, ReplyAt(replies, j))
  {
    if j < n - 1 {
      OutcomeAt(fe, replies, n - 1, j);
    }
  }

  /** The retry loop from attempt `k` (counted from 0) on: (first success, attempts made, sleeps). */
  function Tries(o: seq<Option<Frame>>, sleepAfterLast: bool, k: nat): (r: (Option<Frame>, nat, nat))
    requires k <= |o|
    ensures k + r.1 <= |o|
    ensures r.0.None? ==> k + r.1 == |o|
    ensures r.0.Some? ==> r.1 > 0 && o[k + r.1 - 1] == r.0
    ensures forall j :: k <= j < k + r.1 - 1 ==> o[j] == None
    ensures r.0.None? ==> forall j :: k <= j < |o| ==> o[j] == None
    ensures r.0.Some? ==> r.2 == r.1 - 1
    ensures r.0.None? && k < |o| ==> r.2 == (if sleepAfterLast then r.1 else r.1 - 1)
    decreases |o| - k
  {
    if k == |o| then (None, 0, 0)
    else if o[k].Some? then (o[k], 1, 0)
    else
      var rest := Tries(o, sleepAfterLast, k + 1);
      var slept := if k + 1 < |o| || sleepAfterLast then 1 else 0;
      (rest.0, rest.1 + 1, rest.2 + slept)
  }

  /**
   * `get_stock_data`: a usable cache entry is returned unless a refresh is
   * forced; otherwise the first successful attempt wins and is cached, and
   * after the last failed attempt the result is an empty frame and the cache
   * is left as it was.  Attempts are numbered from 0 in the outcomes.
   */
  function GetStockData(fe: Fetcher, p: Policy, force: bool, e: Entry, now: Clock, replies: seq<Reply>): (r: Outcome)
    ensures r.requests <= fe.maxAttempts
    ensures fe.caches && !force && Load(p, e, now).Some? <==> r.source == FromCache
    ensures r.source == FromCache ==> Some(r.frame) == Load(p, e, now) && r.requests == 0 && r.cache == e
    ensures r.source == Fetched ==> r.requests >= 1 && Outcomes(fe, replies, fe.maxAttempts)[r.requests - 1] == Some(r.frame)
    ensures r.source == Fetched ==> r.cache == (if fe.caches then Save(e, r.frame, now) else e)
    ensures r.source != FromCache ==> forall j :: 0 <= j < r.requests - 1 ==> Outcomes(fe, replies, fe.maxAttempts)[j] == None
    ensures r.source == Failed ==> r.frame == [] && r.cache == e && r.requests == fe.maxAttempts
    ensures r.source == Failed ==> forall j :: 0 <= j < fe.maxAttempts ==> Outcomes(fe, replies, fe.maxAttempts)[j] == None
  {
    var hit := Load(p, e, now);
    if fe.caches && !force && hit.Some? then Outcome(FromCache, hit.value, 0, 0, e)
    else
      var t := Tries(Outcomes(fe, replies, fe.maxAttempts), fe.sleepAfterLast, 0);
      if t.0.Some?
      then Outcome(Fetched, t.0.value, t.1, t.2, if fe.caches then Save(e, t.0.value, now) else e)
      else Outcome(Failed, [], t.1, t.2, e)
  }

  /**
   * The same in terms of the replies: a fetched frame is what the last
   * request's reply builds, every earlier reply builds nothing, and a failed
   * fetch had no reply that builds a frame.
   */
  lemma FetchIsFirstSuccess(fe: Fetcher, p: Policy, force: bool, e: Entry, now: Clock, replies: seq<Reply>)
    ensures var r := GetStockData(fe, p, force, e, now, replies);
      r.source == Fetched ==> Attempt(fe, ReplyAt(replies, r.requests - 1)) == Some(r.frame)
    ensures var r := GetStockData(fe, p, force, e, now, replies);
      r.source != FromCache ==> forall j :: 0 <= j < r.requests - 1 ==> Attempt(fe, ReplyAt(replies, j)) == None
    ensures var r := GetStockData(fe, p, force, e, now, replies);
      r.source == Failed ==> forall j :: 0 <= j < fe.maxAttempts ==> Attempt(fe, ReplyAt(replies, j)) == None
  {
    var r := GetStockData(fe, p, force, e, now, replies);
    var n := fe.maxAttempts;
    if r.source != FromCache {
      forall j | 0 <= j < n
        ensures Outcomes(fe, replies, n)[j] == Attempt(fe, ReplyAt(replies, j))
      {
        OutcomeAt(fe, replies, n, j);
      }
    }
  }

  /** The revisions that do not sleep after the final attempt sleep once less than they try. */
  lemma NoSleepAfterLast(e: Entry, now: Clock, replies: seq<Reply>, force: bool)
    ensures GetStockData(FetchV3, SectorV3, force, e, now, replies).source == Failed ==>
      GetStockData(FetchV3, SectorV3, force, e, now, replies).sleeps == 4
    ensures GetStockData(FetchV2, SectorV3, force, e, now, replies).source == Failed ==>
      GetStockData(FetchV2, SectorV3, force, e, now, replies).sleeps == 2
  {
    var _ := Tries(Outcomes(FetchV3, replies, 5), false, 0);
    var _ := Tries(Outcomes(FetchV2, replies, 3), false, 0);
  }

  /** A fetched frame always has a close on every bar, and SectorIndexv4's has at least 200 bars. */
  lemma FetchedFrameShape(fe: Fetcher, p: Policy, force: bool, e: Entry, now: Clock, replies: seq<Reply>)
    ensures var r := GetStockData(fe, p, force, e, now, replies);
      r.source == Fetched ==> |r.frame| >= fe.minBars && forall i :: 0 <= i < |r.frame| ==> r.frame[i].close.Some?
  {
    var r := GetStockData(fe, p, force, e, now, replies);
    if r.source == Fetched {
      OutcomeAt(fe, replies, fe.maxAttempts, r.requests - 1);
    }
  }
}
