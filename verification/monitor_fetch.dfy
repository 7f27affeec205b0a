/**
 * How the market monitors turn Yahoo replies into a close series.  The
 * network is not modelled: a fetch is given the replies the server would
 * send to its successive requests, and the model says which of them are
 * used and what series comes out.
 */
module MonitorFetch {
  import opened Wrappers
  import opened SeriesMerge

  /** One timestamp of a reply with its close, which may be null/NaN. */
  datatype Quote = Quote(date: int, close: Option<real>)

  /** What a reply body parses to: unparseable, lacking the close data, or quotes. */
  datatype Payload = Garbled | Missing | Quotes(rows: seq<Quote>)

  /** A reply: an exception before any status (timeout, connection), or an HTTP status with a body. */
  datatype Reply = Failure | Http(status: int, payload: Payload)

  /** The statuses for which `raise_for_status()` raises. */
  predicate Raises(status: int)
  {
    400 <= status < 600
  }

  /** `.dropna()` on the closes: the quotes with a value, in order. */
  function DropNa(qs: seq<Quote>): (r: seq<Obs>)
    ensures |r| <= |qs|
    ensures forall o :: o in r <==> Quote(o.date, Some(o.value)) in qs
  {
    if |qs| == 0 then []
    else
      var rest := DropNa(qs[1..]);
      assert forall q :: q in qs <==> q == qs[0] || q in qs[1..];
      if qs[0].close.Some? then [Obs(qs[0].date, qs[0].close.value)] + rest else rest
  }

  /** The series a single reply delivers: its non-missing closes when it is a good response, else nothing. */
  function Delivered(reply: Reply): seq<Obs>
  {
    match reply
    case Http(status, Quotes(rows)) => if Raises(status) then [] else DropNa(rows)
    case _ => []
  }

  /** The result of a fetch and the number of requests it sent. */
  datatype Fetch = Fetch(series: seq<Obs>, requests: nat)

  // ---------------------------------------------------------------- Livev4

  const LiveV4MaxRetries: nat := 5

  /** A cache file: absent, or a CSV whose contents parse like a reply body. */
  datatype CacheFile = NoCache | Csv(contents: Payload)

  /** A reply after which MarketMonitorLivev4 stops asking. */
  predicate V4Final(reply: Reply)
  {
    && reply.Http?
    && reply.status != 429
    && (reply.status in {400, 401, 403} || (!Raises(reply.status) && !reply.payload.Garbled?))
  }

  /**
   * The retry loop of MarketMonitorLivev4 from attempt k: a 429 sleeps and
   * retries, 400/401/403 stop, any other HTTP error or exception retries, a
   * body without a Close column stops, and a good body is returned.  The
   * requests sent are those up to the first final reply (or all five), and
   * the series is what that last reply delivers.
   */
  function V4Loop(replies: seq<Reply>, k: nat): (r: Fetch)
    requires k <= LiveV4MaxRetries <= |replies|
    ensures k == LiveV4MaxRetries ==> r == Fetch([], k)
    ensures k < LiveV4MaxRetries ==> k < r.requests <= LiveV4MaxRetries
    ensures forall j :: k <= j < r.requests - 1 ==> !V4Final(replies[j])
    ensures k < r.requests ==> (V4Final(replies[r.requests - 1]) || r.requests == LiveV4MaxRetries)
    ensures k < r.requests ==> r.series == Delivered(replies[r.requests - 1])
    decreases LiveV4MaxRetries - k
  {
    if k == LiveV4MaxRetries then Fetch([], k)
    else
      match replies[k]
      case Failure => V4Loop(replies, k + 1)
      case Http(status, body) =>
        if status == 429 then V4Loop(replies, k + 1)
        else if status == 403 || status == 401 || status == 400 then Fetch([], k + 1)
        else if Raises(status) then V4Loop(replies, k + 1)
        else
          match body
          case Garbled => V4Loop(replies, k + 1)
          case Missing => Fetch([], k + 1)
          case Quotes(rows) => Fetch(DropNa(rows), k + 1)
  }

  /**
   * fetch_yahoo_data of MarketMonitorLivev4.  A readable cache file with a
   * Close column is returned without any request; otherwise at most five
   * requests are sent and the result is whatever the last one delivers.
   */
  function FetchLiveV4(useCache: bool, cache: CacheFile, replies: seq<Reply>): (r: Fetch)
    requires |replies| >= LiveV4MaxRetries
    ensures r.requests <= LiveV4MaxRetries
    ensures useCache && cache.Csv? && cache.contents.Quotes? ==> r == Fetch(DropNa(cache.contents.rows), 0)
    ensures !(useCache && cache.Csv? && cache.contents.Quotes?) ==>
      0 < r.requests && r.series == Delivered(replies[r.requests - 1])
  {
    if useCache && cache.Csv? && cache.contents.Quotes? then Fetch(DropNa(cache.contents.rows), 0)
    else V4Loop(replies, 0)
  }

  // ---------------------------------------------------------------- Livev3

  const LiveV3MaxRetries: nat := 4

  /**
   * The retry loop of MarketMonitorLivev3 from attempt k.  Only a 429 is
   * retried; every other reply ends the fetch, because the retry meant for
   * HTTP errors tests a name that is never defined.  So the requests sent
   * are those up to the first reply that is not a 429 (or all four).
   */
  function V3Loop(replies: seq<Reply>, k: nat): (r: Fetch)
    requires k <= LiveV3MaxRetries <= |replies|
    ensures k == LiveV3MaxRetries ==> r == Fetch([], k)
    ensures k < LiveV3MaxRetries ==> k < r.requests <= LiveV3MaxRetries
    ensures forall j :: k <= j < r.requests - 1 ==> replies[j].Http? && replies[j].status == 429
    ensures k < r.requests < LiveV3MaxRetries ==> !(replies[r.requests - 1].Http? && replies[r.requests - 1].status == 429)
    ensures k < r.requests ==> r.series == Delivered(replies[r.requests - 1])
    decreases LiveV3MaxRetries - k
  {
    if k == LiveV3MaxRetries then Fetch([], k)
    else
      match replies[k]
      case Failure => Fetch([], k + 1)
      case Http(status, body) =>
        if status == 429 then V3Loop(replies, k + 1)
        else if Raises(status) then Fetch([], k + 1)
        else
          match body
          case Quotes(rows) => Fetch(DropNa(rows), k + 1)
          case _ => Fetch([], k + 1)
  }

  // ------------------------------------------------- Livev5, LiveMarketv6

  /**
   * The single-request fetch of MarketMonitorLivev5 and LiveMarketv6: any
   * exception, HTTP error or missing close data gives an empty series;
   * otherwise the closes that are present.
   */
  function FetchOnce(reply: Reply): (r: seq<Obs>)
    ensures r != [] ==> reply.Http? && !Raises(reply.status) && reply.payload.Quotes?
    ensures reply.Http? && !Raises(reply.status) && reply.payload.Quotes? ==>
      forall o :: o in r <==> Quote(o.date, Some(o.value)) in reply.payload.rows
  {
    match reply
    case Http(status, body) =>
      if Raises(status) then []
      else if body.Quotes? then DropNa(body.rows)
      else []
    case Failure => []
  }

  // ---------------------------------------------- MarketMonitorv1 .. v7

  /**
   * `get_historical_closes` / `get_data`: a dict from date to close that
   * skips null closes, where a later quote of the same date overrides an
   * earlier one; any failure to read quotes gives an empty dict.
   */
  function HistoricalCloses(reply: Reply): (m: map<int, real>)
    ensures !(reply.Http? && reply.payload.Quotes?) ==> m == map[]
    ensures reply.Http? && reply.payload.Quotes? ==>
      forall d :: (d in m <==> LastValue(DropNa(reply.payload.rows), d).Some?)
    ensures reply.Http? && reply.payload.Quotes? ==>
      forall d :: d in m ==> Some(m[d]) == LastValue(DropNa(reply.payload.rows), d)
  {
    match reply
    case Http(_, Quotes(rows)) => ToDict(DropNa(rows))
    case _ => map[]
  }

  /** A dict comprehension: each observation in turn sets its date. */
  function ToDict(s: seq<Obs>): (m: map<int, real>)
    ensures forall d :: (d in m <==> LastValue(s, d).Some?)
    ensures forall d :: d in m ==> Some(m[d]) == LastValue(s, d)
  {
    if |s| == 0 then map[]
    else
      var rest := ToDict(s[1..]);
      if s[0].date in rest then rest else rest[s[0].date := s[0].value]
  }
}
