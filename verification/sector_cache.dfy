/**
 * The pickle cache of the sector dashboards: `load_cached_data` decides
 * whether a stored (frame, fetch time) record may be used, and
 * `save_cached_data` stores one.  Files and pickling are abstract: an entry
 * is absent, unreadable (any exception while loading), or a record.  The
 * clock is an explicit argument: seconds for the fetch-age test and a day
 * number for the calendar tests on bar dates.
 */
module SectorCache {
  import opened Wrappers

  /** One daily bar; only the date and the close matter to the cache. */
  datatype Bar = Bar(day: int, close: Option<real>)

  type Frame = seq<Bar>

  /** What the pickle holds: the frame (possibly `None`) and the fetch time in seconds. */
  datatype Record = Record(frame: Option<Frame>, fetchSecond: int)

  datatype Entry = Absent | Unreadable | Stored(record: Record)

  datatype Clock = Clock(second: int, day: int)

  /** The validity rules of one script revision. */
  datatype Policy = Policy(
    maxAgeHours: int,      // CACHE_HOURS
    minBars: nat,          // MIN_BARS_REQUIRED
    fiveYears: bool,       // the 4.7-year / 1100-bar test
    maxLastBarAge: int,    // days the last bar may lag behind today
    needsClose: bool)      // a frame whose closes are all missing is refused

  const SectorV12: Policy := Policy(24 * 7, 200, true, 7, false)
  const SectorV9: Policy := Policy(24 * 7, 200, true, 7, false)
  const SectorV7Pre: Policy := Policy(4, 200, true, 7, false)
  const SectorV6: Policy := Policy(4, 200, true, 7, false)
  const SectorV4: Policy := Policy(4, 200, false, 7, false)
  const SectorV3: Policy := Policy(4, 100, false, 5, true)

  const ExpectedMinBarsFiveYears: nat := 1100
  const MinYears: real := 4.7

  function MinDay(f: Frame): (d: int)
    requires |f| > 0
    ensures forall i :: 0 <= i < |f| ==> d <= f[i].day
    ensures exists i :: 0 <= i < |f| && d == f[i].day
  {
    if |f| == 1 then f[0].day
    else
      var m := MinDay(f[1..]);
      assert forall i :: 1 <= i < |f| ==> f[i] == f[1..][i - 1];
      if f[0].day <= m then f[0].day else m
  }

  function MaxDay(f: Frame): (d: int)
    requires |f| > 0
    ensures forall i :: 0 <= i < |f| ==> f[i].day <= d
    ensures exists i :: 0 <= i < |f| && d == f[i].day
  {
    if |f| == 1 then f[0].day
    else
      var m := MaxDay(f[1..]);
      assert forall i :: 1 <= i < |f| ==> f[i] == f[1..][i - 1];
      if f[0].day >= m then f[0].day else m
  }

  predicate AllCloseMissing(f: Frame)
  {
    forall i :: 0 <= i < |f| ==> f[i].close.None?
  }

  // The individual tests, each true when the record passes it.

  /** `age_hours > CACHE_HOURS` fails; the age is (now - fetch) seconds / 3600. */
  predicate FreshEnough(p: Policy, r: Record, now: Clock)
  {
    ((now.second - r.fetchSecond) as real) / 3600.0 <= p.maxAgeHours as real
  }

  predicate BigEnough(p: Policy, f: Frame)
  {
    |f| > 0 && |f| >= p.minBars
  }

  /** `years < 4.7 or len(df) < 1100` fails, years being (today - first bar) days / 365.25. */
  predicate CoversFiveYears(p: Policy, f: Frame, now: Clock)
    requires |f| > 0
  {
    !p.fiveYears || (((now.day - MinDay(f)) as real) / 365.25 >= MinYears && |f| >= ExpectedMinBarsFiveYears)
  }

  predicate RecentEnough(p: Policy, f: Frame, now: Clock)
    requires |f| > 0
  {
    now.day - MaxDay(f) <= p.maxLastBarAge
  }

  predicate HasSomeClose(p: Policy, f: Frame)
  {
    !p.needsClose || !AllCloseMissing(f)
  }

  /** Every test `load_cached_data` applies to a stored frame, in the source's order. */
  predicate Usable(p: Policy, r: Record, now: Clock)
  {
    && FreshEnough(p, r, now)
    && r.frame.Some?
    && BigEnough(p, r.frame.value)
    && CoversFiveYears(p, r.frame.value, now)
    && RecentEnough(p, r.frame.value, now)
    && HasSomeClose(p, r.frame.value)
  }

  /**
   * `load_cached_data`: the stored frame, unchanged, exactly when the entry
   * is a readable record passing every test; a miss (`None`, or
   * `(None, None)` in SectorIndexv3/v4) otherwise.
   */
  function Load(p: Policy, e: Entry, now: Clock): (r: Option<Frame>)
    ensures r.Some? <==> e.Stored? && Usable(p, e.record, now)
    ensures r.Some? ==> Some(r.value) == e.record.frame && |r.value| >= p.minBars && |r.value| > 0
    ensures e.Absent? || e.Unreadable? ==> r == None
  {
    match e
    case Absent => None
    case Unreadable => None
    case Stored(rec) =>
      if !FreshEnough(p, rec, now) then None
      else if rec.frame.None? || |rec.frame.value| == 0 || |rec.frame.value| < p.minBars then None
      else if !CoversFiveYears(p, rec.frame.value, now) then None
      else if !RecentEnough(p, rec.frame.value, now) then None
      else if !HasSomeClose(p, rec.frame.value) then None
      else rec.frame
  }

  /** The `(df, fetch_time)` pair returned by SectorIndexv3/v4: both present or both missing. */
  function LoadWithTime(p: Policy, e: Entry, now: Clock): (r: (Option<Frame>, Option<int>))
    ensures r.0.Some? <==> r.1.Some?
    ensures r.0 == Load(p, e, now)
    ensures r.1.Some? ==> e.Stored? && r.1.value == e.record.fetchSecond
  {
    var f := Load(p, e, now);
    if f.Some? then (f, Some(e.record.fetchSecond)) else (None, None)
  }

  /** `save_cached_data`: nothing for an empty frame, else one whole record stamped with the current time. */
  function Save(e: Entry, f: Frame, now: Clock): (r: Entry)
    ensures |f| == 0 ==> r == e
    ensures |f| > 0 ==> r.Stored? && r.record.frame == Some(f) && r.record.fetchSecond == now.second
  {
    if |f| == 0 then e else Stored(Record(Some(f), now.second))
  }

  /**
   * Saving a non-empty frame and loading it at the same moment gives the
   * frame back exactly when its size, span, staleness and close tests pass:
   * the age test always passes for a record that is zero seconds old.
   */
  lemma SaveThenLoad(p: Policy, e: Entry, f: Frame, now: Clock)
    requires |f| > 0 && p.maxAgeHours >= 0
    ensures Load(p, Save(e, f, now), now) == Some(f) <==>
      (BigEnough(p, f) && CoversFiveYears(p, f, now) && RecentEnough(p, f, now) && HasSomeClose(p, f))
    ensures Load(p, Save(e, f, now), now).Some? ==> Load(p, Save(e, f, now), now) == Some(f)
  {
    var rec := Record(Some(f), now.second);
    assert Save(e, f, now) == Stored(rec);
    assert ((now.second - rec.fetchSecond) as real) / 3600.0 == 0.0;
  }

  /**
   * The revisions differ only in the age limit, so a hit under the 4-hour
   * rule of SectorIndexv6/v7_pre is a hit under the one-week rule of
   * SectorIndexv9/v12.
   */
  lemma ShortAgeHitIsWeekHit(e: Entry, now: Clock)
    ensures Load(SectorV6, e, now).Some? ==> Load(SectorV12, e, now) == Load(SectorV6, e, now)
    ensures Load(SectorV7Pre, e, now) == Load(SectorV6, e, now)
    ensures Load(SectorV9, e, now) == Load(SectorV12, e, now)
  {
  }

  /** A record older than the age limit is a miss whatever it holds. */
  lemma ExpiredIsMiss(p: Policy, r: Record, now: Clock)
    requires now.second - r.fetchSecond > p.maxAgeHours * 3600
    ensures Load(p, Stored(r), now) == None
  {
    var age := ((now.second - r.fetchSecond) as real) / 3600.0;
    assert (now.second - r.fetchSecond) as real > (p.maxAgeHours * 3600) as real;
    assert age > p.maxAgeHours as real;
  }
}
