/**
 * Combining price series in the live monitors: a weekly and a daily series
 * are concatenated, only the LAST value of a duplicated timestamp is kept,
 * and the result is sorted; rows before a cutoff are then dropped.
 */
module SeriesMerge {
  import opened Wrappers
  import DateSets

  /** One observation of a series: a timestamp and its close. */
  datatype Obs = Obs(date: int, value: real)

  ghost predicate Sorted(s: seq<Obs>)
  {
    forall i, j :: 0 <= i < j < |s| ==> s[i].date < s[j].date
  }

  function Dates(s: seq<Obs>): set<int>
  {
    if |s| == 0 then {} else {s[0].date} + Dates(s[1..])
  }

  lemma {:induction false} InDates(s: seq<Obs>)
    ensures forall o :: o in s ==> o.date in Dates(s)
    ensures forall d :: d in Dates(s) ==> exists o :: o in s && o.date == d
  {
    if |s| > 0 {
      InDates(s[1..]);
      assert forall o :: o in s <==> o == s[0] || o in s[1..];
    }
  }

  /** The value of the first observation at `d` (the only one in a sorted series). */
  function Find(s: seq<Obs>, d: int): Option<real>
  {
    if |s| == 0 then None
    else if s[0].date == d then Some(s[0].value)
    else Find(s[1..], d)
  }

  /** The value of the LAST observation at `d`: a later observation overrides an earlier one. */
  function LastValue(s: seq<Obs>, d: int): Option<real>
  {
    if |s| == 0 then None
    else
      var later := LastValue(s[1..], d);
      if later.Some? then later
      else if s[0].date == d then Some(s[0].value)
      else None
  }

  lemma {:induction false} FindSomeIffDate(s: seq<Obs>, d: int)
    ensures Find(s, d).Some? <==> d in Dates(s)
  {
    if |s| > 0 {
      FindSomeIffDate(s[1..], d);
      assert Dates(s) == {s[0].date} + Dates(s[1..]);
    }
  }

  /** Put `o` in its place in a sorted series, replacing an observation with the same date. */
  function Insert(s: seq<Obs>, o: Obs): (r: seq<Obs>)
    requires Sorted(s)
    ensures Sorted(r)
    ensures forall x :: x in r ==> x in s || x == o
  {
    if |s| == 0 then [o]
    else if o.date < s[0].date then [o] + s
    else if o.date == s[0].date then [o] + s[1..]
    else
      var rest := Insert(s[1..], o);
      assert forall x :: x in rest ==> s[0].date < x.date;
      [s[0]] + rest
  }

  /** Inserting adds the new timestamp, gives it the new value, and leaves every other timestamp alone. */
  lemma {:induction false} InsertFacts(s: seq<Obs>, o: Obs)
    requires Sorted(s)
    ensures Dates(Insert(s, o)) == Dates(s) + {o.date}
    ensures forall d :: Find(Insert(s, o), d) == if d == o.date then Some(o.value) else Find(s, d)
  {
    if |s| > 0 && o.date > s[0].date {
      InsertFacts(s[1..], o);
      var r := Insert(s, o);
      assert r[1..] == Insert(s[1..], o);
    } else if |s| > 0 && o.date == s[0].date {
      var r := Insert(s, o);
      assert r[1..] == s[1..];
      assert Dates(s) == {s[0].date} + Dates(s[1..]);
    } else if |s| > 0 {
      var r := Insert(s, o);
      assert r[1..] == s;
    }
  }

  /** Fold the observations, in order, into a sorted series. */
  function Absorb(acc: seq<Obs>, xs: seq<Obs>): (r: seq<Obs>)
    requires Sorted(acc)
    ensures Sorted(r)
    ensures Dates(r) == Dates(acc) + Dates(xs)
    decreases |xs|
  {
    if |xs| == 0 then acc
    else
      InsertFacts(acc, xs[0]);
      Absorb(Insert(acc, xs[0]), xs[1..])
  }

  lemma {:induction false} AbsorbKeepsLast(acc: seq<Obs>, xs: seq<Obs>, d: int)
    requires Sorted(acc)
    ensures Find(Absorb(acc, xs), d) == if LastValue(xs, d).Some? then LastValue(xs, d) else Find(acc, d)
    decreases |xs|
  {
    if |xs| > 0 {
      InsertFacts(acc, xs[0]);
      AbsorbKeepsLast(Insert(acc, xs[0]), xs[1..], d);
    }
  }

  /**
   * `concat([first, second])`, keep the last value of each duplicated
   * timestamp, `sort_index()`.  The result is sorted with one row per
   * timestamp, covers exactly the timestamps of both inputs, and each row
   * carries the last value given for its timestamp.
   */
  function KeepLastMerge(first: seq<Obs>, second: seq<Obs>): (r: seq<Obs>)
    ensures Sorted(r)
    ensures Dates(r) == Dates(first) + Dates(second)
    ensures forall d :: Find(r, d) == LastValue(first + second, d)
  {
    var r := Absorb([], first + second);
    DatesAppend(first, second);
    forall d ensures Find(r, d) == LastValue(first + second, d) {
      AbsorbKeepsLast([], first + second, d);
    }
    r
  }

  lemma {:induction false} DatesAppend(a: seq<Obs>, b: seq<Obs>)
    ensures Dates(a + b) == Dates(a) + Dates(b)
    decreases |a|
  {
    if |a| > 0 {
      assert (a + b)[1..] == a[1..] + b;
      DatesAppend(a[1..], b);
    } else {
      assert a + b == b;
    }
  }

  lemma {:induction false} LastValueAppend(a: seq<Obs>, b: seq<Obs>, d: int)
    ensures LastValue(a + b, d) == if LastValue(b, d).Some? then LastValue(b, d) else LastValue(a, d)
    decreases |a|
  {
    if |a| > 0 {
      assert (a + b)[1..] == a[1..] + b;
      LastValueAppend(a[1..], b, d);
    } else {
      assert a + b == b;
    }
  }

  lemma {:induction false} LastValueSomeIffDate(s: seq<Obs>, d: int)
    ensures LastValue(s, d).Some? <==> d in Dates(s)
  {
    if |s| > 0 {
      LastValueSomeIffDate(s[1..], d);
    }
  }

  /**
   * The daily series wins: at a timestamp both series share, the merged
   * value is the daily one; elsewhere it is whichever series has it.
   */
  lemma SecondWins(first: seq<Obs>, second: seq<Obs>, d: int)
    ensures d in Dates(second) ==> Find(KeepLastMerge(first, second), d) == LastValue(second, d)
    ensures d !in Dates(second) ==> Find(KeepLastMerge(first, second), d) == LastValue(first, d)
  {
    LastValueAppend(first, second, d);
    LastValueSomeIffDate(second, d);
  }

  /**
   * One symbol of MarketMonitorLivev4/v6: skipped (None) when both the weekly
   * and the daily series are empty, otherwise their keep-last merge, which is
   * then not empty.
   */
  function MergeSymbol(weekly: seq<Obs>, daily: seq<Obs>): (r: Option<seq<Obs>>)
    ensures r == None <==> weekly == [] && daily == []
    ensures r.Some? ==> Sorted(r.value) && r.value != []
    ensures r.Some? ==> Dates(r.value) == Dates(weekly) + Dates(daily)
  {
    if weekly == [] && daily == [] then None
    else
      var m := KeepLastMerge(weekly, daily);
      Some(m)
  }

  /** `df[df.index >= cutoff]`: exactly the rows at or after the cutoff, in their order. */
  function AtOrAfter(s: seq<Obs>, cutoff: int): (r: seq<Obs>)
    ensures forall o :: o in r <==> o in s && o.date >= cutoff
    ensures |r| <= |s|
  {
    if |s| == 0 then []
    else
      var rest := AtOrAfter(s[1..], cutoff);
      assert forall o :: o in s <==> o == s[0] || o in s[1..];
      if s[0].date >= cutoff then [s[0]] + rest else rest
  }

  lemma {:induction false} AtOrAfterSorted(s: seq<Obs>, cutoff: int)
    requires Sorted(s)
    ensures Sorted(AtOrAfter(s, cutoff))
  {
    if |s| > 0 {
      AtOrAfterSorted(s[1..], cutoff);
      assert forall o :: o in AtOrAfter(s[1..], cutoff) ==> o in s[1..];
      assert forall o :: o in s[1..] ==> s[0].date < o.date;
    }
  }
}
