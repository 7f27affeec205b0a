/**
 * Building the multi-symbol frame: `pd.concat(series, axis=1)` is an outer
 * join on timestamps (a missing value becomes NaN), `.dropna()` turns it into
 * an inner join, and `df[df.index >= cutoff]` trims the period.
 */
module Alignment {
  import opened Wrappers
  import DateSets
  import opened SeriesMerge

  /** One frame row: a timestamp and one cell per symbol column. */
  datatype FrameRow = FrameRow(date: int, cells: seq<Option<real>>)

  function DateList(s: seq<Obs>): (ds: seq<int>)
    ensures forall d :: d in ds <==> d in Dates(s)
  {
    if |s| == 0 then [] else [s[0].date] + DateList(s[1..])
  }

  /** The timestamps present in some column. */
  function ColDates(cols: seq<seq<Obs>>): set<int>
  {
    if |cols| == 0 then {} else Dates(cols[0]) + ColDates(cols[1..])
  }

  /** Every timestamp of every column, with repetitions. */
  function AllDates(cols: seq<seq<Obs>>): (ds: seq<int>)
    ensures forall d :: d in ds <==> d in ColDates(cols)
  {
    if |cols| == 0 then [] else DateList(cols[0]) + AllDates(cols[1..])
  }

  lemma {:induction false} ColDatesHas(cols: seq<seq<Obs>>, c: nat, d: int)
    requires c < |cols| && d in Dates(cols[c])
    ensures d in ColDates(cols)
  {
    if c > 0 {
      ColDatesHas(cols[1..], c - 1, d);
    }
  }

  function RowDates(rows: seq<FrameRow>): seq<int>
  {
    seq(|rows|, i requires 0 <= i < |rows| => rows[i].date)
  }

  /**
   * `pd.concat(cols, axis=1)`: one row per timestamp of any column, in
   * increasing order, and in column c the column's value at that timestamp
   * or NaN when it has none.
   */
  function OuterJoin(cols: seq<seq<Obs>>): (rows: seq<FrameRow>)
    ensures DateSets.Increasing(RowDates(rows))
    ensures forall d :: d in RowDates(rows) <==> d in ColDates(cols)
    ensures forall i :: 0 <= i < |rows| ==> |rows[i].cells| == |cols|
    ensures forall i, c :: 0 <= i < |rows| && 0 <= c < |cols| ==> rows[i].cells[c] == Find(cols[c], rows[i].date)
  {
    var ds := DateSets.SortUnique(AllDates(cols));
    var rows := seq(|ds|, i requires 0 <= i < |ds| =>
      FrameRow(ds[i], seq(|cols|, c requires 0 <= c < |cols| => Find(cols[c], ds[i]))));
    assert RowDates(rows) == ds;
    rows
  }

  predicate Complete(row: FrameRow)
  {
    forall c :: 0 <= c < |row.cells| ==> row.cells[c].Some?
  }

  /** `.dropna()`: the rows, in order, that have a value in every column. */
  function DropIncomplete(rows: seq<FrameRow>): (r: seq<FrameRow>)
    ensures forall x :: x in r <==> x in rows && Complete(x)
  {
    if |rows| == 0 then []
    else
      var rest := DropIncomplete(rows[1..]);
      assert forall x :: x in rows <==> x == rows[0] || x in rows[1..];
      if Complete(rows[0]) then [rows[0]] + rest else rest
  }

  lemma {:induction false} DropIncompleteIncreasing(rows: seq<FrameRow>)
    requires DateSets.Increasing(RowDates(rows))
    ensures DateSets.Increasing(RowDates(DropIncomplete(rows)))
  {
    if |rows| > 0 {
      var rest := DropIncomplete(rows[1..]);
      assert DateSets.Increasing(RowDates(rows[1..])) by {
        forall i, j | 0 <= i < j < |rows[1..]| ensures RowDates(rows[1..])[i] < RowDates(rows[1..])[j] {
          assert RowDates(rows)[i + 1] == rows[i + 1].date && RowDates(rows)[j + 1] == rows[j + 1].date;
        }
      }
      DropIncompleteIncreasing(rows[1..]);
      forall x | x in rest ensures rows[0].date < x.date {
        var m :| 0 <= m < |rows[1..]| && rows[1..][m] == x;
        assert RowDates(rows)[0] == rows[0].date && RowDates(rows)[m + 1] == rows[m + 1].date;
      }
      IncreasingCons(rows[0], rest, DropIncomplete(rows));
    }
  }

  lemma IncreasingCons(x: FrameRow, rest: seq<FrameRow>, r: seq<FrameRow>)
    requires DateSets.Increasing(RowDates(rest))
    requires forall y :: y in rest ==> x.date < y.date
    requires r == [x] + rest || r == rest
    ensures DateSets.Increasing(RowDates(r))
  {
    forall i, j | 0 <= i < j < |r| ensures RowDates(r)[i] < RowDates(r)[j] {
      if r == [x] + rest && i == 0 {
        assert r[j] == rest[j - 1];
      } else if r == [x] + rest {
        assert r[i] == rest[i - 1] && r[j] == rest[j - 1];
        assert RowDates(rest)[i - 1] == rest[i - 1].date && RowDates(rest)[j - 1] == rest[j - 1].date;
      } else {
        assert RowDates(rest)[i] == rest[i].date && RowDates(rest)[j] == rest[j].date;
      }
    }
  }

  /** `df[df.index >= cutoff]` on a frame. */
  function RowsAtOrAfter(rows: seq<FrameRow>, cutoff: int): (r: seq<FrameRow>)
    ensures forall x :: x in r <==> x in rows && x.date >= cutoff
  {
    if |rows| == 0 then []
    else
      var rest := RowsAtOrAfter(rows[1..], cutoff);
      assert forall x :: x in rows <==> x == rows[0] || x in rows[1..];
      if rows[0].date >= cutoff then [rows[0]] + rest else rest
  }

  /** The timestamps of all the weekly and daily series. */
  function SymbolDates(symbols: seq<(seq<Obs>, seq<Obs>)>): set<int>
  {
    if |symbols| == 0 then {} else Dates(symbols[0].0) + Dates(symbols[0].1) + SymbolDates(symbols[1..])
  }

  lemma RowDatesMember(rows: seq<FrameRow>, d: int)
    ensures d in RowDates(rows) <==> exists x :: x in rows && x.date == d
  {
    if d in RowDates(rows) {
      var i :| 0 <= i < |rows| && RowDates(rows)[i] == d;
      assert rows[i] in rows;
    }
    if exists x :: x in rows && x.date == d {
      var x :| x in rows && x.date == d;
      var i :| 0 <= i < |rows| && rows[i] == x;
      assert RowDates(rows)[i] == d;
    }
  }

  /**
   * The period frame of MarketMonitorLive/Livev3..v6, LiveMarketv4/v6: each
   * symbol is the keep-last merge of its weekly and daily series (skipped
   * when both are empty), the kept symbols are outer-joined and the rows
   * before the cutoff dropped.  The answer is None exactly when no symbol has
   * an observation at or after the cutoff; otherwise its rows are exactly the
   * timestamps at or after the cutoff where some symbol has a value.
   */
  function LivePeriod(symbols: seq<(seq<Obs>, seq<Obs>)>, cutoff: int): (r: Option<seq<FrameRow>>)
    ensures r == None <==> forall d :: d in SymbolDates(symbols) ==> d < cutoff
    ensures r.Some? ==> forall d :: d in RowDates(r.value) <==> d in SymbolDates(symbols) && d >= cutoff
  {
    var cols := Kept(symbols);
    KeptDates(symbols);
    if cols == [] then None
    else
      var joined := OuterJoin(cols);
      var rows := RowsAtOrAfter(joined, cutoff);
      PeriodDates(joined, rows, cutoff);
      EmptyPeriod(rows, SymbolDates(symbols), cutoff);
      if rows == [] then None else Some(rows)
  }

  lemma EmptyPeriod(rows: seq<FrameRow>, all: set<int>, cutoff: int)
    requires forall d :: d in RowDates(rows) <==> d in all && d >= cutoff
    ensures rows == [] <==> forall d :: d in all ==> d < cutoff
  {
    if rows != [] {
      assert RowDates(rows)[0] in RowDates(rows);
    }
  }

  lemma PeriodDates(joined: seq<FrameRow>, rows: seq<FrameRow>, cutoff: int)
    requires rows == RowsAtOrAfter(joined, cutoff)
    ensures forall d :: d in RowDates(rows) <==> d in RowDates(joined) && d >= cutoff
  {
    forall d ensures d in RowDates(rows) <==> d in RowDates(joined) && d >= cutoff {
      RowDatesMember(rows, d);
      RowDatesMember(joined, d);
    }
  }

  /** The merged series of the symbols that are not skipped, in order. */
  function Kept(symbols: seq<(seq<Obs>, seq<Obs>)>): seq<seq<Obs>>
  {
    if |symbols| == 0 then []
    else
      match MergeSymbol(symbols[0].0, symbols[0].1)
      case None => Kept(symbols[1..])
      case Some(m) => [m] + Kept(symbols[1..])
  }

  /** The kept columns hold exactly the timestamps of the symbols' series. */
  lemma {:induction false} KeptDates(symbols: seq<(seq<Obs>, seq<Obs>)>)
    ensures ColDates(Kept(symbols)) == SymbolDates(symbols)
  {
    if |symbols| > 0 {
      KeptDates(symbols[1..]);
      match MergeSymbol(symbols[0].0, symbols[0].1)
      case None =>
      case Some(m) =>
        assert ([m] + Kept(symbols[1..]))[1..] == Kept(symbols[1..]);
    }
  }

  /** Timestamp `d` has a value in every column. */
  ghost predicate InEvery(cols: seq<seq<Obs>>, d: int)
  {
    forall c :: 0 <= c < |cols| ==> d in Dates(cols[c])
  }

  /**
   * MarketMonitorv8's period frame: any symbol without data aborts the
   * period; the rest is `concat(..., axis=1).dropna()` cut at the cutoff.
   * The rows are exactly the timestamps at or after the cutoff present in
   * every series, all cells filled; None when there is no such timestamp.
   */
  function AlignedPeriod(cols: seq<seq<Obs>>, cutoff: int): (r: Option<seq<FrameRow>>)
    requires |cols| > 0
    ensures (exists c :: 0 <= c < |cols| && cols[c] == []) ==> r == None
    ensures r == None <==> (exists c :: 0 <= c < |cols| && cols[c] == []) || forall d :: InEvery(cols, d) ==> d < cutoff
    ensures r.Some? ==> forall d :: d in RowDates(r.value) <==> InEvery(cols, d) && d >= cutoff
    ensures r.Some? ==> forall x :: x in r.value ==> Complete(x) && |x.cells| == |cols|
  {
    if exists c :: 0 <= c < |cols| && cols[c] == [] then
      None
    else
      var joined := OuterJoin(cols);
      var inner := DropIncomplete(joined);
      InnerDates(cols, joined, inner);
      var rows := RowsAtOrAfter(inner, cutoff);
      PeriodDates(inner, rows, cutoff);
      EmptyPeriod(rows, (set d | d in RowDates(inner)), cutoff);
      if rows == [] then None else Some(rows)
  }

  lemma InnerDates(cols: seq<seq<Obs>>, joined: seq<FrameRow>, inner: seq<FrameRow>)
    requires |cols| > 0 && joined == OuterJoin(cols) && inner == DropIncomplete(joined)
    ensures forall d :: d in RowDates(inner) <==> InEvery(cols, d)
  {
    forall d ensures d in RowDates(inner) <==> InEvery(cols, d) {
      RowDatesMember(inner, d);
      RowDatesMember(joined, d);
      if InEvery(cols, d) {
        ColDatesHas(cols, 0, d);
        var x :| x in joined && x.date == d;
        forall c | 0 <= c < |cols| ensures x.cells[c].Some? {
          FindSomeIffDate(cols[c], d);
        }
      }
      if d in RowDates(inner) {
        var x :| x in inner && x.date == d;
        forall c | 0 <= c < |cols| ensures d in Dates(cols[c]) {
          FindSomeIffDate(cols[c], d);
          assert x.cells[c].Some?;
        }
      }
    }
  }
}
