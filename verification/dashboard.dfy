/**
 * The last stage of every SectorIndex revision's generate_dashboard: sectors
 * whose series is too short are skipped, and the rest are ordered by one
 * number taken from the series' last row (alpha in v12, relative performance
 * before). Python's list.sort is stable, also with reverse=True, so the model
 * is a stable sort by a real rank, with a descending order written as an
 * ascending order of the negated key.
 */
module Dashboard {
  import opened Wrappers

  datatype Version = V12 | V9 | V7Pre | V6 | V4 | V3 | V2 | V1

  /** One analysed sector: its name, how many bars it has and the sort field of its last row. */
  datatype Sector = Sector(name: string, bars: nat, key: Option<real>)

  /** An entry of the list being sorted, with the rank it is sorted by. */
  datatype Item = Item(name: string, rank: real)

  /** v2 sorts a missing relative performance as this value. */
  const MissingRank: real := -9999.0

  /** Fewest bars a sector needs to be shown; v1 has no skip rule. */
  function MinBars(v: Version): (m: nat)
    ensures v == V1 <==> m == 0
    ensures m in {0, 20, 100}
  {
    match v
    case V12 | V9 | V7Pre | V6 | V4 => 100
    case V3 | V2 => 20
    case V1 => 0
  }

  predicate Descending(v: Version)
  {
    v in {V6, V4, V3, V2, V1}
  }

  /**
   * A sector survives the skip rule when its series is non-empty and has at least
   * MinBars bars. v1 has no skip rule, but reads the last row of every series and
   * so fails on an empty one (see ShowSectors' precondition).
   */
  predicate Shown(v: Version, s: Sector)
  {
    s.bars > 0 && s.bars >= MinBars(v)
  }

  /** Only v2 replaces a missing sort field; the other revisions need it present. */
  predicate Keyed(v: Version, s: Sector)
  {
    v == V2 || s.key.Some?
  }

  function RankOf(v: Version, s: Sector): (r: real)
    requires Keyed(v, s)
    ensures s.key.Some? && !Descending(v) ==> r == s.key.value
    ensures s.key.Some? && Descending(v) ==> r == -s.key.value
    ensures s.key.None? ==> v == V2 && r == -MissingRank
  {
    var k := if s.key.Some? then s.key.value else MissingRank;
    if Descending(v) then -k else k
  }

  predicate SortedByRank(s: seq<Item>)
  {
    forall i, j :: 0 <= i < j < |s| ==> s[i].rank <= s[j].rank
  }

  /** The items of s whose rank is r, in their order in s. */
  function WithRank(s: seq<Item>, r: real): (t: seq<Item>)
    ensures |t| <= |s|
    ensures forall k :: 0 <= k < |t| ==> t[k].rank == r && t[k] in s
  {
    if s == [] then []
    else WithRank(s[..|s| - 1], r) + (if s[|s| - 1].rank == r then [s[|s| - 1]] else [])
  }

  /** Places x after every item of t whose rank is not larger, as a stable sort does. */
  function Insert(t: seq<Item>, x: Item): (u: seq<Item>)
    ensures |u| == |t| + 1
  {
    if t == [] || t[|t| - 1].rank <= x.rank then t + [x]
    else Insert(t[..|t| - 1], x) + [t[|t| - 1]]
  }

  /** Insertion sort, taking the items front to back. */
  function Sort(s: seq<Item>): (t: seq<Item>)
    ensures |t| == |s|
  {
    if s == [] then [] else Insert(Sort(s[..|s| - 1]), s[|s| - 1])
  }

  lemma {:induction false} InsertSorted(t: seq<Item>, x: Item)
    requires SortedByRank(t)
    ensures SortedByRank(Insert(t, x))
    ensures forall k :: 0 <= k < |Insert(t, x)| ==> Insert(t, x)[k] == x || Insert(t, x)[k] in t
  {
    if t == [] || t[|t| - 1].rank <= x.rank {
    } else {
      var last := t[|t| - 1];
      var front := t[..|t| - 1];
      assert SortedByRank(front);
      InsertSorted(front, x);
      var v := Insert(front, x);
      var u := v + [last];
      assert Insert(t, x) == u;
      forall k | 0 <= k < |v|
        ensures v[k].rank <= last.rank
      {
        if v[k] != x {
          var m :| 0 <= m < |front| && front[m] == v[k];
          assert front[m] == t[m];
        }
      }
      forall k | 0 <= k < |u|
        ensures u[k] == x || u[k] in t
      {
        if k < |v| && v[k] != x {
          var m :| 0 <= m < |front| && front[m] == v[k];
          assert t[m] == v[k];
        }
      }
    }
  }

  lemma {:induction false} InsertPermutes(t: seq<Item>, x: Item)
    ensures multiset(Insert(t, x)) == multiset(t) + multiset{x}
  {
    if t == [] || t[|t| - 1].rank <= x.rank {
    } else {
      InsertPermutes(t[..|t| - 1], x);
      assert t == t[..|t| - 1] + [t[|t| - 1]];
    }
  }

  lemma {:induction false} InsertStable(t: seq<Item>, x: Item, r: real)
    requires SortedByRank(t)
    ensures WithRank(Insert(t, x), r) == WithRank(t + [x], r)
  {
    if t == [] || t[|t| - 1].rank <= x.rank {
    } else {
      var front := t[..|t| - 1];
      var last := t[|t| - 1];
      assert SortedByRank(front);
      InsertStable(front, x, r);
      var v := Insert(front, x);
      assert (v + [last])[..|v + [last]| - 1] == v;
      assert WithRank(Insert(t, x), r) == WithRank(v, r) + (if last.rank == r then [last] else []);
      assert (front + [x])[..|front + [x]| - 1] == front;
      assert (t + [x])[..|t + [x]| - 1] == t;
      assert WithRank(t, r) == WithRank(front, r) + (if last.rank == r then [last] else []);
      // last outranks x here, so at most one of them carries rank r
      assert x.rank < last.rank;
      if last.rank == r {
        assert x.rank != r;
      }
    }
  }

  /** Sort orders by rank. */
  lemma {:induction false} SortSorted(s: seq<Item>)
    ensures SortedByRank(Sort(s))
  {
    if s != [] {
      SortSorted(s[..|s| - 1]);
      InsertSorted(Sort(s[..|s| - 1]), s[|s| - 1]);
    }
  }

  /** Sort keeps every item, each as often as it occurs. */
  lemma {:induction false} SortPermutes(s: seq<Item>)
    ensures multiset(Sort(s)) == multiset(s)
  {
    if s != [] {
      var front := s[..|s| - 1];
      SortPermutes(front);
      InsertPermutes(Sort(front), s[|s| - 1]);
      assert s == front + [s[|s| - 1]];
    }
  }

  /** Sort keeps items of equal rank in their input order. */
  lemma {:induction false} SortStable(s: seq<Item>, r: real)
    ensures WithRank(Sort(s), r) == WithRank(s, r)
  {
    if s != [] {
      var front := s[..|s| - 1];
      var x := s[|s| - 1];
      SortStable(front, r);
      SortSorted(front);
      InsertStable(Sort(front), x, r);
      assert (Sort(front) + [x])[..|Sort(front) + [x]| - 1] == Sort(front);
    }
  }

  /** The shown sectors as sort items, in their configured order. */
  function Candidates(v: Version, sectors: seq<Sector>): (c: seq<Item>)
    requires forall i :: 0 <= i < |sectors| && Shown(v, sectors[i]) ==> Keyed(v, sectors[i])
    ensures |c| <= |sectors|
  {
    if |sectors| == 0 then []
    else
      var s := sectors[|sectors| - 1];
      Candidates(v, sectors[..|sectors| - 1])
        + (if Shown(v, s) then [Item(s.name, RankOf(v, s))] else [])
  }

  /**
   * The dashboard's sector order: skip, then a stable sort. v1 reads the last row
   * of every series without a skip test, so it needs every series non-empty.
   */
  function ShowSectors(v: Version, sectors: seq<Sector>): (r: seq<Item>)
    requires forall i :: 0 <= i < |sectors| && Shown(v, sectors[i]) ==> Keyed(v, sectors[i])
    requires v == V1 ==> forall i :: 0 <= i < |sectors| ==> sectors[i].bars > 0
    ensures SortedByRank(r)
    ensures multiset(r) == multiset(Candidates(v, sectors))
  {
    var c := Candidates(v, sectors);
    SortSorted(c);
    SortPermutes(c);
    Sort(c)
  }

  predicate NameListed(c: seq<Item>, name: string)
  {
    exists k :: 0 <= k < |c| && c[k].name == name
  }

  predicate NameShown(v: Version, sectors: seq<Sector>, name: string)
  {
    exists i :: 0 <= i < |sectors| && sectors[i].name == name && Shown(v, sectors[i])
  }

  /** Exactly the sectors passing the skip rule become candidates. */
  lemma {:induction false} CandidatesAreShown(v: Version, sectors: seq<Sector>, name: string)
    requires forall i :: 0 <= i < |sectors| && Shown(v, sectors[i]) ==> Keyed(v, sectors[i])
    ensures NameListed(Candidates(v, sectors), name) <==> NameShown(v, sectors, name)
  {
    if |sectors| > 0 {
      var front := sectors[..|sectors| - 1];
      assert forall i :: 0 <= i < |front| ==> front[i] == sectors[i];
      CandidatesAreShown(v, front, name);
      ListedStep(v, sectors, name);
      ShownStep(v, sectors, name);
    }
  }

  /** The candidates of a list are its front's, then its last sector's if that one is shown. */
  lemma ListedStep(v: Version, sectors: seq<Sector>, name: string)
    requires |sectors| > 0
    requires forall i :: 0 <= i < |sectors| && Shown(v, sectors[i]) ==> Keyed(v, sectors[i])
    ensures var s := sectors[|sectors| - 1];
      NameListed(Candidates(v, sectors), name) <==>
      NameListed(Candidates(v, sectors[..|sectors| - 1]), name) || (Shown(v, s) && s.name == name)
  {
    var s := sectors[|sectors| - 1];
    var p := Candidates(v, sectors[..|sectors| - 1]);
    var tail := if Shown(v, s) then [Item(s.name, RankOf(v, s))] else [];
    var c := Candidates(v, sectors);
    assert c == p + tail;
    if NameListed(c, name) {
      var k :| 0 <= k < |c| && c[k].name == name;
      if k < |p| {
        assert c[k] == p[k];
      }
    }
    if NameListed(p, name) {
      var k :| 0 <= k < |p| && p[k].name == name;
      assert c[k] == p[k];
    }
    if Shown(v, s) && s.name == name {
      assert c[|p|].name == name;
    }
  }

  lemma ShownStep(v: Version, sectors: seq<Sector>, name: string)
    requires |sectors| > 0
    ensures var s := sectors[|sectors| - 1];
      NameShown(v, sectors, name) <==>
      NameShown(v, sectors[..|sectors| - 1], name) || (Shown(v, s) && s.name == name)
  {
    var front := sectors[..|sectors| - 1];
    if NameShown(v, sectors, name) {
      var i :| 0 <= i < |sectors| && sectors[i].name == name && Shown(v, sectors[i]);
      if i < |front| {
        assert front[i] == sectors[i];
      }
    }
    if NameShown(v, front, name) {
      var i :| 0 <= i < |front| && front[i].name == name && Shown(v, front[i]);
      assert sectors[i] == front[i];
    }
  }

  /** The order is stable: sectors with the same rank appear in their configured order. */
  lemma ShowSectorsStable(v: Version, sectors: seq<Sector>, r: real)
    requires forall i :: 0 <= i < |sectors| && Shown(v, sectors[i]) ==> Keyed(v, sectors[i])
    requires v == V1 ==> forall i :: 0 <= i < |sectors| ==> sectors[i].bars > 0
    ensures WithRank(ShowSectors(v, sectors), r) == WithRank(Candidates(v, sectors), r)
  {
    SortStable(Candidates(v, sectors), r);
  }
}
