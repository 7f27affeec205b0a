/**
 * Sorted sets of dates, as Python builds them with `sorted(set(...) & ...)`
 * and trims them with `[-n:]`.  Dates are day numbers; the scripts' ISO date
 * strings sort in the same order.
 */
module DateSets {

  ghost predicate Increasing(s: seq<int>)
  {
    forall i, j :: 0 <= i < j < |s| ==> s[i] < s[j]
  }

  /** Insert `x` into a strictly increasing sequence, ignoring a duplicate. */
  function Insert(s: seq<int>, x: int): (r: seq<int>)
    requires Increasing(s)
    ensures Increasing(r)
    ensures forall y :: y in r <==> y in s || y == x
  {
    if |s| == 0 then [x]
    else if x < s[0] then [x] + s
    else if x == s[0] then s
    else
      var rest := Insert(s[1..], x);
      assert forall y :: y in s <==> y == s[0] || y in s[1..];
      assert forall k :: 0 <= k < |rest| ==> s[0] < rest[k] by {
        forall k | 0 <= k < |rest|
          ensures s[0] < rest[k]
        {
          assert rest[k] in rest;
          if rest[k] != x {
            var j :| 0 <= j < |s[1..]| && s[1..][j] == rest[k];
            assert s[0] < s[j + 1];
          }
        }
      }
      var r := [s[0]] + rest;
      assert forall i, j :: 0 <= i < j < |r| ==> r[i] < r[j] by {
        forall i, j | 0 <= i < j < |r|
          ensures r[i] < r[j]
        {
          if i > 0 {
            assert r[i] == rest[i - 1] && r[j] == rest[j - 1];
          } else {
            assert r[j] == rest[j - 1];
          }
        }
      }
      r
  }

  /** `sorted(set(xs))`. */
  function SortUnique(xs: seq<int>): (r: seq<int>)
    ensures Increasing(r)
    ensures forall y :: y in r <==> y in xs
  {
    if |xs| == 0 then []
    else
      var r := Insert(SortUnique(xs[..|xs| - 1]), xs[|xs| - 1]);
      assert forall y :: y in xs <==> y in xs[..|xs| - 1] || y == xs[|xs| - 1];
      r
  }

  /** `s[-n:]`: the last n entries; note that `s[-0:]` is the whole list. */
  function TakeLast(s: seq<int>, n: nat): (r: seq<int>)
    ensures |r| == if n == 0 || n >= |s| then |s| else n
    ensures s == s[..|s| - |r|] + r
  {
    if n == 0 || n >= |s| then s else s[|s| - n..]
  }

  /** `sorted(set(a) & set(b) & set(c))`. */
  function Intersect3(a: seq<int>, b: seq<int>, c: seq<int>): (r: seq<int>)
    ensures Increasing(r)
    ensures forall y :: y in r <==> y in a && y in b && y in c
  {
    SortUnique(Common(a, b, c))
  }

  function Common(a: seq<int>, b: seq<int>, c: seq<int>): (r: seq<int>)
    ensures forall y :: y in r <==> y in a && y in b && y in c
  {
    if |a| == 0 then []
    else
      var rest := Common(a[1..], b, c);
      assert forall y :: y in a <==> y == a[0] || y in a[1..];
      if a[0] in b && a[0] in c then [a[0]] + rest else rest
  }

  /**
   * The common dates of three series, trimmed to the last `n` (MarketMonitor
   * v1, v2, v4..v7).  The result is increasing, holds only dates present in
   * all three, keeps at most n of them (all when n is 0), and every common
   * date it drops is older than every date it keeps.
   */
  function CommonDates(a: seq<int>, b: seq<int>, c: seq<int>, n: nat): (r: seq<int>)
    ensures Increasing(r)
    ensures forall y :: y in r ==> y in a && y in b && y in c
    ensures n > 0 ==> |r| <= n
    ensures |r| == n || forall y :: y in a && y in b && y in c ==> y in r
    ensures forall y, z :: y in a && y in b && y in c && y !in r && z in r ==> y < z
  {
    var all := Intersect3(a, b, c);
    TrimOldest(all, n);
    TakeLast(all, n)
  }

  /** Trimming an increasing sequence keeps it increasing and drops only its oldest entries. */
  lemma TrimOldest(all: seq<int>, n: nat)
    requires Increasing(all)
    ensures Increasing(TakeLast(all, n))
    ensures forall y, z :: y in all && y !in TakeLast(all, n) && z in TakeLast(all, n) ==> y < z
  {
    if 0 < n < |all| {
      var k := |all| - n;
      DropOldest(all, k);
    }
  }

  lemma DropOldest(all: seq<int>, k: nat)
    requires Increasing(all) && k <= |all|
    ensures Increasing(all[k..])
    ensures forall y, z :: y in all && y !in all[k..] && z in all[k..] ==> y < z
  {
    var r := all[k..];
    forall y, z | y in all && y !in r && z in r ensures y < z {
      var i :| 0 <= i < |all| && all[i] == y;
      var j :| 0 <= j < |r| && r[j] == z;
      if i >= k {
        assert all[i] == r[i - k];
      }
      assert all[k + j] == z;
    }
  }

  /** The MarketMonitorv1/v2 history length. */
  const HistoryDays: nat := 180
}
