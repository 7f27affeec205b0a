/**
 * The `_is_html` heuristics with which pywa decides whether a script's captured
 * output is an HTML page or plain text. Several revisions search a lower- or
 * upper-cased text for a needle of the other case, which can never match; the
 * contracts below state the rule each revision effectively applies.
 */
module HtmlDetect {
  import opened Text

  /** text[:n]. */
  function Prefix(t: string, n: nat): (r: string)
    ensures |r| <= n && r <= t
    ensures |t| <= n ==> r == t
  {
    if |t| <= n then t else t[..n]
  }

  /** Does some pattern occur in hay? */
  predicate AnyIn(patterns: seq<string>, hay: string)
  {
    exists k :: 0 <= k < |patterns| && Contains(hay, patterns[k])
  }

  /** How many of the patterns occur in hay. */
  function Score(patterns: seq<string>, hay: string): (n: nat)
    ensures n <= |patterns|
    ensures n > 0 <==> AnyIn(patterns, hay)
  {
    if patterns == [] then 0
    else
      var rest := Score(patterns[1..], hay);
      assert forall k :: 1 <= k < |patterns| ==> patterns[k] == patterns[1..][k - 1];
      assert AnyIn(patterns[1..], hay) ==> AnyIn(patterns, hay);
      (if Contains(hay, patterns[0]) then 1 else 0) + rest
  }

  function LowerAll(patterns: seq<string>): (r: seq<string>)
    ensures |r| == |patterns|
    ensures forall k :: 0 <= k < |r| ==> r[k] == Lower(patterns[k])
  {
    seq(|patterns|, k requires 0 <= k < |patterns| => Lower(patterns[k]))
  }

  lemma LowerOfUpper(s: string)
    ensures Lower(Upper(s)) == Lower(s)
  {
    assert forall i :: 0 <= i < |s| ==> LowerChar(UpperChar(s[i])) == LowerChar(s[i]);
  }

  const DoctypeNeedle: string := "<!DOCTYPE html"

  // ---------------------------------------------------------------- pywa_v1p2

  const V1p2Patterns: seq<string> := [
    "<!DOCTYPE", "<html", "<head", "<body", "<div",
    "<script", "<style", "<table", "<svg", "<canvas",
    "margin:", "padding:", "background:", "font-family:",
    "class=", "id=", "href=", "src="
  ]

  /**
   * v1p2 as written: nothing under 50 characters; then the DOCTYPE or <html test on
   * the first 500 characters; then at least 5 of 18 indicators, case-insensitively.
   */
  function IsHtmlV1p2AsWritten(t: string): (r: bool)
    ensures r <==> (|t| >= 50
      && (Contains(Lower(Prefix(t, 500)), "<html") || Score(LowerAll(V1p2Patterns), Lower(t)) >= 5))
  {
    UpperMissesLowerNeedle(Prefix(t, 500), DoctypeNeedle, 10);
    if |t| < 50 then false
    else if Contains(Upper(Prefix(t, 500)), DoctypeNeedle) || Contains(Lower(Prefix(t, 500)), "<html") then true
    else Score(LowerAll(V1p2Patterns), Lower(t)) >= 5
  }

  /** The doctype test as evidently meant: an upper-cased needle for an upper-cased prefix. */
  predicate DoctypePrefix(t: string)
  {
    Contains(Upper(Prefix(t, 500)), Upper(DoctypeNeedle))
  }

  function IsHtmlV1p2(t: string): (r: bool)
    ensures r <==> (|t| >= 50
      && (DoctypePrefix(t) || Contains(Lower(Prefix(t, 500)), "<html") || Score(LowerAll(V1p2Patterns), Lower(t)) >= 5))
  {
    if |t| < 50 then false
    else if DoctypePrefix(t) || Contains(Lower(Prefix(t, 500)), "<html") then true
    else Score(LowerAll(V1p2Patterns), Lower(t)) >= 5
  }

  /** The corrected test accepts everything the written one accepts. */
  lemma V1p2FixOnlyAdds(t: string)
    ensures IsHtmlV1p2AsWritten(t) ==> IsHtmlV1p2(t)
  {
  }

  /** 35 spaces: padding that reaches the 50-character minimum without adding any tag. */
  function Pad(): (p: string)
    ensures |p| == 35 && forall i :: 0 <= i < |p| ==> p[i] == ' '
  {
    seq(35, _ => ' ')
  }

  /** A doctype line padded with spaces: a page header with no other markup. */
  function DoctypeOnly(): string
  {
    "<!DOCTYPE html>" + Pad()
  }

  lemma DoctypeOnlyLower()
    ensures Lower(DoctypeOnly()) == "<!doctype html>" + Pad()
  {
    var s := DoctypeOnly();
    var l := "<!doctype html>" + Pad();
    assert |Lower(s)| == |l|;
    forall i | 0 <= i < |s|
      ensures Lower(s)[i] == l[i]
    {
      if i >= 15 {
        assert s[i] == Pad()[i - 15] && l[i] == Pad()[i - 15];
      }
    }
  }

  /** The characters of the lower-cased doctype line. */
  const DoctypeAlphabet: set<char> := {'<', '!', 'd', 'o', 'c', 't', 'y', 'p', 'e', ' ', 'h', 'm', 'l', '>'}

  predicate InDoctypeAlphabet(l: string)
  {
    forall i :: 0 <= i < |l| ==> l[i] in DoctypeAlphabet
  }

  lemma OutsideAlphabet(l: string, t: string, k: nat)
    requires InDoctypeAlphabet(l) && k < |t| && t[k] !in DoctypeAlphabet
    ensures !Contains(l, t)
  {
    AbsentChar(l, t, k);
  }

  /** Only the first character of the lower-cased doctype line is '<', and '!' follows it. */
  lemma NoHtmlTag(l: string)
    requires |l| > 1 && l[1] == '!'
    requires forall i :: 1 <= i < |l| ==> l[i] != '<'
    ensures !Contains(l, "<html")
  {
    forall i | 0 <= i <= |l|
      ensures !OccursAt(l, "<html", i)
    {
      if i + 5 <= |l| {
        assert l[i..i + 5][0] == l[i] && l[i..i + 5][1] == l[i + 1];
      }
    }
  }

  lemma DoctypeOnlyShape()
    ensures InDoctypeAlphabet(Lower(DoctypeOnly()))
    ensures !Contains(Lower(DoctypeOnly()), "<html")
    ensures OccursAt(Lower(DoctypeOnly()), "<!doctype", 0)
  {
    DoctypeOnlyLower();
    var l := Lower(DoctypeOnly());
    assert l[..9] == "<!doctype";
    NoHtmlTag(l);
  }

  const V1p2Lowered: seq<string> := [
    "<!doctype", "<html", "<head", "<body", "<div",
    "<script", "<style", "<table", "<svg", "<canvas",
    "margin:", "padding:", "background:", "font-family:",
    "class=", "id=", "href=", "src="
  ]

  lemma V1p2LoweredIs()
    ensures LowerAll(V1p2Patterns) == V1p2Lowered
  {
    assert Lower("<!DOCTYPE") == "<!doctype";
    forall k | 1 <= k < 18
      ensures Lower(V1p2Patterns[k]) == V1p2Lowered[k]
    {
      var p := V1p2Patterns[k];
      assert forall i :: 0 <= i < |p| ==> !IsUpper(p[i]);
    }
  }

  /** Every v1p2 indicator except '<!doctype' misses the doctype line. */
  lemma DoctypeOnlyScoresOne()
    ensures Score(LowerAll(V1p2Patterns), Lower(DoctypeOnly())) == 1
  {
    DoctypeOnlyShape();
    V1p2LoweredIs();
    DoctypeLikeScoresOne(Lower(DoctypeOnly()));
  }

  /** A text over the doctype line's characters that starts with '<!doctype' and holds no '<html' scores one. */
  lemma DoctypeLikeScoresOne(l: string)
    requires InDoctypeAlphabet(l) && !Contains(l, "<html") && OccursAt(l, "<!doctype", 0)
    ensures Score(V1p2Lowered, l) == 1
  {
    var ps := V1p2Lowered;
    forall k | 2 <= k < 18
      ensures !Contains(l, ps[k])
    {
      var idx := if k == 2 then 3 else if k == 3 then 1 else if k == 4 then 2 else if k == 5 then 1
        else if k == 6 then 1 else if k == 7 then 2 else if k == 8 then 1 else if k == 9 then 2
        else if k == 10 then 1 else if k == 11 then 1 else if k == 12 then 0 else if k == 13 then 0
        else if k == 14 then 2 else if k == 15 then 0 else if k == 16 then 3 else 0;
      OutsideAlphabet(l, ps[k], idx);
    }
    assert OccursAt(l, ps[0], 0);
    ScoreFromHits(ps, l);
  }

  lemma {:induction false} ScoreFromHits(ps: seq<string>, hay: string)
    requires |ps| == 18
    requires Contains(hay, ps[0])
    requires forall k :: 1 <= k < 18 ==> !Contains(hay, ps[k])
    ensures Score(ps, hay) == 1
  {
    var tail := ps[1..];
    assert forall k :: 0 <= k < |tail| ==> !Contains(hay, tail[k]);
    assert !AnyIn(tail, hay);
  }

  /** A doctype line of at least 50 characters with no other markup: v1p2 as written calls it text. */
  lemma V1p2MissesDoctype()
    ensures |DoctypeOnly()| == 50
    ensures !IsHtmlV1p2AsWritten(DoctypeOnly())
    ensures IsHtmlV1p2(DoctypeOnly())
  {
    var t := DoctypeOnly();
    DoctypeOnlyShape();
    DoctypeOnlyScoresOne();
    assert Prefix(t, 500) == t;
    LowerPrefix(t, 500);
    var u := Upper(t);
    assert u[..14] == "<!DOCTYPE HTML";
    assert Upper(DoctypeNeedle) == "<!DOCTYPE HTML";
    assert OccursAt(u, Upper(DoctypeNeedle), 0);
  }

  lemma LowerPrefix(t: string, n: nat)
    ensures Lower(Prefix(t, n)) == Prefix(Lower(t), n)
  {
  }

  // ---------------------------------------------------------------- pywa_v1p3

  const V1p3Patterns: seq<string> := ["<div", "<span", "<table", "<script", "<style"]

  /** v1p3 as written: the DOCTYPE test again cannot match; at least 2 of 5 tags otherwise. */
  function IsHtmlV1p3AsWritten(t: string): (r: bool)
    ensures r <==> (|t| >= 50
      && (Contains(Lower(Prefix(t, 500)), "<html") || Score(V1p3Patterns, Lower(t)) >= 2))
  {
    UpperMissesLowerNeedle(Prefix(t, 500), DoctypeNeedle, 10);
    if |t| < 50 then false
    else if Contains(Upper(Prefix(t, 500)), DoctypeNeedle) then true
    else if Contains(Lower(Prefix(t, 500)), "<html") then true
    else Score(V1p3Patterns, Lower(t)) >= 2
  }

  function IsHtmlV1p3(t: string): (r: bool)
    ensures r <==> (|t| >= 50
      && (DoctypePrefix(t) || Contains(Lower(Prefix(t, 500)), "<html") || Score(V1p3Patterns, Lower(t)) >= 2))
  {
    if |t| < 50 then false
    else if DoctypePrefix(t) then true
    else if Contains(Lower(Prefix(t, 500)), "<html") then true
    else Score(V1p3Patterns, Lower(t)) >= 2
  }

  lemma V1p3MissesDoctype()
    ensures !IsHtmlV1p3AsWritten(DoctypeOnly())
    ensures IsHtmlV1p3(DoctypeOnly())
  {
    var t := DoctypeOnly();
    V1p2MissesDoctype();
    DoctypeOnlyShape();
    LowerPrefix(t, 500);
    var l := Lower(t);
    OutsideAlphabet(l, V1p3Patterns[0], 2);
    OutsideAlphabet(l, V1p3Patterns[1], 1);
    OutsideAlphabet(l, V1p3Patterns[2], 2);
    OutsideAlphabet(l, V1p3Patterns[3], 1);
    OutsideAlphabet(l, V1p3Patterns[4], 1);
    assert !AnyIn(V1p3Patterns, l);
  }

  // ---------------------------------------------------------------- pywa_v1p4, v1p0, v0p4

  const V1p4Patterns: seq<string> := ["<html", "<!DOCTYPE", "<head", "<body", "<div", "<script"]
  const V1p4Effective: seq<string> := ["<html", "<head", "<body", "<div", "<script"]

  /** v1p4: nothing under 100 characters; otherwise any pattern in the lower-cased text, where '<!DOCTYPE' cannot occur. */
  function IsHtmlV1p4(t: string): (r: bool)
    ensures r <==> |t| >= 100 && AnyIn(V1p4Effective, Lower(t))
  {
    var l := Lower(t);
    LowerMissesUpperNeedle(t, "<!DOCTYPE", 2);
    assert AnyIn(V1p4Patterns, l) <==> AnyIn(V1p4Effective, l) by {
      if AnyIn(V1p4Patterns, l) {
        var k :| 0 <= k < |V1p4Patterns| && Contains(l, V1p4Patterns[k]);
        assert k != 1;
        assert V1p4Patterns[k] == V1p4Effective[if k == 0 then 0 else k - 1];
      }
      if AnyIn(V1p4Effective, l) {
        var k :| 0 <= k < |V1p4Effective| && Contains(l, V1p4Effective[k]);
        assert V1p4Effective[k] == V1p4Patterns[if k == 0 then 0 else k + 1];
      }
    }
    |t| >= 100 && AnyIn(V1p4Patterns, l)
  }

  const V1p0Patterns: seq<string> := [
    "<html", "<!DOCTYPE", "<body", "<head", "<div",
    "<script", "<svg", "<canvas", "<style", "<table",
    "Plotly", "chart", "dashboard"
  ]

  /** v1p0: any non-empty text in which one of 13 patterns occurs, case-insensitively. */
  function IsHtmlV1p0(t: string): (r: bool)
    ensures r ==> t != []
  {
    t != [] && AnyIn(LowerAll(V1p0Patterns), Lower(t))
  }

  /** Case does not matter to v1p0: an upper-cased text is classified like the original. */
  lemma V1p0CaseInsensitive(t: string)
    ensures IsHtmlV1p0(Upper(t)) == IsHtmlV1p0(t)
  {
    LowerOfUpper(t);
  }

  const V0p4Patterns: seq<string> := ["<html", "<!DOCTYPE", "<body", "<head", "<div", "<script", "Plotly.newPlot", "<svg"]
  const V0p4Effective: seq<string> := ["<html", "<body", "<head", "<div", "<script", "<svg"]

  /** v0p4: a search of the lower-cased text for literal patterns, two of which hold capitals and cannot match. */
  function IsHtmlV0p4(t: string): (r: bool)
    ensures r <==> AnyIn(V0p4Effective, Lower(t))
  {
    var l := Lower(t);
    LowerMissesUpperNeedle(t, "<!DOCTYPE", 2);
    LowerMissesUpperNeedle(t, "Plotly.newPlot", 0);
    assert AnyIn(V0p4Patterns, l) <==> AnyIn(V0p4Effective, l) by {
      if AnyIn(V0p4Patterns, l) {
        var k :| 0 <= k < |V0p4Patterns| && Contains(l, V0p4Patterns[k]);
        assert k != 1 && k != 6;
        assert V0p4Patterns[k] == V0p4Effective[if k == 0 then 0 else if k < 6 then k - 1 else 5];
      }
      if AnyIn(V0p4Effective, l) {
        var k :| 0 <= k < |V0p4Effective| && Contains(l, V0p4Effective[k]);
        assert V0p4Effective[k] == V0p4Patterns[if k == 0 then 0 else if k < 5 then k + 1 else 7];
      }
    }
    AnyIn(V0p4Patterns, l)
  }

  /** Case does not matter to v1p4 and v0p4 either. */
  lemma LowerCasedRulesIgnoreCase(t: string)
    ensures IsHtmlV1p4(Upper(t)) == IsHtmlV1p4(t)
    ensures IsHtmlV0p4(Upper(t)) == IsHtmlV0p4(t)
  {
    LowerOfUpper(t);
  }
}
