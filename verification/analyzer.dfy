/**
 * The page helpers of pywa v0p2 and v0p3 that sit on top of PythonAnalyzer:
 * app-type guess, entry-point choice, description, code preview, and the page
 * and navigation lists. The ast walk itself is not modelled: what it found is
 * the Facts record.
 */
module Analyzer {
  import opened Wrappers
  import opened Text

  /** What analyze() collected: the module docstring, function names in walk order, and the class and variable counts. */
  datatype Facts = Facts(docstring: Option<string>, functions: seq<string>, classes: nat, variables: nat, hasInput: bool)

  // ---------------------------------------------------------------- v0p2: has_gui

  const GuiWords: seq<string> := ["gui", "ui", "window", "app", "main"]

  predicate GuiName(name: string)
  {
    exists w :: w in GuiWords && Contains(Lower(name), w)
  }

  /** has_gui: set by the walk as soon as one function name, lower-cased, holds one of the GUI words. */
  function HasGui(names: seq<string>): (r: bool)
    ensures r <==> exists k :: 0 <= k < |names| && GuiName(names[k])
  {
    if names == [] then false
    else if GuiName(names[0]) then true
    else
      var r := HasGui(names[1..]);
      assert forall k :: 1 <= k < |names| ==> names[k] == names[1..][k - 1];
      r
  }

  // ---------------------------------------------------------------- guess_app_type

  /** v0p2: classes, then more than three functions, then input(), then a GUI-like name. */
  function AppTypeV0p2(f: Facts): (t: string)
    ensures t in {"class-based", "multi-function", "interactive", "gui", "simple"}
    ensures t == "class-based" <==> f.classes > 0
    ensures t == "multi-function" <==> f.classes == 0 && |f.functions| > 3
    ensures t == "simple" <==> f.classes == 0 && |f.functions| <= 3 && !f.hasInput && !HasGui(f.functions)
  {
    if f.classes > 0 then "class-based"
    else if |f.functions| > 3 then "multi-function"
    else if f.hasInput then "interactive"
    else if HasGui(f.functions) then "gui"
    else "simple"
  }

  /** v0p3: classes, then more than five functions, then input(); there is no GUI type. */
  function AppTypeV0p3(f: Facts): (t: string)
    ensures t in {"Object-oriented", "Multi-function", "Interactive", "Simple"}
    ensures t == "Object-oriented" <==> f.classes > 0
    ensures t == "Multi-function" <==> f.classes == 0 && |f.functions| > 5
    ensures t == "Simple" <==> f.classes == 0 && |f.functions| <= 5 && !f.hasInput
  {
    if f.classes > 0 then "Object-oriented"
    else if |f.functions| > 5 then "Multi-function"
    else if f.hasInput then "Interactive"
    else "Simple"
  }

  /**
   * The two revisions agree where their rules overlap: a class-based app is
   * object-oriented, a v0p3 multi-function app is multi-function in v0p2 too, and
   * v0p3 calls an app simple only when v0p2 calls it simple or gui.
   */
  lemma AppTypesAgree(f: Facts)
    ensures AppTypeV0p2(f) == "class-based" <==> AppTypeV0p3(f) == "Object-oriented"
    ensures AppTypeV0p3(f) == "Multi-function" ==> AppTypeV0p2(f) == "multi-function"
    ensures AppTypeV0p3(f) == "Simple" ==> AppTypeV0p2(f) in {"simple", "gui", "multi-function"}
    ensures AppTypeV0p2(f) == "interactive" ==> AppTypeV0p3(f) == "Interactive"
  {
  }

  // ---------------------------------------------------------------- get_main_function

  const MainNamesV0p2: set<string> := {"main", "run", "start", "app", "gui"}
  const MainNamesV0p3: set<string> := {"main", "run", "start", "app"}

  /** The first position at or after from whose lower-cased name is an entry-point name. */
  function FirstNamed(names: seq<string>, mains: set<string>, from: nat): (r: Option<nat>)
    requires from <= |names|
    ensures r.Some? ==>
      (from <= r.value < |names| && Lower(names[r.value]) in mains
      && forall j :: from <= j < r.value ==> Lower(names[j]) !in mains)
    ensures r.None? ==> forall j :: from <= j < |names| ==> Lower(names[j]) !in mains
    decreases |names| - from
  {
    if from == |names| then None
    else if Lower(names[from]) in mains then Some(from)
    else FirstNamed(names, mains, from + 1)
  }

  /** get_main_function, as the position of the function it returns: the first entry-point name, else the first function, else None. */
  function MainFunction(names: seq<string>, mains: set<string>): (r: Option<nat>)
    ensures r.None? <==> names == []
    ensures r.Some? ==> r.value < |names|
    ensures (exists k :: 0 <= k < |names| && Lower(names[k]) in mains) ==>
      (r.Some? && Lower(names[r.value]) in mains && forall j :: 0 <= j < r.value ==> Lower(names[j]) !in mains)
    ensures (forall k :: 0 <= k < |names| ==> Lower(names[k]) !in mains) && names != [] ==> r == Some(0)
  {
    match FirstNamed(names, mains, 0)
    case Some(k) => Some(k)
    case None => if names == [] then None else Some(0)
  }

  /** "gui" is the only name v0p2 adds; where neither picks it, the revisions pick the same function. */
  lemma MainFunctionsAgree(names: seq<string>)
    requires forall k :: 0 <= k < |names| ==> Lower(names[k]) != "gui"
    ensures MainFunction(names, MainNamesV0p2) == MainFunction(names, MainNamesV0p3)
  {
    assert forall k :: 0 <= k < |names| ==> (Lower(names[k]) in MainNamesV0p2 <==> Lower(names[k]) in MainNamesV0p3);
  }

  // ---------------------------------------------------------------- decimal text and joins

  function DigitChar(d: nat): (c: char)
    requires d < 10
    ensures '0' <= c <= '9'
  {
    ('0' as int + d) as char
  }

  predicate AllDigits(s: string)
  {
    forall i :: 0 <= i < |s| ==> '0' <= s[i] <= '9'
  }

  /** str(n) for a count. */
  function NatToString(n: nat): (r: string)
    ensures |r| >= 1 && AllDigits(r)
  {
    if n < 10 then [DigitChar(n)] else NatToString(n / 10) + [DigitChar(n % 10)]
  }

  function ParseDigits(s: string): nat
    requires AllDigits(s)
  {
    if s == [] then 0 else ParseDigits(s[..|s| - 1]) * 10 + (s[|s| - 1] as int - '0' as int)
  }

  /** The printed count reads back as the count. */
  lemma {:induction false} NatToStringRoundTrip(n: nat)
    ensures ParseDigits(NatToString(n)) == n
  {
    if n >= 10 {
      NatToStringRoundTrip(n / 10);
      var s := NatToString(n);
      assert s[..|s| - 1] == NatToString(n / 10);
    }
  }

  /** The first line of a docstring (docstring.split('\n')[0]). */
  function FirstLine(s: string): (r: string)
    ensures r <= s && forall i :: 0 <= i < |r| ==> r[i] != '\n'
  {
    s[..LineLength(s)]
  }

  // ---------------------------------------------------------------- generate_description

  /** The description parts of v0p3, in order: first docstring line, then the non-zero counts. */
  function DescriptionParts(f: Facts): (parts: seq<string>)
    ensures |parts| == (if f.docstring.Some? && f.docstring.value != "" then 1 else 0)
      + (if f.functions != [] then 1 else 0) + (if f.classes > 0 then 1 else 0) + (if f.variables > 0 then 1 else 0)
  {
    (if f.docstring.Some? && f.docstring.value != "" then [FirstLine(f.docstring.value)] else [])
    + (if f.functions != [] then [NatToString(|f.functions|) + " functions"] else [])
    + (if f.classes > 0 then [NatToString(f.classes) + " classes"] else [])
    + (if f.variables > 0 then [NatToString(f.variables) + " variables"] else [])
  }

  const Bullet: string := " • "

  /** generate_description of v0p3: the parts joined by a bullet, or a fixed text when there are none. */
  function DescriptionV0p3(f: Facts): (d: string)
    ensures (f.docstring.None? || f.docstring.value == "") && f.functions == [] && f.classes == 0 && f.variables == 0
      ==> d == "Python application"
  {
    var parts := DescriptionParts(f);
    if parts == [] then "Python application" else Join(parts, Bullet)
  }

  /** A file with no docstring and only functions is described by its function count alone. */
  lemma DescribesFunctionCount(f: Facts)
    requires f.docstring.None? && f.functions != [] && f.classes == 0 && f.variables == 0
    ensures DescriptionV0p3(f) == NatToString(|f.functions|) + " functions"
    ensures ParseDigits(DescriptionV0p3(f)[..|NatToString(|f.functions|)|]) == |f.functions|
  {
    var d := DescriptionV0p3(f);
    assert DescriptionParts(f) == [NatToString(|f.functions|) + " functions"];
    assert d[..|NatToString(|f.functions|)|] == NatToString(|f.functions|);
    NatToStringRoundTrip(|f.functions|);
  }

  // ---------------------------------------------------------------- _get_code_preview

  const PreviewLines: nat := 30
  const TruncatedMark: string := "# ... (truncated)"

  /** The first thirty lines, and a marker line when more were cut off (v0p2 and v0p3 alike). */
  function CodePreview(source: string): (r: string)
    ensures |SplitLines(source)| <= PreviewLines ==> r == source
    ensures |SplitLines(source)| > PreviewLines ==>
      exists cut :: cut + "\n" <= source && r == cut + "\n" + TruncatedMark
  {
    var lines := SplitLines(source);
    SplitLinesRoundTrip(source);
    if |lines| > PreviewLines then
      var shown := lines[..PreviewLines] + [TruncatedMark];
      JoinSplitAt(shown, "\n", PreviewLines);
      assert shown[..PreviewLines] == lines[..PreviewLines];
      assert shown[PreviewLines..] == [TruncatedMark];
      JoinSplitAt(lines, "\n", PreviewLines);
      var cut := Join(lines[..PreviewLines], "\n");
      assert source == cut + "\n" + Join(lines[PreviewLines..], "\n");
      assert cut + "\n" <= source;
      Join(shown, "\n")
    else Join(lines, "\n")
  }

  // ---------------------------------------------------------------- pages and navigation

  datatype Page = Page(id: string, title: string)
  datatype NavItem = NavItem(caption: string, page: string)

  /** generate_pages of v0p2, in the dict's insertion order. */
  function PagesV0p2(f: Facts): seq<Page>
  {
    [Page("home", "Home")]
    + (if f.functions != [] then [Page("functions", "Functions")] else [])
    + (if f.hasInput then [Page("interactive", "Interactive")] else [])
    + [Page("about", "About")]
  }

  /** generate_navigation of v0p2. */
  function NavV0p2(f: Facts): seq<NavItem>
  {
    [NavItem("Home", "home")]
    + (if f.functions != [] then [NavItem("Functions", "functions")] else [])
    + (if f.hasInput then [NavItem("Interactive", "interactive")] else [])
    + [NavItem("About", "about")]
  }

  /** v0p3 asks generate_interactive_page, which is None exactly when input() is not used. */
  function InteractivePage(f: Facts): (r: Option<string>)
    ensures r.Some? <==> f.hasInput
  {
    if f.hasInput then Some("Interactive Console") else None
  }

  function PagesV0p3(f: Facts): seq<Page>
  {
    [Page("home", "Home")]
    + (if f.functions != [] then [Page("functions", "Functions")] else [])
    + (if InteractivePage(f).Some? then [Page("interactive", "Console")] else [])
    + [Page("source", "Source"), Page("about", "About")]
  }

  function NavV0p3(f: Facts): seq<NavItem>
  {
    [NavItem("Home", "home")]
    + (if f.functions != [] then [NavItem("Functions", "functions")] else [])
    + (if f.hasInput then [NavItem("Console", "interactive")] else [])
    + [NavItem("Source", "source"), NavItem("About", "about")]
  }

  function PageIds(pages: seq<Page>): (ids: seq<string>)
    ensures |ids| == |pages| && forall k :: 0 <= k < |pages| ==> ids[k] == pages[k].id
  {
    seq(|pages|, k requires 0 <= k < |pages| => pages[k].id)
  }

  function NavTargets(nav: seq<NavItem>): (ids: seq<string>)
    ensures |ids| == |nav| && forall k :: 0 <= k < |nav| ==> ids[k] == nav[k].page
  {
    seq(|nav|, k requires 0 <= k < |nav| => nav[k].page)
  }

  /** Every navigation entry leads to a generated page, in the pages' own order, in v0p2. */
  lemma NavMatchesPagesV0p2(f: Facts)
    ensures NavTargets(NavV0p2(f)) == PageIds(PagesV0p2(f))
    ensures PageIds(PagesV0p2(f))[0] == "home" && PageIds(PagesV0p2(f))[|PagesV0p2(f)| - 1] == "about"
    ensures "functions" in PageIds(PagesV0p2(f)) <==> f.functions != []
    ensures "interactive" in PageIds(PagesV0p2(f)) <==> f.hasInput
  {
    var ids := PageIds(PagesV0p2(f));
    assert ids == ["home"] + (if f.functions != [] then ["functions"] else [])
      + (if f.hasInput then ["interactive"] else []) + ["about"];
  }

  /** The same for v0p3, where the pages ask for the console page and the navigation asks has_input. */
  lemma NavMatchesPagesV0p3(f: Facts)
    ensures NavTargets(NavV0p3(f)) == PageIds(PagesV0p3(f))
    ensures "functions" in PageIds(PagesV0p3(f)) <==> f.functions != []
    ensures "interactive" in PageIds(PagesV0p3(f)) <==> f.hasInput
    ensures PageIds(PagesV0p3(f))[|PagesV0p3(f)| - 2..] == ["source", "about"]
  {
    var ids := PageIds(PagesV0p3(f));
    assert ids == ["home"] + (if f.functions != [] then ["functions"] else [])
      + (if f.hasInput then ["interactive"] else []) + ["source", "about"];
  }
}
