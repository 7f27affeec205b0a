/**
 * HTMLOptimizer.optimize: the meta/style block goes into the page's head and a
 * theme class onto its body element. The block itself (meta tags and the themed
 * CSS) is a parameter: only where it lands is modelled.
 */
module HtmlInject {
  import opened Wrappers
  import opened Text

  /** r is s with x inserted at position p and nothing else changed. */
  predicate InsertedAt(r: string, s: string, x: string, p: nat)
  {
    p <= |s| && r == s[..p] + x + s[p..]
  }

  /** The block goes right after the first "<head>"; a page without one gets a head element in front. */
  function InjectHead(html: string, block: string): (r: string)
    ensures Contains(html, "<head>") ==> InsertedAt(r, html, block, Find(html, "<head>").value + 6)
    ensures !Contains(html, "<head>") ==> r == "<head>" + block + "</head>" + html
  {
    match Find(html, "<head>")
    case Some(i) =>
      var r := ReplaceFirst(html, "<head>", "<head>" + block);
      ReplaceFirstAtFind(html, "<head>", "<head>" + block, i);
      SpliceAfter(html, "<head>", block, i);
      r
    case None => "<head>" + block + "</head>" + html
  }

  /** Either way the page is kept whole: the result is the page with one piece inserted. */
  lemma InjectHeadKeepsPage(html: string, block: string)
    ensures exists x, p :: InsertedAt(InjectHead(html, block), html, x, p) && Contains(x, block)
  {
    var r := InjectHead(html, block);
    if Contains(html, "<head>") {
      assert OccursAt(block, block, 0);
      assert InsertedAt(r, html, block, Find(html, "<head>").value + 6);
    } else {
      var x := "<head>" + block + "</head>";
      ContainsPiece("<head>", block, "</head>");
      assert html[..0] == [] && html[0..] == html;
      assert r == html[..0] + x + html[0..];
      assert InsertedAt(r, html, x, 0);
    }
  }

  // ---------------------------------------------------------------- pywa_pre

  /** The presets whose body also carries the automatic dark-mode class. */
  const AutoDarkThemes: set<string> := {"light", "nature", "ocean", "sunset"}

  /**
   * f"pywa-theme-{theme} {auto_dark_class}".strip(): the theme name with
   * its trailing whitespace dropped, and the dark-mode class for the presets.
   */
  function BodyClassPre(theme: string): (cls: string)
    ensures theme in AutoDarkThemes ==> cls == "pywa-theme-" + theme + " pywa-auto-dark"
    ensures theme !in AutoDarkThemes ==> cls == "pywa-theme-" + TrimEnd(theme)
    ensures theme != [] && !IsSpace(theme[|theme| - 1]) && theme !in AutoDarkThemes ==> cls == "pywa-theme-" + theme
  {
    var autoDark := if theme in AutoDarkThemes then "pywa-auto-dark" else "";
    var raw := "pywa-theme-" + theme + " " + autoDark;
    if theme in AutoDarkThemes then
      StripTrimmed(raw);
      Strip(raw)
    else
      assert raw == "pywa-theme-" + (theme + " ");
      StripAfter("pywa-theme-", theme + " ");
      TrimSpaceAfter(theme);
      Strip(raw)
  }

  /** The class attribute pywa_pre gives a bare body tag. */
  function ClassAttrPre(cls: string): string
  {
    " class=\"" + cls + "\""
  }

  /** The class attribute pywa_pre puts in front of the attributes of a "<body " tag. */
  function LeadingClassPre(cls: string): string
  {
    "class=\"" + cls + "\" "
  }

  /**
   * The class goes into the first bare "<body>"; failing that, into the first
   * "<body " that a '>' closes (re.sub of `<body ([^>]*)>`, count 1). A later
   * "<body " cannot be closed when the first one is not, so only the first is tried.
   */
  function InjectBodyPre(html: string, cls: string): (r: string)
    ensures Contains(html, "<body>") ==>
      InsertedAt(r, html, ClassAttrPre(cls), Find(html, "<body>").value + 5)
    ensures !Contains(html, "<body>") && Contains(html, "<body ") ==>
      var i := Find(html, "<body ").value;
      (if FindFrom(html, ">", i + 6).Some?
       then InsertedAt(r, html, LeadingClassPre(cls), i + 6)
       else r == html)
    ensures !Contains(html, "<body>") && !Contains(html, "<body ") ==> r == html
  {
    match Find(html, "<body>")
    case Some(i) => html[..i + 5] + ClassAttrPre(cls) + html[i + 5..]
    case None =>
      match Find(html, "<body ")
      case None => html
      case Some(i) =>
        match FindFrom(html, ">", i + 6)
        case None => html
        case Some(_) => html[..i + 6] + LeadingClassPre(cls) + html[i + 6..]
  }

  /** Inserting an attribute right after the first "<body" of a bare "<body>" leaves that tag carrying it. */
  lemma BodyTagMarked(html: string, r: string, attr: string)
    requires Contains(html, "<body>") && InsertedAt(r, html, attr, Find(html, "<body>").value + 5)
    ensures Contains(r, "<body" + attr + ">")
  {
    var i := Find(html, "<body>").value;
    var tag := "<body" + attr + ">";
    assert html[i..i + 6] == "<body>";
    var pre, post := html[..i], html[i + 6..];
    assert html[..i + 5] == pre + "<body";
    assert html[i + 5..] == ">" + post;
    assert r == (pre + "<body") + attr + (">" + post);
    assert r == pre + tag + post;
    ContainsPiece(pre, tag, post);
  }

  /** optimize in pywa_pre: the head block first, then the body class, which a bare body tag always receives. */
  function OptimizePre(html: string, block: string, theme: string): (r: string)
    ensures Contains(InjectHead(html, block), "<body>") ==>
      Contains(r, "<body" + ClassAttrPre(BodyClassPre(theme)) + ">")
  {
    var headed := InjectHead(html, block);
    var cls := BodyClassPre(theme);
    var r := InjectBodyPre(headed, cls);
    if Contains(headed, "<body>") then
      BodyTagMarked(headed, r, ClassAttrPre(cls));
      r
    else r
  }

  // ---------------------------------------------------------------- pywa_v0p4

  /** The head element v0p4 puts in a page that has an html tag but no "<head>". */
  function HeadElement(block: string): string
  {
    "\n<head>" + block + "</head>"
  }

  /** A page with neither "<head>" nor "<html" is wrapped in a whole document around a body holding it. */
  function WrapDocument(html: string, block: string): string
  {
    "<!DOCTYPE html>\n<html>" + HeadElement(block) + "\n<body>" + html + "</body>\n</html>"
  }

  /** The position just past the '>' closing the first "<html" tag, if it is closed. */
  function HtmlTagEnd(html: string): (r: Option<nat>)
    ensures r.Some? ==> Contains(html, "<html") && Find(html, "<html").value + 5 < r.value <= |html| && html[r.value - 1] == '>'
    ensures r.Some? ==> forall j :: Find(html, "<html").value + 5 <= j < r.value - 1 ==> html[j] != '>'
  {
    match Find(html, "<html")
    case None => None
    case Some(i) =>
      match FindFrom(html, ">", i + 5)
      case None => None
      case Some(g) =>
        assert html[g..g + 1] == ">";
        assert forall j :: i + 5 <= j < g ==> html[j] != '>' by {
          forall j | i + 5 <= j < g
            ensures html[j] != '>'
          {
            assert !OccursAt(html, ">", j);
            assert html[j..j + 1] == [html[j]];
          }
        }
        Some(g + 1)
  }

  /**
   * v0p4's head step as written: with an html tag and no "<head>", the text
   * "<html" is replaced by "<html>" and the head element, so the tag's own
   * remainder (its attributes and closing '>') is left behind after "</head>".
   */
  function InjectHeadV0p4AsWritten(html: string, block: string): (r: string)
    ensures Contains(html, "<head>") ==> r == InjectHead(html, block)
    ensures !Contains(html, "<head>") && Contains(html, "<html") ==>
      var i := Find(html, "<html").value;
      r == html[..i] + "<html>" + HeadElement(block) + html[i + 5..]
    ensures !Contains(html, "<head>") && !Contains(html, "<html") ==> r == WrapDocument(html, block)
  {
    if Contains(html, "<head>") then InjectHead(html, block)
    else
      match Find(html, "<html")
      case Some(i) => html[..i] + "<html>" + HeadElement(block) + html[i + 5..]
      case None => WrapDocument(html, block)
  }

  /** Whenever the first html tag is a plain "<html>", the as-written step leaves a stray '>' after the head. */
  lemma AsWrittenStrayBracket(html: string, block: string)
    requires !Contains(html, "<head>") && Contains(html, "<html")
    requires Find(html, "<html").value + 5 < |html| && html[Find(html, "<html").value + 5] == '>'
    ensures Contains(InjectHeadV0p4AsWritten(html, block), "</head>>")
  {
    var i := Find(html, "<html").value;
    var front := html[..i] + "<html>" + HeadElement(block);
    var rest := html[i + 5..];
    assert HeadElement(block)[|HeadElement(block)| - 7..] == "</head>";
    assert front[|front| - 7..] == "</head>";
    assert rest[..1] == ">";
    ContainsAcross(front, rest, "</head>", ">");
    assert "</head>" + ">" == "</head>>";
  }

  /** The input that shows it: a page holding `<html><body>x</body></html>` and no head element. */
  const PlainPage: string := "<html><body>x</body></html>"

  lemma StrayBracketExample()
    ensures Contains(InjectHeadV0p4AsWritten(PlainPage, ""), "</head>>")
  {
    AbsentChar(PlainPage, "<head>", 2);
    assert OccursAt(PlainPage, "<html", 0);
    assert FindFrom(PlainPage, "<html", 0) == Some(0);
    AsWrittenStrayBracket(PlainPage, "");
  }

  /** The evidently intended step: the head element goes after the html tag's closing '>'. */
  function InjectHeadV0p4(html: string, block: string): (r: string)
    ensures Contains(html, "<head>") ==> r == InjectHead(html, block)
    ensures !Contains(html, "<head>") && HtmlTagEnd(html).Some? ==>
      InsertedAt(r, html, HeadElement(block), HtmlTagEnd(html).value)
    ensures !Contains(html, "<head>") && HtmlTagEnd(html).None? ==> r == InjectHeadV0p4AsWritten(html, block)
  {
    if Contains(html, "<head>") then InjectHead(html, block)
    else
      match HtmlTagEnd(html)
      case Some(e) => html[..e] + HeadElement(block) + html[e..]
      case None => InjectHeadV0p4AsWritten(html, block)
  }

  /** On the same page the corrected step puts the head element right after "<html>". */
  lemma StrayBracketFixed()
    ensures InsertedAt(InjectHeadV0p4(PlainPage, ""), PlainPage, HeadElement(""), 6)
  {
    AbsentChar(PlainPage, "<head>", 2);
    assert PlainPage[0..5] == "<html" && PlainPage[5..6] == ">";
    FoundHere(PlainPage, "<html", 0);
    FoundHere(PlainPage, ">", 5);
    assert HtmlTagEnd(PlainPage) == Some(6);
  }

  /** With a head or a closed html tag, the corrected step keeps the page whole. */
  lemma InjectHeadV0p4KeepsPage(html: string, block: string)
    requires Contains(html, "<head>") || HtmlTagEnd(html).Some?
    ensures exists x, p :: InsertedAt(InjectHeadV0p4(html, block), html, x, p) && Contains(x, block)
  {
    var r := InjectHeadV0p4(html, block);
    if Contains(html, "<head>") {
      ContainsPiece("", block, "");
      assert "" + block + "" == block;
      assert InsertedAt(r, html, block, Find(html, "<head>").value + 6);
    } else {
      ContainsPiece("\n<head>", block, "</head>");
      assert InsertedAt(r, html, HeadElement(block), HtmlTagEnd(html).value);
    }
  }

  /** The position of the first "<body" followed by whitespace (re.search of `<body\s+`), from position from on. */
  function FindBodyWs(html: string, from: nat): (r: Option<nat>)
    requires from <= |html|
    ensures r.Some? ==> from <= r.value && r.value + 5 < |html| && OccursAt(html, "<body", r.value) && IsSpace(html[r.value + 5])
    ensures r.Some? ==> forall j :: from <= j < r.value ==> !(OccursAt(html, "<body", j) && j + 5 < |html| && IsSpace(html[j + 5]))
    ensures r.None? ==> forall j :: from <= j ==> !(OccursAt(html, "<body", j) && j + 5 < |html| && IsSpace(html[j + 5]))
    decreases |html| - from
  {
    if from + 5 >= |html| then None
    else if OccursAt(html, "<body", from) && IsSpace(html[from + 5]) then Some(from)
    else FindBodyWs(html, from + 1)
  }

  /** The class attribute v0p4 gives the body. */
  function ClassAttr(theme: string): string
  {
    " class=\"pywa-theme-" + theme + "\""
  }

  /** Where "<body " occurs, `<body\s+` matches, and its whitespace run is not empty. */
  lemma BodySpaceFound(html: string)
    requires Contains(html, "<body ")
    ensures FindBodyWs(html, 0).Some?
    ensures Lead(html[FindBodyWs(html, 0).value + 5..]) >= 1
  {
    var k := Find(html, "<body ").value;
    SpacedBodyTag(html, k);
    var j := FindBodyWs(html, 0).value;
    var rest := html[j + 5..];
    assert 0 < |rest| && rest[0] == html[j + 5];
  }

  /** An occurrence of "<body " is a "<body" followed by whitespace. */
  lemma SpacedBodyTag(html: string, k: nat)
    requires OccursAt(html, "<body ", k)
    ensures OccursAt(html, "<body", k) && k + 5 < |html| && IsSpace(html[k + 5])
  {
    var w := html[k..k + 6];
    assert w == "<body ";
    assert html[k..k + 5] == w[..5];
    assert html[k + 5] == w[5];
  }

  /**
   * The body step of v0p4: into the first bare "<body>"; failing that, when "<body "
   * occurs, the first "<body" followed by whitespace has that whitespace replaced by
   * the class and one space.
   */
  function InjectBodyV0p4(html: string, theme: string): (r: string)
    ensures Contains(html, "<body>") ==> InsertedAt(r, html, ClassAttr(theme), Find(html, "<body>").value + 5)
    ensures !Contains(html, "<body>") && !Contains(html, "<body ") ==> r == html
    ensures !Contains(html, "<body>") && Contains(html, "<body ") ==> r == ClassAtSpace(html, theme)
  {
    match Find(html, "<body>")
    case Some(i) => html[..i + 5] + ClassAttr(theme) + html[i + 5..]
    case None => if Contains(html, "<body ") then ClassAtSpace(html, theme) else html
  }

  /** The fallback of the v0p4 body step: the whitespace after the first "<body" followed by whitespace becomes the class and one space. */
  function ClassAtSpace(html: string, theme: string): (r: string)
    requires Contains(html, "<body ")
    ensures var j := FindBodyWs(html, 0);
      j.Some? && var n := Lead(html[j.value + 5..]);
      n >= 1 && r == html[..j.value] + "<body" + ClassAttr(theme) + " " + html[j.value + 5 + n..]
  {
    BodySpaceFound(html);
    var j := FindBodyWs(html, 0).value;
    var n := Lead(html[j + 5..]);
    html[..j] + "<body" + ClassAttr(theme) + " " + html[j + 5 + n..]
  }

  /** optimize in v0p4 as written. */
  function OptimizeV0p4AsWritten(html: string, block: string, theme: string): (r: string)
    ensures Contains(InjectHeadV0p4AsWritten(html, block), "<body>") ==> Contains(r, "<body" + ClassAttr(theme) + ">")
  {
    var headed := InjectHeadV0p4AsWritten(html, block);
    var r := InjectBodyV0p4(headed, theme);
    if Contains(headed, "<body>") then
      BodyTagMarked(headed, r, ClassAttr(theme));
      r
    else r
  }

  /** optimize in v0p4 with the corrected head step. */
  function OptimizeV0p4(html: string, block: string, theme: string): (r: string)
    ensures Contains(InjectHeadV0p4(html, block), "<body>") ==> Contains(r, "<body" + ClassAttr(theme) + ">")
  {
    var headed := InjectHeadV0p4(html, block);
    var r := InjectBodyV0p4(headed, theme);
    if Contains(headed, "<body>") then
      BodyTagMarked(headed, r, ClassAttr(theme));
      r
    else r
  }
}
