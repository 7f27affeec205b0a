/**
 * What pywa puts in the page body for a script's captured output
 * (PWAWrapper.wrap): an HTML page keeps its own body, anything else is shown
 * in a pre element, HTML-escaped in v1p2, v1p3 and v1p4 and inserted raw in
 * v1p0. Also the way v0p4's PythonRunner joins a run's stdout and stderr.
 */
module ContentWrap {
  import opened Wrappers
  import opened Text
  import HtmlDetect

  // ---------------------------------------------------------------- html.escape

  /** html.escape(c, quote=True) for one character. */
  function EscapeChar(c: char): (r: string)
    ensures |r| >= 1
    ensures c !in "&<>\"'" ==> r == [c]
  {
    match c
    case '&' => "&amp;"
    case '<' => "&lt;"
    case '>' => "&gt;"
    case '"' => "&quot;"
    case '\'' => "&#x27;"
    case _ => [c]
  }

  function Escape(s: string): (r: string)
    ensures |r| >= |s|
    ensures forall i :: 0 <= i < |r| ==> r[i] !in "<>\"'"
  {
    if s == [] then [] else EscapeChar(s[0]) + Escape(s[1..])
  }

  /** Undoes exactly the five entities Escape produces; any other text is kept. */
  function Unescape(s: string): string
  {
    if s == [] then []
    else if |s| >= 5 && s[..5] == "&amp;" then "&" + Unescape(s[5..])
    else if |s| >= 4 && s[..4] == "&lt;" then "<" + Unescape(s[4..])
    else if |s| >= 4 && s[..4] == "&gt;" then ">" + Unescape(s[4..])
    else if |s| >= 6 && s[..6] == "&quot;" then "\"" + Unescape(s[6..])
    else if |s| >= 6 && s[..6] == "&#x27;" then "'" + Unescape(s[6..])
    else [s[0]] + Unescape(s[1..])
  }

  /** Any text that does not begin with '&' loses only its first character to one step of Unescape. */
  lemma UnescapePlain(s: string)
    requires s != [] && s[0] != '&'
    ensures Unescape(s) == [s[0]] + Unescape(s[1..])
  {
    assert |s| >= 5 ==> s[..5][0] == s[0];
    assert |s| >= 4 ==> s[..4][0] == s[0];
    assert |s| >= 6 ==> s[..6][0] == s[0];
  }

  lemma UnescapeStep(c: char, rest: string)
    ensures Unescape(EscapeChar(c) + rest) == [c] + Unescape(rest)
  {
    var e := EscapeChar(c) + rest;
    match c
    case '&' =>
      assert e[..5] == "&amp;" && e[5..] == rest;
    case '<' =>
      assert e[..4] == "&lt;" && e[4..] == rest;
      assert |e| >= 5 ==> e[..5][1] == 'l';
    case '>' =>
      assert e[..4] == "&gt;" && e[4..] == rest;
      assert |e| >= 5 ==> e[..5][1] == 'g';
      assert e[..4][1] == 'g';
    case '"' =>
      assert e[..6] == "&quot;" && e[6..] == rest;
      assert e[..5][1] == 'q' && e[..4][1] == 'q';
    case '\'' =>
      assert e[..6] == "&#x27;" && e[6..] == rest;
      assert e[..5][1] == '#' && e[..4][1] == '#' && e[..6][1] == '#';
    case _ =>
      assert e == [c] + rest;
      UnescapePlain(e);
      assert e[1..] == rest;
  }

  /** Escaping loses nothing: the escaped text can be read back exactly. */
  lemma {:induction false} EscapeRoundTrip(s: string)
    ensures Unescape(Escape(s)) == s
  {
    if s != [] {
      EscapeRoundTrip(s[1..]);
      UnescapeStep(s[0], Escape(s[1..]));
    }
  }

  // ---------------------------------------------------------------- body extraction

  /**
   * re.search(r'<body[^>]*>(.*?)</body>', content, DOTALL | IGNORECASE).group(1):
   * from the first "<body", past the first '>', up to the first "</body>" after it.
   * A later "<body" cannot match when the first one does not, so only the first is tried.
   */
  function BodyInner(content: string): (r: Option<string>)
    ensures r.Some? ==> Contains(Lower(content), "<body")
  {
    BodyInnerOf(content, Lower(content))
  }

  /** The search of BodyInner over l, a lower-cased copy of the content: positions are found in l, the text is cut from the content. */
  function BodyInnerOf(content: string, l: string): (r: Option<string>)
    requires |l| == |content|
    ensures r.Some? ==> Contains(l, "<body")
  {
    match Find(l, "<body")
    case None => None
    case Some(i) =>
      match FindFrom(l, ">", i + 5)
      case None => None
      case Some(g) =>
        match FindFrom(l, "</body>", g + 1)
        case None => None
        case Some(e) => Some(content[g + 1..e])
  }

  lemma LowerSlice(s: string, a: nat, b: nat)
    requires a <= b <= |s|
    ensures Lower(s[a..b]) == Lower(s)[a..b]
  {
  }

  lemma LowerConcat(a: string, b: string)
    ensures Lower(a + b) == Lower(a) + Lower(b)
  {
  }

  lemma NoEarlierClose(l: string, from: nat, e: nat)
    requires from <= e <= |l|
    requires forall j: nat :: from <= j < e ==> !OccursAt(l, "</body>", j)
    ensures !Contains(l[from..e], "</body>")
  {
    var x := l[from..e];
    forall j | 0 <= j <= |x|
      ensures !OccursAt(x, "</body>", j)
    {
      if j + 7 <= |x| {
        assert from + j < e;
        forall k | j <= k < j + 7
          ensures x[k] == l[from + k]
        {
        }
        assert x[j..j + 7] == l[from + j..from + j + 7];
        assert !OccursAt(l, "</body>", from + j);
      }
    }
  }

  /** Where the extracted part lies in the content, with no closing body tag starting inside it in l. */
  lemma BodyInnerOfAt(content: string, l: string) returns (from: nat, e: nat)
    requires |l| == |content| && BodyInnerOf(content, l).Some?
    ensures from <= e <= |content| && BodyInnerOf(content, l) == Some(content[from..e])
    ensures forall j: nat :: from <= j < e ==> !OccursAt(l, "</body>", j)
  {
    var i := Find(l, "<body").value;
    var g := FindFrom(l, ">", i + 5).value;
    from, e := g + 1, FindFrom(l, "</body>", g + 1).value;
  }

  /** The extracted part is lazy: it never holds a closing body tag of its own. */
  lemma BodyInnerStopsAtFirstClose(content: string)
    requires BodyInner(content).Some?
    ensures !Contains(Lower(BodyInner(content).value), "</body>")
  {
    var from, e := BodyInnerOfAt(content, Lower(content));
    NoEarlierClose(Lower(content), from, e);
    LowerSlice(content, from, e);
  }

  lemma DocumentLower(x: string)
    ensures Lower("<body>" + x + "</body>") == "<body>" + Lower(x) + "</body>"
  {
    LowerConcat("<body>" + x, "</body>");
    LowerConcat("<body>", x);
    assert Lower("<body>") == "<body>";
    assert Lower("</body>") == "</body>";
  }

  lemma DocumentCloseFirst(x: string)
    requires !Contains(Lower(x), "</body>")
    ensures var l := "<body>" + Lower(x) + "</body>";
      forall j: nat :: 6 <= j < 6 + |x| ==> !OccursAt(l, "</body>", j)
  {
    var l := "<body>" + Lower(x) + "</body>";
    var lx := Lower(x);
    forall j: nat | 6 <= j < 6 + |x|
      ensures !OccursAt(l, "</body>", j)
    {
      if j + 7 <= 6 + |x| {
        assert l[j..j + 7] == lx[j - 6..j + 1];
        assert !OccursAt(lx, "</body>", j - 6);
      } else if j + 7 <= |l| {
        // the closing tag would straddle the end of x, where only '<' can start it
        var k := 6 + |x| - j;
        assert l[j..j + 7][k] == l[6 + |x|] == '<';
        assert "</body>"[k] != '<';
      }
    }
  }

  /** A page made of a bare body element gives back exactly its content. */
  lemma BodyOfDocument(x: string)
    requires !Contains(Lower(x), "</body>")
    ensures BodyInner("<body>" + x + "</body>") == Some(x)
  {
    var d := "<body>" + x + "</body>";
    var l := "<body>" + Lower(x) + "</body>";
    DocumentLower(x);
    DocumentCloseFirst(x);
    assert l[0..5] == "<body";
    assert OccursAt(l, "<body", 0);
    assert l[5..6] == ">";
    assert OccursAt(l, ">", 5);
    assert l[6 + |x|..6 + |x| + 7] == "</body>";
    assert OccursAt(l, "</body>", 6 + |x|);
    assert d[6..6 + |x|] == x;
  }

  // ---------------------------------------------------------------- wrap

  datatype Revision = V1p0 | V1p2 | V1p3 | V1p4

  /** The pre element's opening tag in each revision. */
  function PreOpen(v: Revision): string
  {
    match v
    case V1p0 => "<pre style=\"background:#1e1e1e;color:#f0f0f0;padding:16px;border-radius:8px;overflow:auto;\">"
    case V1p2 => "<pre style=\"background:#1e1e1e;color:#f0f0f0;padding:16px;border-radius:8px;overflow:auto;font-family:monospace;\">"
    case V1p3 => "<pre style=\"background:#1e1e1e;color:#f0f0f0;padding:16px;font-family:monospace;\">"
    case V1p4 => "<pre style=\"background:#1e1e1e;color:#f0f0f0;padding:20px;font-family:monospace;\">"
  }

  const NoOutput: string := "No output"

  /** `content or "No output"`. */
  function OrNoOutput(content: string): (r: string)
    ensures r != []
  {
    if content == [] then NoOutput else content
  }

  /** The text branch: the output inside a pre element, escaped except in v1p0. */
  function TextBlock(v: Revision, content: string): (r: string)
    ensures v != V1p0 ==> r == PreOpen(v) + Escape(OrNoOutput(content)) + "</pre>"
    ensures v == V1p0 ==> r == PreOpen(v) + OrNoOutput(content) + "</pre>"
  {
    var shown := OrNoOutput(content);
    PreOpen(v) + (if v == V1p0 then shown else Escape(shown)) + "</pre>"
  }

  /**
   * The page content wrap builds. HTML output keeps its body's inner part (stripped
   * in v1p2 and v1p3), or all of itself when it has no body element or the body
   * pattern does not match; v1p0 keeps HTML output unchanged.
   */
  function MainContent(v: Revision, content: string, isHtml: bool): (r: string)
    ensures !(isHtml && content != []) ==> r == TextBlock(v, content)
    ensures isHtml && content != [] && (v == V1p0 || BodyInner(content).None?) ==> r == content
    ensures isHtml && content != [] && v != V1p0 && BodyInner(content).Some? ==>
      r == (if v == V1p4 then BodyInner(content).value else Strip(BodyInner(content).value))
  {
    if !(isHtml && content != []) then TextBlock(v, content)
    else if v == V1p0 then content
    else if !Contains(Lower(content), "<body") then content
    else
      match BodyInner(content)
      case Some(inner) => if v == V1p4 then inner else Strip(inner)
      case None => content
  }

  /** Escaped text output can never open a tag inside the page. */
  lemma EscapedTextHasNoTags(v: Revision, content: string)
    requires v != V1p0
    ensures var body := Escape(OrNoOutput(content));
      TextBlock(v, content) == PreOpen(v) + body + "</pre>" && forall i :: 0 <= i < |body| ==> body[i] != '<'
  {
  }

  /** The shown text is the captured text: unescaping the pre element's content gives it back. */
  lemma TextBlockKeepsText(v: Revision, content: string)
    requires v != V1p0 && content != []
    ensures var t := TextBlock(v, content);
      Unescape(t[|PreOpen(v)|..|t| - 6]) == content
  {
    var e := Escape(content);
    CutMiddle(PreOpen(v), e, "</pre>");
    EscapeRoundTrip(content);
  }

  // ---------------------------------------------------------------- PythonRunner (v0p4)

  /** How the subprocess ended. */
  datatype Run = Completed(stdout: string, stderr: string, code: int) | TimedOut | Crashed(message: string)

  datatype Capture = Capture(output: string, isHtml: bool, code: int)

  const TimeoutMessage: string := "Error: Execution timed out (30 seconds)"

  /** stdout, then stderr, with a newline between them only when stdout is non-empty. */
  function JoinOutput(stdout: string, stderr: string): (r: string)
    ensures |r| == |stdout| + |stderr| + (if stdout != [] && stderr != [] then 1 else 0)
    ensures stdout <= r
    ensures r[|r| - |stderr|..] == stderr
  {
    if stderr == [] then stdout
    else if stdout != [] then stdout + "\n" + stderr
    else stderr
  }

  /** run_and_capture: the joined output classified by v0p4's _is_html; a timeout or a failure gives an error text and code 1. */
  function RunAndCapture(run: Run): (c: Capture)
    ensures run.Completed? ==>
      (c.output == JoinOutput(run.stdout, run.stderr) && c.code == run.code
      && c.isHtml == HtmlDetect.IsHtmlV0p4(c.output))
    ensures run.TimedOut? ==> c == Capture(TimeoutMessage, false, 1)
    ensures run.Crashed? ==> c == Capture("Error: " + run.message, false, 1)
  {
    match run
    case Completed(out, err, code) =>
      var output := JoinOutput(out, err);
      Capture(output, HtmlDetect.IsHtmlV0p4(output), code)
    case TimedOut => Capture(TimeoutMessage, false, 1)
    case Crashed(m) => Capture("Error: " + m, false, 1)
  }

  /** Both streams can be read back from the joined output when stdout holds no newline. */
  lemma JoinSplits(stdout: string, stderr: string)
    requires stdout != [] && stderr != []
    ensures var r := JoinOutput(stdout, stderr);
      r[..|stdout|] == stdout && r[|stdout|] == '\n' && r[|stdout| + 1..] == stderr
  {
  }
}
