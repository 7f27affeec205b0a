/**
 * Which Pyodide packages the generated page installs before it runs the
 * script: detect_packages of pywa v2p2 (import lines plus alias use) and the
 * fixed five-word scan of v2p1, together with the code v2p1 actually runs.
 */
module Packages {
  import opened Wrappers
  import opened Text

  // ---------------------------------------------------------------- import lines (v2p2)

  /** A character of regex \w, restricted to ASCII. */
  predicate IsWordChar(c: char)
  {
    IsCased(c) || ('0' <= c <= '9') || c == '_'
  }

  /** Length of the leading run of word characters. */
  function WordRun(s: string): (n: nat)
    ensures n <= |s|
    ensures forall i :: 0 <= i < n ==> IsWordChar(s[i])
    ensures n < |s| ==> !IsWordChar(s[n])
  {
    if s == [] || !IsWordChar(s[0]) then 0 else 1 + WordRun(s[1..])
  }

  /**
   * What `^import (\w+)|^from (\w+) import` captures at the start of one line: the
   * name after "import ", or the name after "from " when " import" follows it.
   * The name is the whole run of word characters; neither pattern reaches past a newline.
   */
  function LineImport(line: string): (r: Option<string>)
    ensures r.Some? ==> r.value != [] && forall i :: 0 <= i < |r.value| ==> IsWordChar(r.value[i])
  {
    if |line| >= 7 && line[..7] == "import " && WordRun(line[7..]) > 0 then
      Some(line[7..][..WordRun(line[7..])])
    else if |line| >= 5 && line[..5] == "from " && WordRun(line[5..]) > 0
      && OccursAt(line[5..], " import", WordRun(line[5..])) then
      Some(line[5..][..WordRun(line[5..])])
    else None
  }

  /** A line "import w" names w whatever follows the name. */
  lemma ImportLineNames(w: string, rest: string)
    requires w != [] && forall i :: 0 <= i < |w| ==> IsWordChar(w[i])
    requires rest == [] || !IsWordChar(rest[0])
    ensures LineImport("import " + w + rest) == Some(w)
  {
    var line := "import " + w + rest;
    assert line[..7] == "import ";
    assert line[7..] == w + rest;
    WordRunOf(w, rest);
  }

  lemma {:induction false} WordRunOf(w: string, rest: string)
    requires forall i :: 0 <= i < |w| ==> IsWordChar(w[i])
    requires rest == [] || !IsWordChar(rest[0])
    ensures WordRun(w + rest) == |w|
    ensures (w + rest)[..|w|] == w
  {
    if w != [] {
      assert (w + rest)[1..] == w[1..] + rest;
      WordRunOf(w[1..], rest);
    } else {
      assert w + rest == rest;
    }
  }

  /** The names all import lines capture. */
  function ImportNames(code: string): set<string>
  {
    set l | l in SplitLines(code) && LineImport(l).Some? :: LineImport(l).value
  }

  /** package_map of v2p2: package name and the names that stand for it. */
  const PackageMap: seq<(string, seq<string>)> := [
    ("numpy", ["numpy", "np"]),
    ("pandas", ["pandas", "pd"]),
    ("plotly", ["plotly", "px", "go"]),
    ("scipy", ["scipy"]),
    ("requests", ["requests"]),
    ("matplotlib", ["matplotlib", "plt"]),
    ("sklearn", ["scikit-learn"]),
    ("tensorflow", ["tensorflow"]),
    ("torch", ["torch"]),
    ("pillow", ["PIL"]),
    ("beautifulsoup4", ["bs4"]),
    ("lxml", ["lxml"]),
    ("flask", ["flask"]),
    ("django", ["django"]),
    ("fastapi", ["fastapi"])
  ]

  /** A package is wanted when an import names it or an alias, or an alias is used as "alias." or "alias as " anywhere. */
  predicate Wanted(entry: (string, seq<string>), names: set<string>, code: string)
  {
    (exists n :: n in names && (n in entry.1 || n == entry.0))
    || (exists a :: a in entry.1 && (Contains(code, a + ".") || Contains(code, a + " as ")))
  }

  /** detect_packages as a set (the source returns list(set), whose order is unspecified). */
  function DetectPackages(code: string): (r: set<string>)
    ensures forall p :: p in r ==> exists k :: 0 <= k < |PackageMap| && PackageMap[k].0 == p
  {
    var names := ImportNames(code);
    set k | 0 <= k < |PackageMap| && Wanted(PackageMap[k], names, code) :: PackageMap[k].0
  }

  /** A line "import X" for any name X of a package's entry brings the package in. */
  lemma ImportDetected(code: string, k: nat, w: string, rest: string)
    requires k < |PackageMap| && (w in PackageMap[k].1 || w == PackageMap[k].0)
    requires w != [] && forall i :: 0 <= i < |w| ==> IsWordChar(w[i])
    requires rest == [] || !IsWordChar(rest[0])
    requires "import " + w + rest in SplitLines(code)
    ensures PackageMap[k].0 in DetectPackages(code)
  {
    ImportLineNames(w, rest);
    assert w in ImportNames(code);
    assert Wanted(PackageMap[k], ImportNames(code), code);
  }

  /** Every line of the text after a newline is a line of the whole text. */
  lemma {:induction false} SplitLinesSuffix(pre: string, tail: string, l: string)
    requires l in SplitLines(tail)
    ensures l in SplitLines(pre + "\n" + tail)
    decreases |pre|
  {
    var s := pre + "\n" + tail;
    var n := LineLength(s);
    if n == |pre| {
      assert forall i :: 0 <= i < |pre| ==> pre[i] == s[i];
      SplitLinesFirst(pre, tail);
    } else {
      // the first line ends inside pre; what follows it is the rest of pre, a newline and tail
      assert s[|pre|] == '\n';
      assert n < |pre| && pre[n] == s[n];
      assert s[n + 1..] == pre[n + 1..] + "\n" + tail;
      SplitLinesSuffix(pre[n + 1..], tail, l);
    }
  }

  /** A line of the code between two newlines is one of its split lines. */
  lemma SplitLinesHasLine(pre: string, line: string, post: string)
    requires forall i :: 0 <= i < |line| ==> line[i] != '\n'
    ensures line in SplitLines(pre + "\n" + line + "\n" + post)
  {
    var tail := line + "\n" + post;
    SplitLinesFirst(line, post);
    SplitLinesSuffix(pre, tail, line);
    ConcatAssoc(pre + "\n", line + "\n", post);
    ConcatAssoc(pre + "\n", line, "\n");
  }

  /** Alias use is found by bare substring search, so "go." inside "algo." pulls in plotly. */
  lemma AliasInsideWord()
    ensures "plotly" in DetectPackages("x = algo.run()")
  {
    var code := "x = algo.run()";
    assert code[6..9] == "go.";
    assert OccursAt(code, "go" + ".", 6);
    assert PackageMap[2].0 == "plotly" && "go" in PackageMap[2].1;
    assert Wanted(PackageMap[2], ImportNames(code), code);
  }

  // ---------------------------------------------------------------- v2p1

  const V2p1Words: seq<string> := ["numpy", "pandas", "plotly", "scipy", "requests"]

  /** r is ws with some elements left out, the rest kept in order. */
  predicate IsSubseq(r: seq<string>, ws: seq<string>)
    decreases |ws|
  {
    r == [] || (ws != [] && if r[0] == ws[0] then IsSubseq(r[1..], ws[1..]) else IsSubseq(r, ws[1..]))
  }

  predicate Distinct(ws: seq<string>)
  {
    forall a, b :: 0 <= a < b < |ws| ==> ws[a] != ws[b]
  }

  /** A subsequence holds only elements of the sequence. */
  lemma {:induction false} SubseqMembers(r: seq<string>, ws: seq<string>)
    requires IsSubseq(r, ws)
    ensures forall w :: w in r ==> w in ws
    decreases |ws|
  {
    if r != [] {
      if r[0] == ws[0] {
        SubseqMembers(r[1..], ws[1..]);
        assert forall w :: w in r ==> w == r[0] || w in r[1..];
      } else {
        SubseqMembers(r, ws[1..]);
      }
    }
  }

  /** A subsequence of a list without repeats has none either. */
  lemma {:induction false} SubseqDistinct(r: seq<string>, ws: seq<string>)
    requires IsSubseq(r, ws) && Distinct(ws)
    ensures Distinct(r)
    decreases |ws|
  {
    if r != [] {
      assert Distinct(ws[1..]) by {
        forall a, b | 0 <= a < b < |ws[1..]|
          ensures ws[1..][a] != ws[1..][b]
        {
          assert ws[1..][a] == ws[a + 1] && ws[1..][b] == ws[b + 1];
        }
      }
      if r[0] == ws[0] {
        SubseqDistinct(r[1..], ws[1..]);
        SubseqMembers(r[1..], ws[1..]);
        forall a, b | 0 <= a < b < |r|
          ensures r[a] != r[b]
        {
          if a == 0 {
            assert r[b] == r[1..][b - 1];
            assert r[b] in ws[1..];
            var k :| 0 <= k < |ws[1..]| && ws[1..][k] == r[b];
            assert ws[k + 1] == r[b];
          } else {
            assert r[a] == r[1..][a - 1] && r[b] == r[1..][b - 1];
          }
        }
      } else {
        SubseqDistinct(r, ws[1..]);
      }
    }
  }

  /** The words of ws that occur in code, in the order of ws. */
  function KeepOccurring(ws: seq<string>, code: string): (r: seq<string>)
    ensures forall w :: w in r <==> w in ws && Contains(code, w)
    ensures IsSubseq(r, ws)
  {
    if ws == [] then []
    else
      var rest := KeepOccurring(ws[1..], code);
      assert forall w :: w in ws <==> w == ws[0] || w in ws[1..];
      if Contains(code, ws[0]) then
        var r := [ws[0]] + rest;
        assert r[1..] == rest;
        r
      else
        rest
  }

  /** The v2p1 scan: each of the five words that occurs in the code, once, in the list's fixed order. */
  function PackageList(code: string): (r: seq<string>)
    ensures forall w :: w in r <==> w in V2p1Words && Contains(code, w)
    ensures IsSubseq(r, V2p1Words) && Distinct(r)
  {
    var r := KeepOccurring(V2p1Words, code);
    SubseqDistinct(r, V2p1Words);
    r
  }

  /** The start of the browser-setup prelude, up to its own import of requests. */
  const PreludeHead: string := "\n# PyWA - Browser environment setup\nimport sys\nfrom io import StringIO\nsys.stdout = StringIO()\n\n# CORS proxy for Yahoo Finance\n"
  const PreludeTail: string := "\ndef fetch_with_proxy(url):\n    try:\n        proxy_url = f\"https://api.allorigins.win/raw?url={url}\"\n        return requests.get(proxy_url, timeout=30)\n    except:\n        return requests.get(url, timeout=30)\n\noriginal_get = requests.get\ndef patched_get(url, **kwargs):\n    if 'yahoo.com' in url:\n        return fetch_with_proxy(url)\n    return original_get(url, **kwargs)\nrequests.get = patched_get\n\n# User code\n"
  const Epilogue: string := "\n\n# Ensure output is captured\nimport sys\nprint(sys.stdout.getvalue())\n"

  function Prelude(): string
  {
    PreludeHead + "import requests" + PreludeTail
  }

  /** The code the page runs: the prelude, the script verbatim, the epilogue. */
  function WrappedCode(code: string): (r: string)
    ensures |r| == |Prelude()| + |code| + |Epilogue|
  {
    Prelude() + code + Epilogue
  }

  /** The script can be cut back out of the wrapped code unchanged. */
  lemma WrappedKeepsScript(code: string)
    ensures var r := WrappedCode(code);
      r[..|Prelude()|] == Prelude() && r[|Prelude()|..|r| - |Epilogue|] == code && r[|r| - |Epilogue|..] == Epilogue
  {
  }

  lemma ContainsAfter(x: string, y: string, t: string)
    requires Contains(x, t)
    ensures Contains(x + y, t)
  {
    var i :| 0 <= i <= |x| && OccursAt(x, t, i);
    assert (x + y)[i..i + |t|] == x[i..i + |t|];
    assert OccursAt(x + y, t, i);
  }

  lemma ContainsBefore(x: string, y: string, t: string)
    requires Contains(y, t)
    ensures Contains(x + y, t)
  {
    var i :| 0 <= i <= |y| && OccursAt(y, t, i);
    assert (x + y)[|x| + i..|x| + i + |t|] == y[i..i + |t|];
    assert OccursAt(x + y, t, |x| + i);
  }

  /** The wrapped code always imports requests. */
  lemma WrappedImportsRequests(code: string)
    ensures Contains(WrappedCode(code), "requests")
  {
    ImportKept(PreludeHead, PreludeTail, code, Epilogue);
  }

  /** An import of requests anywhere in the middle of a text names requests. */
  lemma ImportKept(head: string, tail: string, code: string, epilogue: string)
    ensures Contains(head + "import requests" + tail + code + epilogue, "requests")
  {
    ContainsPiece("import ", "requests", "");
    assert "import " + "requests" + "" == "import requests";
    ContainsBefore(head, "import requests", "requests");
    ContainsAfter(head + "import requests", tail, "requests");
    ContainsAfter(head + "import requests" + tail, code, "requests");
    ContainsAfter(head + "import requests" + tail + code, epilogue, "requests");
  }

  /** v2p1 as written: the package list is taken from the script alone. */
  function PackagesAsWritten(code: string): (r: seq<string>)
    ensures forall w :: w in r <==> w in V2p1Words && Contains(code, w)
  {
    PackageList(code)
  }

  /** The input that shows it: a script that never names requests gets an empty list, although the code run imports requests. */
  lemma RequestsNotInstalled()
    ensures PackagesAsWritten("print(1)") == []
    ensures Contains(WrappedCode("print(1)"), "requests")
  {
    var s := "print(1)";
    AbsentChar(s, "numpy", 1);
    AbsentChar(s, "pandas", 1);
    AbsentChar(s, "plotly", 1);
    AbsentChar(s, "scipy", 0);
    AbsentChar(s, "requests", 1);
    WrappedImportsRequests(s);
  }

  /** The evidently intended list: scanned over the code that is run, so requests is always installed. */
  function Packages(code: string): (r: seq<string>)
    ensures "requests" in r
    ensures forall w :: w in V2p1Words && Contains(code, w) ==> w in r
    ensures IsSubseq(r, V2p1Words) && Distinct(r)
  {
    WrappedImportsRequests(code);
    var wrapped := WrappedCode(code);
    assert forall w :: Contains(code, w) ==> Contains(wrapped, w) by {
      forall w | Contains(code, w)
        ensures Contains(wrapped, w)
      {
        ContainsBefore(Prelude(), code, w);
        ContainsAfter(Prelude() + code, Epilogue, w);
      }
    }
    PackageList(wrapped)
  }
}
