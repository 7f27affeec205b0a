/**
 * The handful of Python str operations the pywa scripts rely on, over ASCII:
 * lower/upper/title, split() on whitespace, strip(), substring search and
 * replace(old, new, 1). Characters outside ASCII are left as they are by the
 * case mappings, which is where this model and Python part ways.
 */
module Text {
  import opened Wrappers

  /** Python's str.isspace() restricted to ASCII: tab to carriage return, the four separators and space. */
  predicate IsSpace(c: char)
  {
    (9 <= c as int <= 13) || (28 <= c as int <= 31) || c == ' '
  }

  predicate IsUpper(c: char) { 'A' <= c <= 'Z' }
  predicate IsLower(c: char) { 'a' <= c <= 'z' }
  predicate IsCased(c: char) { IsUpper(c) || IsLower(c) }

  function LowerChar(c: char): (d: char)
    ensures !IsUpper(d)
    ensures IsCased(d) == IsCased(c)
    ensures !IsUpper(c) ==> d == c
    ensures IsSpace(d) == IsSpace(c)
  {
    if IsUpper(c) then (c as int + 32) as char else c
  }

  function UpperChar(c: char): (d: char)
    ensures !IsLower(d)
    ensures IsCased(d) == IsCased(c)
    ensures !IsLower(c) ==> d == c
    ensures IsSpace(d) == IsSpace(c)
  {
    if IsLower(c) then (c as int - 32) as char else c
  }

  function Lower(s: string): (r: string)
    ensures |r| == |s|
    ensures forall i :: 0 <= i < |s| ==> r[i] == LowerChar(s[i])
  {
    seq(|s|, i requires 0 <= i < |s| => LowerChar(s[i]))
  }

  function Upper(s: string): (r: string)
    ensures |r| == |s|
    ensures forall i :: 0 <= i < |s| ==> r[i] == UpperChar(s[i])
  {
    seq(|s|, i requires 0 <= i < |s| => UpperChar(s[i]))
  }

  /** Lower-casing twice is lower-casing once. */
  lemma LowerIdempotent(s: string)
    ensures Lower(Lower(s)) == Lower(s)
  {
    assert forall i :: 0 <= i < |s| ==> LowerChar(LowerChar(s[i])) == LowerChar(s[i]);
  }

  /** The text of s with every occurrence of a replaced by b (str.replace on one character). */
  function ReplaceChar(s: string, a: char, b: char): (r: string)
    ensures |r| == |s|
    ensures forall i :: 0 <= i < |s| ==> r[i] == (if s[i] == a then b else s[i])
  {
    seq(|s|, i requires 0 <= i < |s| => if s[i] == a then b else s[i])
  }

  // ---------------------------------------------------------------- search

  predicate OccursAt(s: string, t: string, i: nat)
  {
    i + |t| <= |s| && s[i..i + |t|] == t
  }

  /** Python's `t in s`. */
  predicate Contains(s: string, t: string)
  {
    exists i :: 0 <= i <= |s| && OccursAt(s, t, i)
  }

  /** The first occurrence of t in s at or after position from. */
  function FindFrom(s: string, t: string, from: nat): (r: Option<nat>)
    requires from <= |s|
    ensures r.Some? ==> (from <= r.value && OccursAt(s, t, r.value)
      && forall j: nat :: from <= j < r.value ==> !OccursAt(s, t, j))
    ensures r.None? ==> forall j: nat :: from <= j ==> !OccursAt(s, t, j)
    decreases |s| - from
  {
    if OccursAt(s, t, from) then Some(from)
    else if from + |t| >= |s| then None
    else FindFrom(s, t, from + 1)
  }

  /** Python's str.find, as an option: the first position where t occurs in s. */
  function Find(s: string, t: string): (r: Option<nat>)
    ensures r.Some? <==> Contains(s, t)
    ensures r.Some? ==> OccursAt(s, t, r.value) && forall j: nat :: j < r.value ==> !OccursAt(s, t, j)
  {
    FindFrom(s, t, 0)
  }

  /** An occurrence at the start of the search is the one found. */
  lemma FoundHere(s: string, t: string, from: nat)
    requires from <= |s| && OccursAt(s, t, from)
    ensures FindFrom(s, t, from) == Some(from)
    ensures from == 0 ==> Find(s, t) == Some(0)
  {
  }

  /** Python's s.replace(t, u, 1): the first occurrence of t replaced by u, or s itself. */
  function ReplaceFirst(s: string, t: string, u: string): (r: string)
    ensures !Contains(s, t) ==> r == s
    ensures Contains(s, t) ==> exists i: nat :: OccursAt(s, t, i) && r == s[..i] + u + s[i + |t|..]
  {
    match Find(s, t)
    case Some(i) => s[..i] + u + s[i + |t|..]
    case None => s
  }

  /** The occurrence ReplaceFirst replaces is the first one, the position Find reports. */
  lemma ReplaceFirstAtFind(s: string, t: string, u: string, i: nat)
    requires Find(s, t) == Some(i)
    ensures OccursAt(s, t, i) && forall j: nat :: j < i ==> !OccursAt(s, t, j)
    ensures ReplaceFirst(s, t, u) == s[..i] + u + s[i + |t|..]
  {
  }

  /** No lower-case letter survives Upper, so a needle holding one never occurs in an upper-cased text. */
  lemma {:induction false} UpperMissesLowerNeedle(s: string, t: string, k: nat)
    requires k < |t| && IsLower(t[k])
    ensures !Contains(Upper(s), t)
  {
  }

  /** No capital survives Lower, so a needle holding one never occurs in a lower-cased text. */
  lemma {:induction false} LowerMissesUpperNeedle(s: string, t: string, k: nat)
    requires k < |t| && IsUpper(t[k])
    ensures !Contains(Lower(s), t)
  {
  }

  /** A needle holding a character the text lacks does not occur in it. */
  lemma AbsentChar(s: string, t: string, k: nat)
    requires k < |t|
    requires forall i :: 0 <= i < |s| ==> s[i] != t[k]
    ensures !Contains(s, t)
  {
    forall i | 0 <= i <= |s|
      ensures !OccursAt(s, t, i)
    {
      if i + |t| <= |s| {
        assert s[i..i + |t|][k] == s[i + k];
      }
    }
  }

  /** A text contains every piece of itself. */
  lemma ContainsPiece(a: string, t: string, b: string)
    ensures Contains(a + t + b, t)
  {
    assert (a + t + b)[|a|..|a| + |t|] == t;
    assert OccursAt(a + t + b, t, |a|);
  }

  // ---------------------------------------------------------------- split and strip

  /** The characters of s that are not whitespace, in order. */
  function NonSpace(s: string): string
  {
    if s == [] then [] else (if IsSpace(s[0]) then [] else [s[0]]) + NonSpace(s[1..])
  }

  function Concat(ws: seq<string>): string
  {
    if ws == [] then [] else ws[0] + Concat(ws[1..])
  }

  /** Length of the leading run of non-whitespace characters. */
  function WordLength(s: string): (n: nat)
    ensures n <= |s|
    ensures forall i :: 0 <= i < n ==> !IsSpace(s[i])
    ensures n < |s| ==> IsSpace(s[n])
  {
    if s == [] || IsSpace(s[0]) then 0 else 1 + WordLength(s[1..])
  }

  /** Python's str.split() with no separator: maximal runs of non-whitespace. */
  function Words(s: string): (ws: seq<string>)
    ensures forall k :: 0 <= k < |ws| ==> |ws[k]| > 0
    ensures forall k, i :: 0 <= k < |ws| && 0 <= i < |ws[k]| ==> !IsSpace(ws[k][i])
    decreases |s|
  {
    if s == [] then []
    else if IsSpace(s[0]) then Words(s[1..])
    else
      var n := WordLength(s);
      [s[..n]] + Words(s[n..])
  }

  lemma {:induction false} NonSpaceAppend(a: string, b: string)
    ensures NonSpace(a + b) == NonSpace(a) + NonSpace(b)
  {
    if a != [] {
      NonSpaceAppend(a[1..], b);
      var head := if IsSpace(a[0]) then [] else [a[0]];
      assert (a + b)[0] == a[0];
      assert (a + b)[1..] == a[1..] + b;
      assert NonSpace(a + b) == head + NonSpace(a[1..] + b);
      assert NonSpace(a) == head + NonSpace(a[1..]);
      assert head + (NonSpace(a[1..]) + NonSpace(b)) == (head + NonSpace(a[1..])) + NonSpace(b);
    } else {
      assert a + b == b;
    }
  }

  lemma {:induction false} NonSpaceOfWord(w: string)
    requires forall i :: 0 <= i < |w| ==> !IsSpace(w[i])
    ensures NonSpace(w) == w
  {
    if w != [] {
      NonSpaceOfWord(w[1..]);
    }
  }

  /** Splitting loses exactly the whitespace: the words glued together are the non-space characters. */
  lemma {:induction false} WordsKeepText(s: string)
    ensures Concat(Words(s)) == NonSpace(s)
    decreases |s|
  {
    if s != [] {
      if IsSpace(s[0]) {
        WordsKeepText(s[1..]);
        assert NonSpace(s) == NonSpace(s[1..]);
      } else {
        var n := WordLength(s);
        var w, rest := s[..n], s[n..];
        assert Words(s) == [w] + Words(rest);
        assert ([w] + Words(rest))[1..] == Words(rest);
        assert Concat(Words(s)) == w + Concat(Words(rest));
        WordsKeepText(rest);
        NonSpaceOfWord(w);
        assert s == w + rest;
        NonSpaceAppend(w, rest);
      }
    }
  }

  /** Number of whitespace characters s starts with. */
  function Lead(s: string): (n: nat)
    ensures n <= |s|
    ensures forall i :: 0 <= i < n ==> IsSpace(s[i])
    ensures n < |s| ==> !IsSpace(s[n])
  {
    if s == [] || !IsSpace(s[0]) then 0 else 1 + Lead(s[1..])
  }

  /** Number of whitespace characters s ends with. */
  function Trail(s: string): (n: nat)
    ensures n <= |s|
    ensures forall i :: |s| - n <= i < |s| ==> IsSpace(s[i])
    ensures n < |s| ==> !IsSpace(s[|s| - 1 - n])
  {
    if s == [] || !IsSpace(s[|s| - 1]) then 0 else 1 + Trail(s[..|s| - 1])
  }

  /** Python's str.strip() with no argument. */
  function Strip(s: string): (r: string)
    ensures |r| <= |s|
    ensures r != [] ==> !IsSpace(r[0]) && !IsSpace(r[|r| - 1])
    ensures exists a, b :: (0 <= a <= b <= |s| && r == s[a..b]
      && (forall i :: 0 <= i < a ==> IsSpace(s[i]))
      && (forall i :: b <= i < |s| ==> IsSpace(s[i])))
  {
    var a := Lead(s);
    if a == |s| then
      assert s[a..a] == [];
      []
    else
      var b := |s| - Trail(s);
      assert !IsSpace(s[a]);
      s[a..b]
  }

  /** A text with no whitespace at either end is its own strip. */
  lemma StripTrimmed(s: string)
    requires s != [] && !IsSpace(s[0]) && !IsSpace(s[|s| - 1])
    ensures Strip(s) == s
  {
  }

  /** Python's str.rstrip() with no argument. */
  function TrimEnd(s: string): (r: string)
    ensures |r| <= |s| && r == s[..|r|] && (forall i :: |r| <= i < |s| ==> IsSpace(s[i]))
    ensures r != [] ==> !IsSpace(r[|r| - 1])
  {
    s[..|s| - Trail(s)]
  }

  /** Trailing whitespace after a text that ends in a non-space is counted within the tail alone. */
  lemma {:induction false} TrailAfter(p: string, x: string)
    requires p != [] && !IsSpace(p[|p| - 1])
    ensures Trail(p + x) == Trail(x)
    decreases |x|
  {
    if x != [] && IsSpace(x[|x| - 1]) {
      TrailAfter(p, x[..|x| - 1]);
      assert (p + x)[..|p + x| - 1] == p + x[..|x| - 1];
    }
  }

  /** A space appended before trimming the end changes nothing. */
  lemma TrimSpaceAfter(x: string)
    ensures TrimEnd(x + " ") == TrimEnd(x)
  {
    var s := x + " ";
    assert s[..|s| - 1] == x;
    assert Trail(s) == 1 + Trail(x);
  }

  /** Stripping a text that starts with a non-space only trims its end. */
  lemma StripAfter(p: string, x: string)
    requires p != [] && !IsSpace(p[0]) && !IsSpace(p[|p| - 1])
    ensures Strip(p + x) == p + TrimEnd(x)
  {
    TrailAfter(p, x);
    var s := p + x;
    assert s[0] == p[0];
    assert s[..|s| - Trail(s)] == p + x[..|x| - Trail(x)];
  }

  /** One space after a trimmed text is what strip removes. */
  lemma StripOneSpace(s: string)
    requires s != [] && !IsSpace(s[0]) && !IsSpace(s[|s| - 1])
    ensures Strip(s + " ") == s
  {
    var t := s + " ";
    assert t[..|t| - 1] == s;
    assert Trail(t) == 1;
  }

  // ---------------------------------------------------------------- lines

  /** sep.join(parts). */
  function Join(parts: seq<string>, sep: string): string
  {
    if parts == [] then ""
    else if |parts| == 1 then parts[0]
    else parts[0] + sep + Join(parts[1..], sep)
  }

  lemma {:induction false} JoinSplitAt(parts: seq<string>, sep: string, n: nat)
    requires 0 < n < |parts|
    ensures Join(parts, sep) == Join(parts[..n], sep) + sep + Join(parts[n..], sep)
    decreases n
  {
    if n > 1 {
      JoinSplitAt(parts[1..], sep, n - 1);
      assert parts[1..][..n - 1] == parts[1..n];
      assert parts[1..][n - 1..] == parts[n..];
      assert parts[..n][1..] == parts[1..n];
    }
  }

  /** Length of the first line of s: the characters before the first '\n'. */
  function LineLength(s: string): (n: nat)
    ensures n <= |s|
    ensures forall i :: 0 <= i < n ==> s[i] != '\n'
    ensures n < |s| ==> s[n] == '\n'
  {
    if s == [] || s[0] == '\n' then 0 else 1 + LineLength(s[1..])
  }

  /** s.split('\n'): never empty, and no line holds a newline. */
  function SplitLines(s: string): (lines: seq<string>)
    ensures |lines| >= 1
    ensures forall k, i :: 0 <= k < |lines| && 0 <= i < |lines[k]| ==> lines[k][i] != '\n'
    decreases |s|
  {
    var n := LineLength(s);
    if n == |s| then [s] else [s[..n]] + SplitLines(s[n + 1..])
  }

  /** Joining the lines with '\n' gives the text back. */
  lemma {:induction false} SplitLinesRoundTrip(s: string)
    ensures Join(SplitLines(s), "\n") == s
    decreases |s|
  {
    var n := LineLength(s);
    if n < |s| {
      SplitLinesJoinFirst(s, n);
      SplitLinesRoundTrip(s[n + 1..]);
    }
  }

  /** A text with a newline at n is its first line, that newline and the rest, and its lines join the same way. */
  lemma SplitLinesJoinFirst(s: string, n: nat)
    requires n == LineLength(s) < |s|
    ensures s == s[..n] + "\n" + s[n + 1..]
    ensures Join(SplitLines(s), "\n") == s[..n] + "\n" + Join(SplitLines(s[n + 1..]), "\n")
  {
    var line, rest := s[..n], s[n + 1..];
    var glued := line + "\n" + rest;
    assert |glued| == |s|;
    forall k | 0 <= k < |s|
      ensures glued[k] == s[k]
    {
      if k < n {
        assert glued[k] == line[k];
      } else if k > n {
        assert glued[k] == rest[k - n - 1];
      }
    }
    assert s == glued;
    var lines := SplitLines(rest);
    var parts := [line] + lines;
    assert SplitLines(s) == parts;
    assert |parts| > 1 && parts[0] == line && parts[1..] == lines;
    assert Join(parts, "\n") == line + "\n" + Join(lines, "\n");
  }

  /** Putting t + u in place of an occurrence of t at i is inserting u right after it. */
  lemma SpliceAfter(s: string, t: string, u: string, i: nat)
    requires OccursAt(s, t, i)
    ensures s[..i] + (t + u) + s[i + |t|..] == s[..i + |t|] + u + s[i + |t|..]
  {
    assert s[..i + |t|] == s[..i] + t;
  }

  lemma ConcatAssoc(a: string, b: string, c: string)
    ensures a + (b + c) == a + b + c
  {
  }

  /** A text whose first part ends with t and whose second part starts with u contains t + u. */
  lemma ContainsAcross(a: string, b: string, t: string, u: string)
    requires |t| <= |a| && a[|a| - |t|..] == t
    requires |u| <= |b| && b[..|u|] == u
    ensures Contains(a + b, t + u)
  {
    var i := |a| - |t|;
    assert (a + b)[i..i + |t| + |u|] == t + u;
    assert OccursAt(a + b, t + u, i);
  }

  /** The middle piece of a concatenation can be cut back out by the lengths of the outer ones. */
  lemma CutMiddle(a: string, e: string, b: string)
    ensures (a + e + b)[|a|..|a + e + b| - |b|] == e
  {
  }

  /** A line without a newline, followed by one, is the first line. */
  lemma {:induction false} LineLengthOf(line: string, rest: string)
    requires forall i :: 0 <= i < |line| ==> line[i] != '\n'
    ensures LineLength(line + "\n" + rest) == |line|
  {
    if line != [] {
      assert (line + "\n" + rest)[1..] == line[1..] + "\n" + rest;
      LineLengthOf(line[1..], rest);
    }
  }

  /** Splitting a line without a newline, a newline and the rest gives the line, then the rest's lines. */
  lemma SplitLinesFirst(line: string, rest: string)
    requires forall i :: 0 <= i < |line| ==> line[i] != '\n'
    ensures SplitLines(line + "\n" + rest) == [line] + SplitLines(rest)
  {
    var s := line + "\n" + rest;
    LineLengthOf(line, rest);
    assert s[..|line|] == line;
    assert s[|line| + 1..] == rest;
  }

  // ---------------------------------------------------------------- title case

  /** str.title() from a state saying whether the previous character was a letter. */
  function TitleFrom(s: string, afterLetter: bool): (r: string)
    ensures |r| == |s|
    ensures forall i :: 0 <= i < |s| ==> IsCased(r[i]) == IsCased(s[i]) && IsSpace(r[i]) == IsSpace(s[i])
    ensures forall i :: 0 <= i < |s| && !IsCased(s[i]) ==> r[i] == s[i]
  {
    if s == [] then []
    else
      var c := if afterLetter then LowerChar(s[0]) else UpperChar(s[0]);
      [c] + TitleFrom(s[1..], IsCased(s[0]))
  }

  /** Python's str.title(): a letter is upper-cased after a non-letter and lower-cased after a letter. */
  function Title(s: string): (r: string)
    ensures |r| == |s|
  {
    TitleFrom(s, false)
  }

  lemma {:induction false} TitleFromIdempotent(s: string, afterLetter: bool)
    ensures TitleFrom(TitleFrom(s, afterLetter), afterLetter) == TitleFrom(s, afterLetter)
  {
    if s != [] {
      var t := TitleFrom(s, afterLetter);
      TitleFromIdempotent(s[1..], IsCased(s[0]));
      assert t[1..] == TitleFrom(s[1..], IsCased(s[0]));
      assert IsCased(t[0]) == IsCased(s[0]);
    }
  }

  /** Title-casing a title-cased text changes nothing. */
  lemma TitleIdempotent(s: string)
    ensures Title(Title(s)) == Title(s)
  {
    TitleFromIdempotent(s, false);
  }
}
