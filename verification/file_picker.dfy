/**
 * pick_py_file of pywa_pre: which .py files under the search directory are
 * candidates, and what happens for each number of them. The directory walk
 * (sorted rglob) is a parameter: the files it yields, in its order, as path
 * parts from the file system root. The menus themselves are terminal I/O.
 */
module FilePicker {
  /** A path as its parts, the way pathlib's Path.parts lists them. */
  type Path = seq<string>

  const SkipNames: set<string> := {"pywa.py", "setup.py", "conftest.py"}
  const SkipDirs: set<string> := {"__pycache__", ".git", "venv", ".venv", "env", "node_modules"}

  /** The last part (Path.name); an empty path has the empty name. */
  function Name(p: Path): string
  {
    if p == [] then "" else p[|p| - 1]
  }

  /** The files of files that drop does not reject, in order. */
  function Filter<T>(files: seq<T>, drop: T -> bool): (r: seq<T>)
    ensures |r| <= |files|
    ensures forall k :: 0 <= k < |r| ==> r[k] in files && !drop(r[k])
  {
    if |files| == 0 then []
    else (if drop(files[0]) then [] else [files[0]]) + Filter(files[1..], drop)
  }

  /** A file survives the filter exactly when it was listed and is not rejected. */
  lemma {:induction false} FilterExact<T>(files: seq<T>, drop: T -> bool, p: T)
    ensures p in Filter(files, drop) <==> p in files && !drop(p)
  {
    if files != [] {
      FilterExact(files[1..], drop, p);
      assert files == [files[0]] + files[1..];
    }
  }

  /** Filtering a listing with a given first file. */
  lemma FilterCons<T>(x: T, rest: seq<T>, drop: T -> bool)
    ensures Filter([x] + rest, drop) == (if drop(x) then [] else [x]) + Filter(rest, drop)
  {
    assert ([x] + rest)[0] == x;
    assert ([x] + rest)[1..] == rest;
  }

  /** The filter keeps the walk's order: filtering a listing piecewise gives the same files as filtering it whole. */
  lemma {:induction false} FilterKeepsOrder<T>(a: seq<T>, b: seq<T>, drop: T -> bool)
    ensures Filter(a + b, drop) == Filter(a, drop) + Filter(b, drop)
  {
    if |a| == 0 {
      assert a + b == b;
    } else {
      var x, tail := a[0], a[1..];
      var head: seq<T> := if drop(x) then [] else [x];
      FilterKeepsOrder(tail, b, drop);
      assert Filter(a + b, drop) == head + Filter(tail + b, drop) by {
        assert a + b == [x] + (tail + b);
        FilterCons(x, tail + b, drop);
      }
      assert Filter(a, drop) == head + Filter(tail, drop) by {
        assert a == [x] + tail;
        FilterCons(x, tail, drop);
      }
      PrefixChain(Filter(a + b, drop), Filter(a, drop), head, Filter(tail + b, drop), Filter(tail, drop), Filter(b, drop));
    }
  }

  lemma PrefixChain<T>(whole: seq<T>, first: seq<T>, head: seq<T>, rest: seq<T>, mid: seq<T>, last: seq<T>)
    requires whole == head + rest && first == head + mid && rest == mid + last
    ensures whole == first + last
  {
  }

  /** The rule as written: the name is skipped, or any part of the whole path names a skipped directory. */
  predicate ExcludedAsWritten(p: Path)
  {
    Name(p) in SkipNames || exists k :: 0 <= k < |p| && p[k] in SkipDirs
  }

  /** The candidates as written. */
  function CandidatesAsWritten(files: seq<Path>): (r: seq<Path>)
    ensures forall k :: 0 <= k < |r| ==> Name(r[k]) !in SkipNames && forall j :: 0 <= j < |r[k]| ==> r[k][j] !in SkipDirs
  {
    Filter(files, p => ExcludedAsWritten(p))
  }

  /** What pick_py_file does with the candidates: none is an error, one is taken, up to nine get a numbered menu, more get a typed prompt. */
  datatype Outcome = NoneFound | Auto(file: Path) | Menu(choices: seq<Path>) | TypeName(choices: seq<Path>)

  function Decide(found: seq<Path>): (r: Outcome)
    ensures found == [] <==> r.NoneFound?
    ensures r.Auto? <==> |found| == 1
    ensures |found| == 1 ==> r == Auto(found[0])
    ensures 2 <= |found| <= 9 <==> r == Menu(found)
    ensures |found| >= 10 <==> r == TypeName(found)
  {
    if found == [] then NoneFound
    else if |found| == 1 then Auto(found[0])
    else if |found| <= 9 then Menu(found)
    else TypeName(found)
  }

  function PickAsWritten(files: seq<Path>): Outcome
  {
    Decide(CandidatesAsWritten(files))
  }

  /** The input that shows it: a project in /home/u/env/app, whose one app file is rejected because an ancestor of the search directory is named env. */
  const EnvBase: Path := ["/", "home", "u", "env", "app"]
  const EnvApp: Path := ["/", "home", "u", "env", "app", "main.py"]

  lemma EnvAncestorHidesApp()
    ensures PickAsWritten([EnvApp]) == NoneFound
  {
    assert EnvApp[3] in SkipDirs;
    assert ExcludedAsWritten(EnvApp);
    assert CandidatesAsWritten([EnvApp]) == [];
  }

  /** The evidently intended rule: only the parts below the search directory are checked against the skipped directories. */
  predicate Excluded(base: Path, p: Path)
  {
    Name(p) in SkipNames || exists k :: |base| <= k < |p| && p[k] in SkipDirs
  }

  function Candidates(base: Path, files: seq<Path>): (r: seq<Path>)
    ensures forall k :: 0 <= k < |r| ==> Name(r[k]) !in SkipNames && forall j :: |base| <= j < |r[k]| ==> r[k][j] !in SkipDirs
  {
    Filter(files, p => Excluded(base, p))
  }

  function Pick(base: Path, files: seq<Path>): Outcome
  {
    Decide(Candidates(base, files))
  }

  /** The corrected rule finds the same project's app file and takes it. */
  lemma EnvAncestorFixed()
    ensures Pick(EnvBase, [EnvApp]) == Auto(EnvApp)
  {
    assert !Excluded(EnvBase, EnvApp) by {
      assert |EnvBase| == 5 && |EnvApp| == 6;
      assert forall k :: 5 <= k < 6 ==> EnvApp[k] == "main.py";
    }
    assert Candidates(EnvBase, [EnvApp]) == [EnvApp];
  }

  /** The correction only ever adds candidates: whatever the rule as written keeps, the corrected one keeps too. */
  lemma CorrectionOnlyAdds(base: Path, files: seq<Path>, p: Path)
    requires p in CandidatesAsWritten(files)
    ensures p in Candidates(base, files)
  {
    FilterExact(files, p => ExcludedAsWritten(p), p);
    FilterExact(files, p => Excluded(base, p), p);
  }
}
