/**
 * find.py's `find_files_containing_string`: walk the tree below a folder
 * with `os.walk` and keep `join(dirpath, filename)` for every file whose name
 * contains the search string.
 *
 * `os.walk` is top-down: it lists a folder, yields the folder with its
 * subdirectory names and its file names (each in listing order), then walks
 * each subdirectory in turn. A folder that cannot be listed is skipped
 * silently, and so is a start path that does not exist or is a file.
 */
module FileSearch {
  import opened FileTree

  /** One `(dirpath, dirnames, filenames)` triple. */
  datatype WalkStep = WalkStep(dirpath: Path, dirnames: seq<string>, filenames: seq<string>)

  /** The names of the subdirectories among `es`, in listing order. */
  function DirNames(es: seq<Entry>): (r: seq<string>)
    ensures forall n :: n in r <==> exists i | 0 <= i < |es| :: es[i].Dir? && es[i].name == n
  {
    if es == [] then []
    else
      var front := DirNames(es[..|es| - 1]);
      assert forall i | 0 <= i < |es| - 1 :: es[..|es| - 1][i] == es[i];
      front + (if es[|es| - 1].Dir? then [es[|es| - 1].name] else [])
  }

  /** The names of the files among `es`, in listing order. */
  function FileNames(es: seq<Entry>): (r: seq<string>)
    ensures forall n :: n in r <==> exists i | 0 <= i < |es| :: es[i].File? && es[i].name == n
  {
    if es == [] then []
    else
      var front := FileNames(es[..|es| - 1]);
      assert forall i | 0 <= i < |es| - 1 :: es[..|es| - 1][i] == es[i];
      front + (if es[|es| - 1].File? then [es[|es| - 1].name] else [])
  }

  /** The triples `os.walk(p)` yields when `e` is what the operating system
      finds at `p`. */
  function Walk(e: Entry, p: Path): (r: seq<WalkStep>)
    ensures r != [] <==> e.Dir? && e.readable
    ensures r != [] ==> r[0].dirpath == p
    ensures forall k | 0 <= k < |r| :: |p| <= |r[k].dirpath| && r[k].dirpath[..|p|] == p
    decreases e, 1
  {
    match e
    case File(_, _, _) => []
    case Dir(_, es, readable) =>
      if !readable then []
      else [WalkStep(p, DirNames(es), FileNames(es))] + WalkIn(es, |es|, p)
  }

  /** The walks of the subdirectories among the first `n` entries, in order. */
  function WalkIn(es: seq<Entry>, n: nat, p: Path): (r: seq<WalkStep>)
    requires n <= |es|
    ensures forall k | 0 <= k < |r| :: |p| < |r[k].dirpath| && r[k].dirpath[..|p|] == p
    decreases es, n
  {
    if n == 0 then []
    else
      var front := WalkIn(es, n - 1, p);
      var sub := if es[n - 1].Dir? then Walk(es[n - 1], p + [es[n - 1].name]) else [];
      assert forall k | 0 <= k < |sub| :: |p| < |sub[k].dirpath| && sub[k].dirpath[..|p|] == p by {
        forall k | 0 <= k < |sub| ensures |p| < |sub[k].dirpath| && sub[k].dirpath[..|p|] == p {
          assert sub[k].dirpath[..|p| + 1] == p + [es[n - 1].name];
          assert sub[k].dirpath[..|p|] == sub[k].dirpath[..|p| + 1][..|p|];
        }
      }
      front + sub
  }

  /** `os.walk(directory)` over the whole tree `fs`. */
  function WalkFrom(fs: Entry, directory: Path): seq<WalkStep>
  {
    match Lookup(fs, directory)
    case None => []
    case Some(e) => Walk(e, directory)
  }

  /** `sub` occurs in `s` starting at index `i`. */
  predicate OccursAt(s: string, sub: string, i: int)
  {
    0 <= i && i + |sub| <= |s| && s[i..i + |sub|] == sub
  }

  /** Python's `sub in s` for strings. */
  predicate Contains(s: string, sub: string)
  {
    exists i | 0 <= i <= |s| - |sub| :: OccursAt(s, sub, i)
  }

  /** Listing order is kept: the names for entries `a` then `b` are the
      names for `a` followed by the names for `b`. */
  lemma {:induction false} FileNamesAppend(a: seq<Entry>, b: seq<Entry>)
    ensures FileNames(a + b) == FileNames(a) + FileNames(b)
    decreases |b|
  {
    if b == [] {
      assert a + b == a;
    } else {
      assert (a + b)[..|a + b| - 1] == a + b[..|b| - 1];
      FileNamesAppend(a, b[..|b| - 1]);
    }
  }

  /** Python's `in` finds `sub` wherever it sits inside `s`, the empty string
      included; and a found `sub` splits `s` around it. */
  lemma ContainsInfix(a: string, sub: string, b: string)
    ensures Contains(a + sub + b, sub)
  {
    assert OccursAt(a + sub + b, sub, |a|) by {
      assert (a + sub + b)[|a|..|a| + |sub|] == sub;
    }
  }

  lemma ContainsSplits(s: string, sub: string, i: int)
    requires OccursAt(s, sub, i)
    ensures Contains(s, sub)
    ensures s == s[..i] + sub + s[i + |sub|..]
  {
    assert s == s[..i] + s[i..i + |sub|] + s[i + |sub|..];
  }

  /** The matches of one triple, in file-name order. */
  function StepMatches(dirpath: Path, filenames: seq<string>, searchString: string): seq<Path>
  {
    if filenames == [] then []
    else
      var f := filenames[|filenames| - 1];
      StepMatches(dirpath, filenames[..|filenames| - 1], searchString)
      + (if Contains(f, searchString) then [dirpath + [f]] else [])
  }

  /** The matches of a sequence of triples, triple after triple. */
  function Matches(steps: seq<WalkStep>, searchString: string): seq<Path>
  {
    if steps == [] then []
    else
      var last := steps[|steps| - 1];
      Matches(steps[..|steps| - 1], searchString) + StepMatches(last.dirpath, last.filenames, searchString)
  }

  /** find.py:3-19. */
  method FindFilesContainingString(fs: Entry, directory: Path, searchString: string) returns (matchingFiles: seq<Path>)
    ensures matchingFiles == Matches(WalkFrom(fs, directory), searchString)
  {
    var steps := WalkFrom(fs, directory);
    matchingFiles := [];
    var i := 0;
    while i < |steps|
      invariant 0 <= i <= |steps|
      invariant matchingFiles == Matches(steps[..i], searchString)
    {
      assert steps[..i + 1][..i] == steps[..i];
      matchingFiles := AddStepMatches(steps[i].dirpath, steps[i].filenames, searchString, matchingFiles);
      i := i + 1;
    }
    assert steps[..i] == steps;
  }

  method AddStepMatches(dirpath: Path, filenames: seq<string>, searchString: string, found: seq<Path>)
    returns (extended: seq<Path>)
    ensures extended == found + StepMatches(dirpath, filenames, searchString)
  {
    extended := found;
    var j := 0;
    while j < |filenames|
      invariant 0 <= j <= |filenames|
      invariant extended == found + StepMatches(dirpath, filenames[..j], searchString)
    {
      assert filenames[..j + 1][..j] == filenames[..j];
      var filename := filenames[j];
      if Contains(filename, searchString) {
        extended := extended + [dirpath + [filename]];
      }
      j := j + 1;
    }
    assert filenames[..j] == filenames;
  }

  /** `x` is `join(dirpath, f)` for some triple and some `f` of its file names. */
  ghost predicate Listed(steps: seq<WalkStep>, x: Path)
  {
    |x| > 0 && exists k | 0 <= k < |steps| :: x[..|x| - 1] == steps[k].dirpath && x[|x| - 1] in steps[k].filenames
  }

  lemma {:induction false} StepMatchesMembership(dirpath: Path, filenames: seq<string>, searchString: string, x: Path)
    ensures x in StepMatches(dirpath, filenames, searchString) <==>
              |x| > 0 && x[..|x| - 1] == dirpath && x[|x| - 1] in filenames && Contains(x[|x| - 1], searchString)
  {
    if filenames != [] {
      var front := filenames[..|filenames| - 1];
      var f := filenames[|filenames| - 1];
      StepMatchesMembership(dirpath, front, searchString, x);
      assert filenames == front + [f];
      if x == dirpath + [f] {
        assert x[..|x| - 1] == dirpath;
      }
      if |x| > 0 && x[..|x| - 1] == dirpath && x[|x| - 1] == f {
        assert x == x[..|x| - 1] + [x[|x| - 1]];
      }
    }
  }

  /** A path is found exactly when the walk lists it and its file name
      (never a folder name) contains the search string. */
  lemma {:induction false} MatchesMembership(steps: seq<WalkStep>, searchString: string, x: Path)
    ensures x in Matches(steps, searchString) <==> Listed(steps, x) && Contains(x[|x| - 1], searchString)
  {
    if steps != [] {
      var front := steps[..|steps| - 1];
      var last := steps[|steps| - 1];
      MatchesMembership(front, searchString, x);
      StepMatchesMembership(last.dirpath, last.filenames, searchString, x);
      assert steps == front + [last];
      ListedAppend(front, [last], x);
      ListedSingle(last, x);
    }
  }

  lemma ListedSingle(step: WalkStep, x: Path)
    ensures Listed([step], x) <==> |x| > 0 && x[..|x| - 1] == step.dirpath && x[|x| - 1] in step.filenames
  {
    assert [step][0] == step;
  }

  lemma ListedAppend(a: seq<WalkStep>, b: seq<WalkStep>, x: Path)
    ensures Listed(a + b, x) <==> Listed(a, x) || Listed(b, x)
  {
    if Listed(a + b, x) {
      var k :| 0 <= k < |a + b| && x[..|x| - 1] == (a + b)[k].dirpath && x[|x| - 1] in (a + b)[k].filenames;
      if k >= |a| {
        assert (a + b)[k] == b[k - |a|];
      }
    }
    if Listed(b, x) {
      var k :| 0 <= k < |b| && x[..|x| - 1] == b[k].dirpath && x[|x| - 1] in b[k].filenames;
      assert (a + b)[k + |a|] == b[k];
    }
    if Listed(a, x) {
      var k :| 0 <= k < |a| && x[..|x| - 1] == a[k].dirpath && x[|x| - 1] in a[k].filenames;
      assert (a + b)[k] == a[k];
    }
  }

  /** `x` lies strictly below `p` and names a file that a walk from `p` can
      reach through listable folders. */
  ghost predicate WalkReaches(e: Entry, p: Path, x: Path)
  {
    |x| > |p| && x[..|p|] == p && Reach(e, x[|p|..]).Some? && Reach(e, x[|p|..]).value.File?
  }

  lemma {:induction false} WalkInListed(e: Entry, n: nat, p: Path, x: Path)
    requires e.Dir? && n <= |e.entries|
    ensures Listed(WalkIn(e.entries, n, p), x) <==>
              exists i | 0 <= i < n :: e.entries[i].Dir? && Listed(Walk(e.entries[i], p + [e.entries[i].name]), x)
    decreases n
  {
    if n > 0 {
      var es := e.entries;
      WalkInListed(e, n - 1, p, x);
      ListedAppend(WalkIn(es, n - 1, p), if es[n - 1].Dir? then Walk(es[n - 1], p + [es[n - 1].name]) else [], x);
    }
  }

  /** `x` names a file directly inside the folder `p`. */
  ghost predicate ReachesDirectly(e: Entry, p: Path, x: Path)
  {
    |x| == |p| + 1 && WalkReaches(e, p, x)
  }

  /** `x` is reached through one of the subdirectories of `e`. */
  ghost predicate ReachesBelow(e: Entry, p: Path, x: Path)
    requires e.Dir?
  {
    exists i | 0 <= i < |e.entries| :: e.entries[i].Dir? && WalkReaches(e.entries[i], p + [e.entries[i].name], x)
  }

  /** A file more than one level down is reached through the subdirectory
      named by the first step. */
  lemma ReachesThroughChild(e: Entry, p: Path, x: Path)
    requires e.Dir? && e.readable && WellFormed(e)
    requires WalkReaches(e, p, x) && |x| > |p| + 1
    ensures ReachesBelow(e, p, x)
  {
    var es := e.entries;
    var q := x[|p|..];
    var c := Child(es, q[0]).value;
    var i :| 0 <= i < |es| && es[i] == c;
    assert x[..|p| + 1] == p + [c.name];
    assert x[..|p + [c.name]|] == p + [c.name];
    assert x[|p + [c.name]|..] == q[1..];
    assert WalkReaches(es[i], p + [es[i].name], x);
  }

  /** What a subdirectory's walk reaches, the walk of its parent reaches. */
  lemma ReachesFromChild(e: Entry, p: Path, x: Path)
    requires e.Dir? && e.readable && WellFormed(e)
    requires ReachesBelow(e, p, x)
    ensures WalkReaches(e, p, x)
  {
    var i :| 0 <= i < |e.entries| && e.entries[i].Dir? && WalkReaches(e.entries[i], p + [e.entries[i].name], x);
    ChildFindsUnique(e.entries, i);
    ReachesFromChildAt(e, e.entries[i], p, x);
  }

  lemma ReachesFromChildAt(e: Entry, c: Entry, p: Path, x: Path)
    requires e.Dir? && e.readable && Child(e.entries, c.name) == Some(c)
    requires WalkReaches(c, p + [c.name], x)
    ensures WalkReaches(e, p, x)
  {
    var pc := p + [c.name];
    var rest := x[|pc|..];
    ReachCons(e, c, rest);
    assert x == pc + rest;
    assert x[..|p|] == p;
    assert x[|p|..] == [c.name] + rest;
  }

  lemma WalkReachesSplit(e: Entry, p: Path, x: Path)
    requires e.Dir? && e.readable && WellFormed(e)
    ensures WalkReaches(e, p, x) <==> ReachesDirectly(e, p, x) || ReachesBelow(e, p, x)
  {
    if WalkReaches(e, p, x) && |x| > |p| + 1 {
      ReachesThroughChild(e, p, x);
    }
    if ReachesBelow(e, p, x) {
      ReachesFromChild(e, p, x);
    }
  }

  lemma TopListed(e: Entry, p: Path, x: Path)
    requires e.Dir? && e.readable && WellFormed(e)
    ensures Listed([WalkStep(p, DirNames(e.entries), FileNames(e.entries))], x) <==> ReachesDirectly(e, p, x)
  {
    var es := e.entries;
    var top := WalkStep(p, DirNames(es), FileNames(es));
    assert [top][0] == top;
    if ReachesDirectly(e, p, x) {
      var q := x[|p|..];
      var c := Child(es, q[0]).value;
      var i :| 0 <= i < |es| && es[i] == c;
      assert x == p + [c.name];
      assert x[..|x| - 1] == p;
      assert c.File? && c.name in FileNames(es);
    }
    if Listed([top], x) {
      var f := x[|x| - 1];
      var i :| 0 <= i < |es| && es[i].File? && es[i].name == f;
      ChildFindsUnique(es, i);
      assert x[|p|..] == [f];
    }
  }

  /** The walk lists exactly the files it can reach. */
  lemma {:induction false} WalkListed(e: Entry, p: Path, x: Path)
    requires WellFormed(e)
    ensures Listed(Walk(e, p), x) <==> WalkReaches(e, p, x)
    decreases e
  {
    if e.Dir? && e.readable {
      var es := e.entries;
      var top := WalkStep(p, DirNames(es), FileNames(es));
      ListedAppend([top], WalkIn(es, |es|, p), x);
      WalkInListed(e, |es|, p, x);
      forall i | 0 <= i < |es| && es[i].Dir?
        ensures Listed(Walk(es[i], p + [es[i].name]), x) <==> WalkReaches(es[i], p + [es[i].name], x)
      {
        WalkListed(es[i], p + [es[i].name], x);
      }
      TopListed(e, p, x);
      WalkReachesSplit(e, p, x);
    }
  }

  /** find.py's contract on a well-formed tree: a path is returned exactly when
      it lies below the start folder, names a file the walk reaches through
      listable folders, and that file's own name contains the search string. */
  lemma FindExact(fs: Entry, directory: Path, searchString: string, x: Path)
    requires WellFormed(fs)
    ensures x in Matches(WalkFrom(fs, directory), searchString) <==>
              Lookup(fs, directory).Some? && WalkReaches(Lookup(fs, directory).value, directory, x) &&
              Contains(x[|x| - 1], searchString)
  {
    MatchesMembership(WalkFrom(fs, directory), searchString, x);
    if Lookup(fs, directory).Some? {
      LookupWellFormed(fs, directory);
      WalkListed(Lookup(fs, directory).value, directory, x);
    }
  }

  /** The empty search string occurs in every name: every reachable file is
      found. */
  lemma EmptySearchFindsEveryFile(fs: Entry, directory: Path, x: Path)
    requires WellFormed(fs)
    ensures x in Matches(WalkFrom(fs, directory), "") <==>
              Lookup(fs, directory).Some? && WalkReaches(Lookup(fs, directory).value, directory, x)
  {
    FindExact(fs, directory, "", x);
    if |x| > 0 {
      assert OccursAt(x[|x| - 1], "", 0);
    }
  }
}
