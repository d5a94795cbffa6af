/**
 * The recursive recency scan of a "RCRD CPY" archive (`scan_directory` in
 * filescan.py, repeated in gui_test.py with the cutoff taken from the
 * enclosing function).
 *
 * A directory's entries are read in order. A subdirectory is scanned at once
 * and its result appended; the first file modified at or after the cutoff
 * ends the directory: the directory itself is appended and the list returned,
 * so later entries are never looked at. Any exception inside a directory
 * (it cannot be listed, a `stat` fails) makes that directory's result empty,
 * throwing away what its earlier subdirectories had found.
 */
module RecencyScan {
  import opened FileTree

  /** An entry that ends the loop over its directory: a file whose `stat`
      raises, or a file recent enough to qualify. */
  predicate Stops(e: Entry, cutoff: int)
  {
    e.File? && (!e.statable || e.mtime >= cutoff)
  }

  /** The index of the first entry that stops the loop, or `|es|` if none does. */
  function FirstStop(es: seq<Entry>, cutoff: int): (k: nat)
    ensures k <= |es|
    ensures forall j | 0 <= j < k :: !Stops(es[j], cutoff)
    ensures k < |es| ==> Stops(es[k], cutoff)
  {
    if es == [] then 0
    else if Stops(es[0], cutoff) then 0
    else 1 + FirstStop(es[1..], cutoff)
  }

  /** What `scan_directory(dir)` returns when `e` is what the operating system
      finds at `dir`. */
  function Scan(e: Entry, dir: Path, cutoff: int): seq<Path>
    decreases e
  {
    match e
    case File(_, _, _) => []   // os.scandir raises NotADirectoryError: the handler returns []
    case Dir(_, es, readable) =>
      if !readable then []
      else
        var k := FirstStop(es, cutoff);
        if k == |es| then Gathered(es, k, dir, cutoff)
        else if es[k].statable then Gathered(es, k, dir, cutoff) + [dir]
        else []
  }

  /** The concatenated results of the subdirectories among the first `n` entries. */
  function Gathered(es: seq<Entry>, n: nat, dir: Path, cutoff: int): seq<Path>
    requires n <= |es|
    decreases es, n
  {
    if n == 0 then []
    else
      Gathered(es, n - 1, dir, cutoff)
      + (if es[n - 1].Dir? then Scan(es[n - 1], dir + [es[n - 1].name], cutoff) else [])
  }

  /** `scan_directory`: the loop with its early return and its exception handler. */
  method ScanDirectory(e: Entry, dir: Path, cutoff: int) returns (modifiedDirs: seq<Path>)
    ensures modifiedDirs == Scan(e, dir, cutoff)
    decreases e
  {
    modifiedDirs := [];
    if !e.Dir? || !e.readable {
      // os.scandir raises; the handler returns []
      return [];
    }
    var es := e.entries;
    var i := 0;
    while i < |es|
      invariant 0 <= i <= |es|
      invariant forall j | 0 <= j < i :: !Stops(es[j], cutoff)
      invariant modifiedDirs == Gathered(es, i, dir, cutoff)
    {
      var entry := es[i];
      if entry.File? {
        if !entry.statable {
          // entry.stat() raises; the handler returns []
          return [];
        }
        if entry.mtime >= cutoff {
          modifiedDirs := modifiedDirs + [dir];   // os.path.dirname(entry.path) is dir
          return;
        }
      } else {
        var tmpModifiedDirs := ScanDirectory(entry, dir + [entry.name], cutoff);
        if tmpModifiedDirs != [] {
          modifiedDirs := modifiedDirs + tmpModifiedDirs;
        }
      }
      i := i + 1;
    }
  }

  /** A directory directly holds a file whose `stat` succeeds and whose
      modification time is at or after the cutoff. */
  ghost predicate HoldsRecentFile(d: Entry, cutoff: int)
  {
    d.Dir? && d.readable &&
    exists i | 0 <= i < |d.entries| :: d.entries[i].File? && d.entries[i].statable && d.entries[i].mtime >= cutoff
  }

  /** `r` is `dir` or lies below it, and the directory it names in `e` holds a recent file. */
  ghost predicate MarksRecentDir(e: Entry, dir: Path, r: Path, cutoff: int)
  {
    |dir| <= |r| && r[..|dir|] == dir &&
    Lookup(e, r[|dir|..]).Some? && HoldsRecentFile(Lookup(e, r[|dir|..]).value, cutoff)
  }

  /** Soundness: every reported path is the scanned directory or lies below it,
      and names a directory that directly holds a qualifying file (equality
      with the cutoff qualifies). */
  lemma {:induction false} ScanSound(e: Entry, dir: Path, cutoff: int)
    requires WellFormed(e)
    ensures forall r | r in Scan(e, dir, cutoff) :: MarksRecentDir(e, dir, r, cutoff)
    decreases e
  {
    if e.Dir? && e.readable {
      var k := FirstStop(e.entries, cutoff);
      GatheredSound(e, k, dir, cutoff);
      if k < |e.entries| && e.entries[k].statable {
        assert dir[|dir|..] == [];
        assert HoldsRecentFile(e, cutoff) by {
          assert e.entries[k].File? && e.entries[k].statable && e.entries[k].mtime >= cutoff;
        }
      }
    }
  }

  lemma {:induction false} GatheredSound(e: Entry, n: nat, dir: Path, cutoff: int)
    requires e.Dir? && WellFormed(e) && n <= |e.entries|
    ensures forall r | r in Gathered(e.entries, n, dir, cutoff) :: MarksRecentDir(e, dir, r, cutoff)
    decreases e.entries, n
  {
    if n > 0 {
      var es := e.entries;
      GatheredSound(e, n - 1, dir, cutoff);
      var c := es[n - 1];
      if c.Dir? {
        ScanSound(c, dir + [c.name], cutoff);
        ChildFindsUnique(es, n - 1);
        forall r | r in Scan(c, dir + [c.name], cutoff) ensures MarksRecentDir(e, dir, r, cutoff) {
          var q := r[|dir|..];
          assert r[..|dir| + 1] == dir + [c.name];
          assert r[..|dir|] == r[..|dir| + 1][..|dir|];
          assert q[0] == c.name && q[1..] == r[|dir| + 1..];
          assert (dir + [c.name]) == r[..|dir + [c.name]|];
        }
      }
    }
  }

  /** No directory is reported twice. */
  lemma {:induction false} ScanNoDuplicates(e: Entry, dir: Path, cutoff: int)
    requires WellFormed(e)
    ensures NoDuplicates(Scan(e, dir, cutoff))
    decreases e
  {
    if e.Dir? && e.readable {
      var k := FirstStop(e.entries, cutoff);
      GatheredNoDuplicates(e, k, dir, cutoff);
      if k < |e.entries| && e.entries[k].statable {
        NoDuplicatesAppend(Gathered(e.entries, k, dir, cutoff), [dir]);
      }
    }
  }

  /** What a subdirectory's scan reports lies below that subdirectory. */
  lemma ScanStaysBelow(c: Entry, dir: Path, cutoff: int)
    requires WellFormed(c)
    ensures forall r | r in Scan(c, dir + [c.name], cutoff) :: |r| > |dir| && r[..|dir|] == dir && r[|dir|] == c.name
  {
    var sub := dir + [c.name];
    ScanSound(c, sub, cutoff);
    forall r | r in Scan(c, sub, cutoff) ensures |r| > |dir| && r[..|dir|] == dir && r[|dir|] == c.name {
      assert |sub| <= |r| && r[..|sub|] == sub;
      assert r[..|dir|] == r[..|sub|][..|dir|];
    }
  }

  lemma {:induction false} GatheredNoDuplicates(e: Entry, n: nat, dir: Path, cutoff: int)
    requires e.Dir? && WellFormed(e) && n <= |e.entries|
    ensures NoDuplicates(Gathered(e.entries, n, dir, cutoff))
    ensures forall r | r in Gathered(e.entries, n, dir, cutoff) ::
              |r| > |dir| && r[..|dir|] == dir && exists j | 0 <= j < n :: r[|dir|] == e.entries[j].name
    decreases e.entries, n
  {
    if n > 0 {
      var es := e.entries;
      GatheredNoDuplicates(e, n - 1, dir, cutoff);
      var c := es[n - 1];
      var before := Gathered(es, n - 1, dir, cutoff);
      var sub := if c.Dir? then Scan(c, dir + [c.name], cutoff) else [];
      if c.Dir? {
        assert WellFormed(c);
        ScanStaysBelow(c, dir, cutoff);
        ScanNoDuplicates(c, dir + [c.name], cutoff);
      }
      assert Gathered(es, n, dir, cutoff) == before + sub;
      assert forall r | r in before :: r !in sub by {
        forall r | r in before ensures r !in sub {
          var j :| 0 <= j < n - 1 && r[|dir|] == es[j].name;
          assert es[j].name != c.name;
        }
      }
      NoDuplicatesAppend(before, sub);
      forall r | r in before + sub
        ensures |r| > |dir| && r[..|dir|] == dir && exists j | 0 <= j < n :: r[|dir|] == es[j].name
      {
        if r in before {
          var j :| 0 <= j < n - 1 && r[|dir|] == es[j].name;
          assert j < n;
        } else {
          assert r[|dir|] == es[n - 1].name;
        }
      }
    }
  }

  lemma {:induction false} GatheredPrefix(es: seq<Entry>, es': seq<Entry>, n: nat, dir: Path, cutoff: int)
    requires n <= |es| && n <= |es'| && es[..n] == es'[..n]
    ensures Gathered(es, n, dir, cutoff) == Gathered(es', n, dir, cutoff)
  {
    if n > 0 {
      assert es[n - 1] == es[..n][n - 1] == es'[..n][n - 1] == es'[n - 1];
      assert es[..n - 1] == es[..n][..n - 1] == es'[..n][..n - 1] == es'[..n - 1];
      GatheredPrefix(es, es', n - 1, dir, cutoff);
    }
  }

  lemma {:induction false} FirstStopPrefix(es: seq<Entry>, es': seq<Entry>, k: nat, cutoff: int)
    requires k < |es| && k < |es'| && es[..k + 1] == es'[..k + 1] && Stops(es[k], cutoff)
    ensures FirstStop(es, cutoff) == FirstStop(es', cutoff) <= k
  {
    assert forall j | 0 <= j <= k :: es[j] == es[..k + 1][j] == es'[..k + 1][j] == es'[j];
  }

  /** Early exit: once an entry stops the loop, whatever follows it in the
      directory (files or subdirectories) has no effect on the result. */
  lemma ScanIgnoresEntriesAfterStop(name: string, es: seq<Entry>, k: nat, rest: seq<Entry>, dir: Path, cutoff: int)
    requires k < |es| && Stops(es[k], cutoff)
    ensures Scan(Dir(name, es[..k + 1] + rest, true), dir, cutoff) == Scan(Dir(name, es, true), dir, cutoff)
  {
    var es' := es[..k + 1] + rest;
    assert es'[..k + 1] == es[..k + 1];
    FirstStopPrefix(es, es', k, cutoff);
    var s := FirstStop(es, cutoff);
    assert es'[..s] == es[..s] by {
      assert es'[..s] == es'[..k + 1][..s] && es[..s] == es[..k + 1][..s];
    }
    GatheredPrefix(es, es', s, dir, cutoff);
    assert es'[s] == es'[..k + 1][s] == es[..k + 1][s] == es[s];
  }

  /** The early-exit scenario: a recent file listed before a
      subdirectory that also holds a recent file. Only the archive root is
      reported; the subdirectory is never visited. */
  lemma EarlyExitSkipsLaterSubdirectory(cutoff: int)
    ensures var sub := Dir("sub", [File("new.txt", cutoff, true)], true);
            var root := Dir("RCRD CPY", [File("a.txt", cutoff, true), sub], true);
            Scan(root, ["RCRD CPY"], cutoff) == [["RCRD CPY"]] &&
            Scan(sub, ["RCRD CPY", "sub"], cutoff) == [["RCRD CPY", "sub"]]
  {
  }

  /** An exception after a subdirectory has matched empties the whole
      directory's result, the subdirectory's match included. */
  lemma FailureDiscardsEarlierMatches(cutoff: int)
    ensures var sub := Dir("sub", [File("new.txt", cutoff, true)], true);
            var root := Dir("RCRD CPY", [sub, File("locked.txt", cutoff, false)], true);
            Scan(root, ["RCRD CPY"], cutoff) == [] &&
            Scan(sub, ["RCRD CPY", "sub"], cutoff) == [["RCRD CPY", "sub"]]
  {
  }
}
