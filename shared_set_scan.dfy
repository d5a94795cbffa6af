/**
 * test.py's variant of the scan. The folder lists are built first, office by
 * office, group by group, project by project, then every existing "RCRD CPY"
 * folder is scanned by a `scan_directory` that adds the directories it finds
 * to one set shared by all calls (`matching_dirs`).
 *
 * The loop over a directory is the one of filescan.py: a subdirectory is
 * scanned at once, the first recent file adds the directory and ends the
 * loop, a failing `stat` ends it too. The difference is in what a failure
 * costs: what nested calls have already added to the shared set stays there.
 */
module SharedSetScan {
  import opened FileTree
  import opened Discovery
  import opened RecencyScan

  /** The directories that `scan_directory(dir)` adds to the shared set when
      `e` is what the operating system finds at `dir`. */
  function Marked(e: Entry, dir: Path, cutoff: int): set<Path>
    decreases e
  {
    match e
    case File(_, _, _) => {}
    case Dir(_, es, readable) =>
      if !readable then {}
      else
        var k := FirstStop(es, cutoff);
        MarkedIn(es, k, dir, cutoff) + (if k < |es| && es[k].statable then {dir} else {})
  }

  /** What the subdirectories among the first `n` entries add. */
  function MarkedIn(es: seq<Entry>, n: nat, dir: Path, cutoff: int): set<Path>
    requires n <= |es|
    decreases es, n
  {
    if n == 0 then {}
    else
      MarkedIn(es, n - 1, dir, cutoff)
      + (if es[n - 1].Dir? then Marked(es[n - 1], dir + [es[n - 1].name], cutoff) else {})
  }

  /** The closure state of test.py's `run_script`: the shared result set and
      the `scan_directory` that writes into it. */
  class SharedSetScanner {
    var matchingDirs: set<Path>

    constructor ()
      ensures matchingDirs == {}
    {
      matchingDirs := {};
    }

    /** test.py:64-76. */
    method ScanDirectory(e: Entry, dir: Path, cutoff: int)
      modifies this
      ensures matchingDirs == old(matchingDirs) + Marked(e, dir, cutoff)
      decreases e
    {
      if !e.Dir? || !e.readable {
        // os.scandir raises; the handler only reports it
        return;
      }
      var es := e.entries;
      var i := 0;
      while i < |es|
        invariant 0 <= i <= |es|
        invariant forall j | 0 <= j < i :: !Stops(es[j], cutoff)
        invariant matchingDirs == old(matchingDirs) + MarkedIn(es, i, dir, cutoff)
      {
        var entry := es[i];
        if entry.Dir? {
          ScanDirectory(entry, dir + [entry.name], cutoff);
        } else {
          if !entry.statable {
            // entry.stat() raises: the rest of the directory is skipped
            return;
          }
          if entry.mtime >= cutoff {
            matchingDirs := matchingDirs + {dir};
            return;
          }
        }
        i := i + 1;
      }
    }

    /** test.py:78-79: one scan per "RCRD CPY" folder, all into the same set. */
    method ScanAll(fs: Entry, rcrdCpyDirs: seq<Path>, cutoff: int)
      modifies this
      ensures matchingDirs == old(matchingDirs) + MarkedAll(fs, rcrdCpyDirs, cutoff)
    {
      var i := 0;
      while i < |rcrdCpyDirs|
        invariant 0 <= i <= |rcrdCpyDirs|
        invariant matchingDirs == old(matchingDirs) + MarkedAll(fs, rcrdCpyDirs[..i], cutoff)
      {
        MarkedAllStep(fs, rcrdCpyDirs, i, cutoff);
        var found := Lookup(fs, rcrdCpyDirs[i]);
        if found.Some? {
          ScanDirectory(found.value, rcrdCpyDirs[i], cutoff);
        }
        i := i + 1;
      }
      assert rcrdCpyDirs[..i] == rcrdCpyDirs;
    }
  }

  /** Everything the scans of `roots` add, in any order. */
  function MarkedAll(fs: Entry, roots: seq<Path>, cutoff: int): set<Path>
  {
    if roots == [] then {}
    else
      var root := roots[|roots| - 1];
      MarkedAll(fs, roots[..|roots| - 1], cutoff)
      + (match Lookup(fs, root) case None => {} case Some(e) => Marked(e, root, cutoff))
  }

  /** One more archive: its marked directories join those of the archives before it. */
  lemma MarkedAllStep(fs: Entry, roots: seq<Path>, i: nat, cutoff: int)
    requires i < |roots|
    ensures MarkedAll(fs, roots[..i + 1], cutoff) ==
              MarkedAll(fs, roots[..i], cutoff)
              + (match Lookup(fs, roots[i]) case None => {} case Some(e) => Marked(e, roots[i], cutoff))
  {
    assert roots[..i + 1][..i] == roots[..i] && roots[..i + 1][i] == roots[i];
  }

  /** Soundness: every added directory is the scanned one or lies below it, and
      directly holds a file modified at or after the cutoff. */
  lemma {:induction false} MarkedSound(e: Entry, dir: Path, cutoff: int)
    requires WellFormed(e)
    ensures forall r | r in Marked(e, dir, cutoff) :: MarksRecentDir(e, dir, r, cutoff)
    decreases e
  {
    if e.Dir? && e.readable {
      var k := FirstStop(e.entries, cutoff);
      MarkedInSound(e, k, dir, cutoff);
      if k < |e.entries| && e.entries[k].statable {
        assert dir[|dir|..] == [];
        assert HoldsRecentFile(e, cutoff) by {
          assert e.entries[k].File? && e.entries[k].statable && e.entries[k].mtime >= cutoff;
        }
      }
    }
  }

  lemma {:induction false} MarkedInSound(e: Entry, n: nat, dir: Path, cutoff: int)
    requires e.Dir? && WellFormed(e) && n <= |e.entries|
    ensures forall r | r in MarkedIn(e.entries, n, dir, cutoff) :: MarksRecentDir(e, dir, r, cutoff)
    decreases e.entries, n
  {
    if n > 0 {
      var es := e.entries;
      MarkedInSound(e, n - 1, dir, cutoff);
      var c := es[n - 1];
      if c.Dir? {
        MarkedSound(c, dir + [c.name], cutoff);
        ChildFindsUnique(es, n - 1);
        forall r | r in Marked(c, dir + [c.name], cutoff) ensures MarksRecentDir(e, dir, r, cutoff) {
          var q := r[|dir|..];
          assert r[..|dir| + 1] == dir + [c.name];
          assert r[..|dir|] == r[..|dir| + 1][..|dir|];
          assert q[0] == c.name && q[1..] == r[|dir| + 1..];
          assert (dir + [c.name]) == r[..|dir + [c.name]|];
        }
      }
    }
  }

  /** Everything filescan.py's scan reports for a folder, test.py's scan adds
      to its set. */
  lemma {:induction false} ScanWithinMarked(e: Entry, dir: Path, cutoff: int)
    ensures forall r | r in Scan(e, dir, cutoff) :: r in Marked(e, dir, cutoff)
    decreases e
  {
    if e.Dir? && e.readable {
      GatheredWithinMarkedIn(e.entries, FirstStop(e.entries, cutoff), dir, cutoff);
    }
  }

  lemma {:induction false} GatheredWithinMarkedIn(es: seq<Entry>, n: nat, dir: Path, cutoff: int)
    requires n <= |es|
    ensures forall r | r in Gathered(es, n, dir, cutoff) :: r in MarkedIn(es, n, dir, cutoff)
    decreases es, n
  {
    if n > 0 {
      GatheredWithinMarkedIn(es, n - 1, dir, cutoff);
      if es[n - 1].Dir? {
        ScanWithinMarked(es[n - 1], dir + [es[n - 1].name], cutoff);
      }
    }
  }

  /** No `stat` fails anywhere below `e`. */
  ghost predicate AllStatable(e: Entry)
    decreases e
  {
    match e
    case File(_, _, statable) => statable
    case Dir(_, es, _) => forall i | 0 <= i < |es| :: AllStatable(es[i])
  }

  /** When no `stat` fails, the two scans find the same directories. */
  lemma {:induction false} MarkedIsScanWhenStatable(e: Entry, dir: Path, cutoff: int)
    requires AllStatable(e)
    ensures Marked(e, dir, cutoff) == set r | r in Scan(e, dir, cutoff)
    decreases e
  {
    if e.Dir? && e.readable {
      var k := FirstStop(e.entries, cutoff);
      MarkedInIsGathered(e.entries, k, dir, cutoff);
      if k < |e.entries| {
        assert AllStatable(e.entries[k]);
      }
    }
  }

  lemma {:induction false} MarkedInIsGathered(es: seq<Entry>, n: nat, dir: Path, cutoff: int)
    requires n <= |es| && forall i | 0 <= i < |es| :: AllStatable(es[i])
    ensures MarkedIn(es, n, dir, cutoff) == set r | r in Gathered(es, n, dir, cutoff)
    decreases es, n
  {
    if n > 0 {
      MarkedInIsGathered(es, n - 1, dir, cutoff);
      if es[n - 1].Dir? {
        MarkedIsScanWhenStatable(es[n - 1], dir + [es[n - 1].name], cutoff);
      }
    }
  }

  /** A failing `stat` after a matching subdirectory: filescan.py's scan
      reports nothing for the folder, test.py's keeps the subdirectory. */
  lemma SharedSetKeepsEarlierMatches(cutoff: int)
    ensures var sub := Dir("sub", [File("new.txt", cutoff, true)], true);
            var root := Dir("RCRD CPY", [sub, File("locked.txt", cutoff, false)], true);
            Scan(root, ["RCRD CPY"], cutoff) == [] &&
            Marked(root, ["RCRD CPY"], cutoff) == {["RCRD CPY", "sub"]}
  {
    var sub := Dir("sub", [File("new.txt", cutoff, true)], true);
    var root := Dir("RCRD CPY", [sub, File("locked.txt", cutoff, false)], true);
    assert FirstStop(sub.entries, cutoff) == 0;
    assert ["RCRD CPY"] + ["sub"] == ["RCRD CPY", "sub"];
    assert Marked(sub, ["RCRD CPY", "sub"], cutoff) == {["RCRD CPY", "sub"]};
    assert FirstStop(root.entries, cutoff) == 1;
    assert MarkedIn(root.entries, 1, ["RCRD CPY"], cutoff) == {["RCRD CPY", "sub"]};
  }

  /** test.py:24: the office folders `base\office`, in selection order. */
  function OfficePaths(base: Path, offices: seq<string>): (r: seq<Path>)
    ensures |r| == |offices|
    ensures forall i | 0 <= i < |offices| :: r[i] == base + [offices[i]]
  {
    seq(|offices|, i requires 0 <= i < |offices| => base + [offices[i]])
  }

  /** For a selection without repeats, test.py's office folders are the
      folders of filescan.py's office dict, in the same order. */
  lemma OfficePathsAreOfficeDirs(base: Path, offices: seq<string>)
    requires NoDuplicates(offices)
    ensures |OfficePaths(base, offices)| == |OfficeDirs(base, offices)|
    ensures forall i | 0 <= i < |offices| :: OfficePaths(base, offices)[i] == OfficeDirs(base, offices)[i].1
  {
    DedupNoDuplicates(offices);
  }

  /** test.py:26-34: the groups of every office folder, office after office.
      A listing error is not caught. */
  method CollectProjectGroupDirs(fs: Entry, officePaths: seq<Path>) returns (r: Result<seq<Path>>)
    ensures r == AllGroupDirs(fs, officePaths)
  {
    var projectGroupDirs: seq<Path> := [];
    var i := 0;
    while i < |officePaths|
      invariant 0 <= i <= |officePaths|
      invariant AllGroupDirs(fs, officePaths[..i]) == Ok(projectGroupDirs)
    {
      var groups := GetProjectGroupDirs(fs, officePaths[i]);
      if groups.Err? {
        AllGroupDirsErrStep(fs, officePaths, i, groups.error);
        return Err(groups.error);
      }
      AllGroupDirsOkStep(fs, officePaths, i, projectGroupDirs, groups.value);
      projectGroupDirs := projectGroupDirs + groups.value;
      i := i + 1;
    }
    assert officePaths[..i] == officePaths;
    return Ok(projectGroupDirs);
  }

  /** test.py:38-46: the projects of every group folder, group after group.
      A listing error is not caught. */
  method CollectProjectDirs(fs: Entry, groupDirs: seq<Path>) returns (r: Result<seq<Path>>)
    ensures r == AllProjectDirs(fs, groupDirs)
  {
    var projectDirs: seq<Path> := [];
    var i := 0;
    while i < |groupDirs|
      invariant 0 <= i <= |groupDirs|
      invariant AllProjectDirs(fs, groupDirs[..i]) == Ok(projectDirs)
    {
      var projects := GetProjectDirs(fs, groupDirs[i]);
      if projects.Err? {
        AllProjectDirsErrStep(fs, groupDirs, i, projects.error);
        return Err(projects.error);
      }
      AllProjectDirsOkStep(fs, groupDirs, i, projectDirs, projects.value);
      projectDirs := projectDirs + projects.value;
      i := i + 1;
    }
    assert groupDirs[..i] == groupDirs;
    return Ok(projectDirs);
  }

  /** The existing archives of one project, in discipline order. */
  function ProjectArchives(fs: Entry, projectDir: Path, ds: seq<string>): seq<Path>
  {
    if ds == [] then []
    else
      var archive := projectDir + [ds[|ds| - 1], ArchiveFolder];
      ProjectArchives(fs, projectDir, ds[..|ds| - 1]) + (if Exists(fs, archive) then [archive] else [])
  }

  /** The existing archives of all projects: project-major, discipline-minor. */
  function RcrdCpyDirs(fs: Entry, projectDirs: seq<Path>, ds: seq<string>): seq<Path>
  {
    if projectDirs == [] then []
    else RcrdCpyDirs(fs, projectDirs[..|projectDirs| - 1], ds) + ProjectArchives(fs, projectDirs[|projectDirs| - 1], ds)
  }

  /** test.py:48-56. */
  method CollectRcrdCpyDirs(fs: Entry, projectDirs: seq<Path>, ds: seq<string>) returns (rcrdCpyDirs: seq<Path>)
    ensures rcrdCpyDirs == RcrdCpyDirs(fs, projectDirs, ds)
  {
    rcrdCpyDirs := [];
    var i := 0;
    while i < |projectDirs|
      invariant 0 <= i <= |projectDirs|
      invariant rcrdCpyDirs == RcrdCpyDirs(fs, projectDirs[..i], ds)
    {
      assert projectDirs[..i + 1][..i] == projectDirs[..i];
      rcrdCpyDirs := AddProjectArchives(fs, projectDirs[i], ds, rcrdCpyDirs);
      i := i + 1;
    }
    assert projectDirs[..i] == projectDirs;
  }

  method AddProjectArchives(fs: Entry, projectDir: Path, ds: seq<string>, found: seq<Path>) returns (extended: seq<Path>)
    ensures extended == found + ProjectArchives(fs, projectDir, ds)
  {
    extended := found;
    var j := 0;
    while j < |ds|
      invariant 0 <= j <= |ds|
      invariant extended == found + ProjectArchives(fs, projectDir, ds[..j])
    {
      assert ds[..j + 1][..j] == ds[..j];
      var disciplineDir := projectDir + [ds[j]];
      assert disciplineDir + [ArchiveFolder] == projectDir + [ds[..j + 1][j], ArchiveFolder];
      if Exists(fs, disciplineDir + [ArchiveFolder]) {
        extended := extended + [disciplineDir + [ArchiveFolder]];
      }
      j := j + 1;
    }
    assert ds[..j] == ds;
  }

  lemma {:induction false} ProjectArchivesMembership(fs: Entry, projectDir: Path, ds: seq<string>, x: Path)
    ensures x in ProjectArchives(fs, projectDir, ds) <==> Exists(fs, x) && exists d | d in ds :: x == projectDir + [d, ArchiveFolder]
  {
    if ds != [] {
      ProjectArchivesMembership(fs, projectDir, ds[..|ds| - 1], x);
      assert ds == ds[..|ds| - 1] + [ds[|ds| - 1]];
    }
  }

  /** filescan.py's `get_rcrd_cpy_dirs` and test.py's inline existence check
      agree: for a selected discipline, the archive is found by one exactly
      when it is listed by the other. */
  lemma RcrdCpyDirAgrees(fs: Entry, projectDir: Path, ds: seq<string>, d: string)
    requires d in ds
    ensures RcrdCpyDir(fs, d, projectDir).Some? <==> projectDir + [d, ArchiveFolder] in ProjectArchives(fs, projectDir, ds)
    ensures RcrdCpyDir(fs, d, projectDir).Some? ==> RcrdCpyDir(fs, d, projectDir).value in ProjectArchives(fs, projectDir, ds)
  {
    ProjectArchivesMembership(fs, projectDir, ds, projectDir + [d, ArchiveFolder]);
  }

  /** A folder is in the archive list exactly when it exists and is the
      "RCRD CPY" folder of a listed project and a selected discipline. */
  lemma {:induction false} RcrdCpyDirsMembership(fs: Entry, projectDirs: seq<Path>, ds: seq<string>, x: Path)
    ensures x in RcrdCpyDirs(fs, projectDirs, ds) <==>
              Exists(fs, x) && exists p, d | p in projectDirs && d in ds :: x == p + [d, ArchiveFolder]
  {
    if projectDirs != [] {
      var front := projectDirs[..|projectDirs| - 1];
      var last := projectDirs[|projectDirs| - 1];
      RcrdCpyDirsMembership(fs, front, ds, x);
      ProjectArchivesMembership(fs, last, ds, x);
      if x in RcrdCpyDirs(fs, front, ds) {
        var p, d :| p in front && d in ds && x == p + [d, ArchiveFolder];
        assert p in projectDirs;
      }
      if x in ProjectArchives(fs, last, ds) {
        var d :| d in ds && x == last + [d, ArchiveFolder];
        assert last in projectDirs;
      }
      if Exists(fs, x) && exists p, d | p in projectDirs && d in ds :: x == p + [d, ArchiveFolder] {
        var p, d :| p in projectDirs && d in ds && x == p + [d, ArchiveFolder];
        var i :| 0 <= i < |projectDirs| && projectDirs[i] == p;
        if i < |front| {
          assert front[i] == p;
          assert p in front && d in ds && x == p + [d, ArchiveFolder];
          assert x in RcrdCpyDirs(fs, front, ds);
        } else {
          assert p == last;
          assert x in ProjectArchives(fs, last, ds);
        }
      }
    }
  }

  /** The set test.py ends with, or the listing error that stops it first. */
  function SharedScanResult(fs: Entry, base: Path, offices: seq<string>, ds: seq<string>, cutoff: int): Result<set<Path>>
  {
    match AllGroupDirs(fs, OfficePaths(base, offices))
    case Err(x) => Err(x)
    case Ok(groups) =>
      match AllProjectDirs(fs, groups)
      case Err(x) => Err(x)
      case Ok(projects) => Ok(MarkedAll(fs, RcrdCpyDirs(fs, projects, ds), cutoff))
  }

  /** test.py:24-79: build the three lists, then scan every archive into a
      fresh shared set. */
  method RunSharedScan(fs: Entry, base: Path, offices: seq<string>, ds: seq<string>, cutoff: int)
    returns (r: Result<set<Path>>)
    ensures r == SharedScanResult(fs, base, offices, ds, cutoff)
  {
    var groups := CollectProjectGroupDirs(fs, OfficePaths(base, offices));
    if groups.Err? {
      return Err(groups.error);
    }
    var projects := CollectProjectDirs(fs, groups.value);
    if projects.Err? {
      return Err(projects.error);
    }
    var rcrdCpyDirs := CollectRcrdCpyDirs(fs, projects.value, ds);
    var scanner := new SharedSetScanner();
    scanner.ScanAll(fs, rcrdCpyDirs, cutoff);
    assert scanner.matchingDirs == MarkedAll(fs, RcrdCpyDirs(fs, projects.value, ds), cutoff);
    return Ok(scanner.matchingDirs);
  }
}
