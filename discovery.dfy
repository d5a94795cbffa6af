/**
 * Office, project-group, project and "RCRD CPY" discovery (filescan.py
 * `get_office_dirs`, `get_project_group_dirs`, `get_project_dirs`,
 * `get_rcrd_cpy_dirs`, and the same helpers written as comprehensions in
 * gui_test.py). The comprehensions are the specification functions; the
 * filescan.py loops are the methods proved equal to them.
 */
module Discovery {
  import opened FileTree

  /** The archive folder inside each discipline folder. */
  const ArchiveFolder: string := "RCRD CPY"

  /** A project-group folder name: exactly five decimal digits. */
  predicate IsGroupName(n: string)
  {
    |n| == 5 && IsDigits(n)
  }

  /** `get_office_dirs`: the dict office -> join(base, office), in key order. */
  function OfficeDirs(base: Path, offices: seq<string>): (r: seq<(string, Path)>)
    ensures |r| == |Dedup(offices)|
    ensures forall i | 0 <= i < |r| :: r[i].0 == Dedup(offices)[i] && r[i].1 == base + [r[i].0]
    ensures forall o :: o in offices <==> exists i | 0 <= i < |r| :: r[i].0 == o
  {
    var keys := Dedup(offices);
    var r := seq(|keys|, i requires 0 <= i < |keys| => (keys[i], base + [keys[i]]));
    assert forall o | o in keys :: exists i | 0 <= i < |r| :: r[i].0 == o by {
      forall o | o in keys ensures exists i | 0 <= i < |r| :: r[i].0 == o {
        var i :| 0 <= i < |keys| && keys[i] == o;
        assert r[i].0 == o;
      }
    }
    r
  }

  /** The paths of the subdirectories among `es` whose name is a group name,
      in enumeration order (the list comprehension of gui_test.py). */
  function GroupPaths(es: seq<Entry>, dir: Path): (r: seq<Path>)
    ensures |r| <= |es|
    ensures forall p :: p in r <==>
              exists i | 0 <= i < |es| :: es[i].Dir? && IsGroupName(es[i].name) && p == dir + [es[i].name]
  {
    if es == [] then []
    else
      var last := es[|es| - 1];
      var front := GroupPaths(es[..|es| - 1], dir);
      assert forall i | 0 <= i < |es| - 1 :: es[..|es| - 1][i] == es[i];
      if last.Dir? && IsGroupName(last.name) then front + [dir + [last.name]] else front
  }

  /** The paths of every subdirectory among `es`, in enumeration order. */
  function SubdirPaths(es: seq<Entry>, dir: Path): (r: seq<Path>)
    ensures |r| <= |es|
    ensures forall p :: p in r <==> exists i | 0 <= i < |es| :: es[i].Dir? && p == dir + [es[i].name]
  {
    if es == [] then []
    else
      var last := es[|es| - 1];
      var front := SubdirPaths(es[..|es| - 1], dir);
      assert forall i | 0 <= i < |es| - 1 :: es[..|es| - 1][i] == es[i];
      if last.Dir? then front + [dir + [last.name]] else front
  }

  /** Enumeration order is kept: the paths for entries `a` then `b` are the
      paths for `a` followed by the paths for `b`. */
  lemma {:induction false} GroupPathsAppend(a: seq<Entry>, b: seq<Entry>, dir: Path)
    ensures GroupPaths(a + b, dir) == GroupPaths(a, dir) + GroupPaths(b, dir)
    decreases |b|
  {
    if b == [] {
      assert a + b == a;
    } else {
      assert (a + b)[..|a + b| - 1] == a + b[..|b| - 1];
      GroupPathsAppend(a, b[..|b| - 1], dir);
    }
  }

  lemma {:induction false} SubdirPathsAppend(a: seq<Entry>, b: seq<Entry>, dir: Path)
    ensures SubdirPaths(a + b, dir) == SubdirPaths(a, dir) + SubdirPaths(b, dir)
    decreases |b|
  {
    if b == [] {
      assert a + b == a;
    } else {
      assert (a + b)[..|a + b| - 1] == a + b[..|b| - 1];
      SubdirPathsAppend(a, b[..|b| - 1], dir);
    }
  }

  /** `get_project_group_dirs(office_dir)`; the scandir error is not caught. */
  function GroupDirs(fs: Entry, officeDir: Path): Result<seq<Path>>
  {
    match ScanDir(fs, officeDir)
    case Err(x) => Err(x)
    case Ok(es) => Ok(GroupPaths(es, officeDir))
  }

  /** `get_project_dirs(project_group_dir)`; the scandir error is not caught. */
  function ProjectDirs(fs: Entry, groupDir: Path): Result<seq<Path>>
  {
    match ScanDir(fs, groupDir)
    case Err(x) => Err(x)
    case Ok(es) => Ok(SubdirPaths(es, groupDir))
  }

  /** The loop of filescan.py's `get_project_group_dirs`. */
  method GetProjectGroupDirs(fs: Entry, officeDir: Path) returns (r: Result<seq<Path>>)
    ensures r == GroupDirs(fs, officeDir)
  {
    var listing := ScanDir(fs, officeDir);
    if listing.Err? {
      return Err(listing.error);
    }
    var entries := listing.value;
    var projectGroupDirs: seq<Path> := [];
    var i := 0;
    while i < |entries|
      invariant 0 <= i <= |entries|
      invariant projectGroupDirs == GroupPaths(entries[..i], officeDir)
    {
      var entry := entries[i];
      assert entries[..i + 1][..i] == entries[..i];
      if entry.Dir? && |entry.name| == 5 && IsDigits(entry.name) {
        projectGroupDirs := projectGroupDirs + [officeDir + [entry.name]];
      }
      i := i + 1;
    }
    assert entries[..i] == entries;
    return Ok(projectGroupDirs);
  }

  /** The loop of filescan.py's `get_project_dirs`. */
  method GetProjectDirs(fs: Entry, groupDir: Path) returns (r: Result<seq<Path>>)
    ensures r == ProjectDirs(fs, groupDir)
  {
    var listing := ScanDir(fs, groupDir);
    if listing.Err? {
      return Err(listing.error);
    }
    var entries := listing.value;
    var projectDirs: seq<Path> := [];
    var i := 0;
    while i < |entries|
      invariant 0 <= i <= |entries|
      invariant projectDirs == SubdirPaths(entries[..i], groupDir)
    {
      var entry := entries[i];
      assert entries[..i + 1][..i] == entries[..i];
      if entry.Dir? {
        projectDirs := projectDirs + [groupDir + [entry.name]];
      }
      i := i + 1;
    }
    assert entries[..i] == entries;
    return Ok(projectDirs);
  }

  /** On a well-formed tree, the group list names exactly the five-digit
      subdirectories of the office folder, and it fails exactly when the
      office folder cannot be listed. */
  lemma GroupDirsExact(fs: Entry, officeDir: Path)
    requires WellFormed(fs)
    ensures GroupDirs(fs, officeDir).Ok? <==> ScanDir(fs, officeDir).Ok?
    ensures GroupDirs(fs, officeDir).Ok? ==>
              forall n :: officeDir + [n] in GroupDirs(fs, officeDir).value <==>
                (IsGroupName(n) && Lookup(fs, officeDir + [n]).Some? && Lookup(fs, officeDir + [n]).value.Dir?)
  {
    if ScanDir(fs, officeDir).Ok? {
      var d := Lookup(fs, officeDir).value;
      var es := d.entries;
      LookupWellFormed(fs, officeDir);
      forall n ensures officeDir + [n] in GroupPaths(es, officeDir) <==>
                (IsGroupName(n) && Lookup(fs, officeDir + [n]).Some? && Lookup(fs, officeDir + [n]).value.Dir?)
      {
        LookupAppend(fs, officeDir, n);
        if officeDir + [n] in GroupPaths(es, officeDir) {
          var i :| 0 <= i < |es| && es[i].Dir? && IsGroupName(es[i].name) && officeDir + [n] == officeDir + [es[i].name];
          assert (officeDir + [n])[|officeDir|] == n;
          ChildFindsUnique(es, i);
        }
        if IsGroupName(n) && Lookup(fs, officeDir + [n]).Some? && Lookup(fs, officeDir + [n]).value.Dir? {
          var c := Child(es, n).value;
          var i :| 0 <= i < |es| && es[i] == c;
          assert es[i].Dir? && IsGroupName(es[i].name) && officeDir + [n] == officeDir + [es[i].name];
        }
      }
    }
  }

  /** The project list names exactly the subdirectories of the group folder,
      with no filter on their names. */
  lemma ProjectDirsExact(fs: Entry, groupDir: Path)
    requires WellFormed(fs)
    ensures ProjectDirs(fs, groupDir).Ok? <==> ScanDir(fs, groupDir).Ok?
    ensures ProjectDirs(fs, groupDir).Ok? ==>
              forall n :: groupDir + [n] in ProjectDirs(fs, groupDir).value <==>
                (Lookup(fs, groupDir + [n]).Some? && Lookup(fs, groupDir + [n]).value.Dir?)
  {
    if ScanDir(fs, groupDir).Ok? {
      var d := Lookup(fs, groupDir).value;
      var es := d.entries;
      LookupWellFormed(fs, groupDir);
      forall n ensures groupDir + [n] in SubdirPaths(es, groupDir) <==>
                (Lookup(fs, groupDir + [n]).Some? && Lookup(fs, groupDir + [n]).value.Dir?)
      {
        LookupAppend(fs, groupDir, n);
        if groupDir + [n] in SubdirPaths(es, groupDir) {
          var i :| 0 <= i < |es| && es[i].Dir? && groupDir + [n] == groupDir + [es[i].name];
          assert (groupDir + [n])[|groupDir|] == n;
          ChildFindsUnique(es, i);
        }
        if Lookup(fs, groupDir + [n]).Some? && Lookup(fs, groupDir + [n]).value.Dir? {
          var c := Child(es, n).value;
          var i :| 0 <= i < |es| && es[i] == c;
          assert es[i].Dir? && groupDir + [n] == groupDir + [es[i].name];
        }
      }
    }
  }

  /** `get_rcrd_cpy_dirs(discipline, project_dir)`: the archive path when
      `os.path.exists` holds for it (a plain file of that name counts), else None. */
  function RcrdCpyDir(fs: Entry, discipline: string, projectDir: Path): (r: Option<Path>)
    ensures r.Some? <==> Lookup(fs, projectDir + [discipline, ArchiveFolder]).Some?
    ensures r.Some? ==> r.value == projectDir + [discipline, ArchiveFolder]
  {
    var rcrdCpyDir := projectDir + [discipline, ArchiveFolder];
    if Exists(fs, rcrdCpyDir) then Some(rcrdCpyDir) else None
  }

  /** The project groups of several office folders, office after office, with
      the first enumeration error (the list builder of test.py). */
  function AllGroupDirs(fs: Entry, officeDirs: seq<Path>): Result<seq<Path>>
  {
    if officeDirs == [] then Ok([])
    else
      var front := AllGroupDirs(fs, officeDirs[..|officeDirs| - 1]);
      if front.Err? then front
      else match GroupDirs(fs, officeDirs[|officeDirs| - 1])
        case Err(x) => Err(x)
        case Ok(gs) => Ok(front.value + gs)
  }

  /** The projects of several group folders, group after group, with the first
      enumeration error (filescan.py's loop over groups, and test.py). */
  function AllProjectDirs(fs: Entry, groupDirs: seq<Path>): Result<seq<Path>>
  {
    if groupDirs == [] then Ok([])
    else
      var front := AllProjectDirs(fs, groupDirs[..|groupDirs| - 1]);
      if front.Err? then front
      else match ProjectDirs(fs, groupDirs[|groupDirs| - 1])
        case Err(x) => Err(x)
        case Ok(ps) => Ok(front.value + ps)
  }

  /** Every project of an office: the groups of the office folder, then the
      projects of each group; the first enumeration error otherwise. */
  function OfficeProjects(fs: Entry, officeDir: Path): Result<seq<Path>>
  {
    match GroupDirs(fs, officeDir)
    case Err(x) => Err(x)
    case Ok(groups) => AllProjectDirs(fs, groups)
  }

  /** One more office folder: its groups are appended, or its error ends the list. */
  lemma AllGroupDirsStep(fs: Entry, officeDirs: seq<Path>, i: nat)
    requires i < |officeDirs|
    ensures AllGroupDirs(fs, officeDirs[..i + 1]) ==
              if AllGroupDirs(fs, officeDirs[..i]).Err? then AllGroupDirs(fs, officeDirs[..i])
              else match GroupDirs(fs, officeDirs[i])
                case Err(x) => Err(x)
                case Ok(gs) => Ok(AllGroupDirs(fs, officeDirs[..i]).value + gs)
  {
    assert officeDirs[..i + 1][..i] == officeDirs[..i];
  }

  /** One more group folder: its projects are appended, or its error ends the list. */
  lemma AllProjectDirsStep(fs: Entry, groupDirs: seq<Path>, i: nat)
    requires i < |groupDirs|
    ensures AllProjectDirs(fs, groupDirs[..i + 1]) ==
              if AllProjectDirs(fs, groupDirs[..i]).Err? then AllProjectDirs(fs, groupDirs[..i])
              else match ProjectDirs(fs, groupDirs[i])
                case Err(x) => Err(x)
                case Ok(ps) => Ok(AllProjectDirs(fs, groupDirs[..i]).value + ps)
  {
    assert groupDirs[..i + 1][..i] == groupDirs[..i];
  }

  /** The concatenated group lists succeed exactly when every office folder can be listed. */
  lemma {:induction false} AllGroupDirsOk(fs: Entry, officeDirs: seq<Path>)
    ensures AllGroupDirs(fs, officeDirs).Ok? <==> forall i | 0 <= i < |officeDirs| :: GroupDirs(fs, officeDirs[i]).Ok?
    decreases |officeDirs|
  {
    if officeDirs != [] {
      var front := officeDirs[..|officeDirs| - 1];
      AllGroupDirsOk(fs, front);
      assert forall i | 0 <= i < |front| :: front[i] == officeDirs[i];
    }
  }

  /** The concatenated project lists succeed exactly when every group folder can be listed. */
  lemma {:induction false} AllProjectDirsOk(fs: Entry, groupDirs: seq<Path>)
    ensures AllProjectDirs(fs, groupDirs).Ok? <==> forall i | 0 <= i < |groupDirs| :: ProjectDirs(fs, groupDirs[i]).Ok?
    decreases |groupDirs|
  {
    if groupDirs != [] {
      var front := groupDirs[..|groupDirs| - 1];
      AllProjectDirsOk(fs, front);
      assert forall i | 0 <= i < |front| :: front[i] == groupDirs[i];
    }
  }

  /** The loop steps of the two list builders: a folder that lists appends its
      entries; the first folder that fails fixes the error of the whole list. */
  lemma AllGroupDirsOkStep(fs: Entry, officeDirs: seq<Path>, i: nat, acc: seq<Path>, gs: seq<Path>)
    requires i < |officeDirs| && AllGroupDirs(fs, officeDirs[..i]) == Ok(acc) && GroupDirs(fs, officeDirs[i]) == Ok(gs)
    ensures AllGroupDirs(fs, officeDirs[..i + 1]) == Ok(acc + gs)
  {
    AllGroupDirsStep(fs, officeDirs, i);
  }

  lemma AllGroupDirsErrStep(fs: Entry, officeDirs: seq<Path>, i: nat, x: FsError)
    requires i < |officeDirs| && AllGroupDirs(fs, officeDirs[..i]).Ok? && GroupDirs(fs, officeDirs[i]) == Err(x)
    ensures AllGroupDirs(fs, officeDirs) == Err(x)
  {
    AllGroupDirsStep(fs, officeDirs, i);
    AllGroupDirsErrPrefix(fs, officeDirs, i + 1);
  }

  lemma AllProjectDirsOkStep(fs: Entry, groupDirs: seq<Path>, i: nat, acc: seq<Path>, ps: seq<Path>)
    requires i < |groupDirs| && AllProjectDirs(fs, groupDirs[..i]) == Ok(acc) && ProjectDirs(fs, groupDirs[i]) == Ok(ps)
    ensures AllProjectDirs(fs, groupDirs[..i + 1]) == Ok(acc + ps)
  {
    AllProjectDirsStep(fs, groupDirs, i);
  }

  lemma AllProjectDirsErrStep(fs: Entry, groupDirs: seq<Path>, i: nat, x: FsError)
    requires i < |groupDirs| && AllProjectDirs(fs, groupDirs[..i]).Ok? && ProjectDirs(fs, groupDirs[i]) == Err(x)
    ensures AllProjectDirs(fs, groupDirs) == Err(x)
  {
    AllProjectDirsStep(fs, groupDirs, i);
    AllProjectDirsErrPrefix(fs, groupDirs, i + 1);
  }

  /** A successful concatenation holds exactly the groups of the office folders. */
  lemma {:induction false} AllGroupDirsMembership(fs: Entry, officeDirs: seq<Path>, x: Path)
    requires AllGroupDirs(fs, officeDirs).Ok?
    ensures x in AllGroupDirs(fs, officeDirs).value <==>
              exists i | 0 <= i < |officeDirs| :: GroupDirs(fs, officeDirs[i]).Ok? && x in GroupDirs(fs, officeDirs[i]).value
    decreases |officeDirs|
  {
    if officeDirs != [] {
      var n := |officeDirs| - 1;
      var front := officeDirs[..n];
      AllGroupDirsStep(fs, officeDirs, n);
      assert officeDirs[..n + 1] == officeDirs;
      AllGroupDirsMembership(fs, front, x);
      assert forall i | 0 <= i < n :: front[i] == officeDirs[i];
      if x in AllGroupDirs(fs, officeDirs).value && x !in GroupDirs(fs, officeDirs[n]).value {
        var i :| 0 <= i < n && GroupDirs(fs, front[i]).Ok? && x in GroupDirs(fs, front[i]).value;
        assert GroupDirs(fs, officeDirs[i]).Ok? && x in GroupDirs(fs, officeDirs[i]).value;
      }
    }
  }

  /** A successful concatenation holds exactly the projects of the group folders. */
  lemma {:induction false} AllProjectDirsMembership(fs: Entry, groupDirs: seq<Path>, x: Path)
    requires AllProjectDirs(fs, groupDirs).Ok?
    ensures x in AllProjectDirs(fs, groupDirs).value <==>
              exists i | 0 <= i < |groupDirs| :: ProjectDirs(fs, groupDirs[i]).Ok? && x in ProjectDirs(fs, groupDirs[i]).value
    decreases |groupDirs|
  {
    if groupDirs != [] {
      var n := |groupDirs| - 1;
      var front := groupDirs[..n];
      AllProjectDirsStep(fs, groupDirs, n);
      assert groupDirs[..n + 1] == groupDirs;
      AllProjectDirsMembership(fs, front, x);
      assert forall i | 0 <= i < n :: front[i] == groupDirs[i];
      if x in AllProjectDirs(fs, groupDirs).value && x !in ProjectDirs(fs, groupDirs[n]).value {
        var i :| 0 <= i < n && ProjectDirs(fs, front[i]).Ok? && x in ProjectDirs(fs, front[i]).value;
        assert ProjectDirs(fs, groupDirs[i]).Ok? && x in ProjectDirs(fs, groupDirs[i]).value;
      }
    }
  }

  /** A path `officeDir/g/p` that names a project: `g` is a five-digit
      directory of the office folder and `p` a directory inside `g`. */
  ghost predicate IsProjectOf(fs: Entry, officeDir: Path, x: Path)
  {
    |x| == |officeDir| + 2 && x[..|officeDir|] == officeDir && IsGroupName(x[|officeDir|]) &&
    Lookup(fs, x[..|officeDir| + 1]).Some? && Lookup(fs, x[..|officeDir| + 1]).value.Dir? &&
    Lookup(fs, x).Some? && Lookup(fs, x).value.Dir?
  }

  /** Every project found in a group of the office is a project of the office. */
  lemma OfficeProjectFound(fs: Entry, officeDir: Path, g: Path, x: Path)
    requires WellFormed(fs) && GroupDirs(fs, officeDir).Ok?
    requires g in GroupDirs(fs, officeDir).value && ProjectDirs(fs, g).Ok? && x in ProjectDirs(fs, g).value
    ensures IsProjectOf(fs, officeDir, x)
  {
    var es := ScanDir(fs, officeDir).value;
    var i :| 0 <= i < |es| && es[i].Dir? && IsGroupName(es[i].name) && g == officeDir + [es[i].name];
    GroupDirsExact(fs, officeDir);
    assert g == officeDir + [g[|officeDir|]];
    var ps := ScanDir(fs, g).value;
    var j :| 0 <= j < |ps| && ps[j].Dir? && x == g + [ps[j].name];
    ProjectDirsExact(fs, g);
    assert x[..|officeDir| + 1] == g && x[|officeDir|] == g[|officeDir|];
  }

  /** Every project of the office is found in one of its groups. */
  lemma OfficeProjectListed(fs: Entry, officeDir: Path, x: Path)
    requires WellFormed(fs) && GroupDirs(fs, officeDir).Ok? && IsProjectOf(fs, officeDir, x)
    ensures x[..|officeDir| + 1] in GroupDirs(fs, officeDir).value
    ensures ProjectDirs(fs, x[..|officeDir| + 1]).Ok? ==> x in ProjectDirs(fs, x[..|officeDir| + 1]).value
  {
    var g := x[..|officeDir| + 1];
    assert g == officeDir + [x[|officeDir|]];
    GroupDirsExact(fs, officeDir);
    assert x == g + [x[|officeDir| + 1]];
    ProjectDirsExact(fs, g);
  }

  /** On a well-formed tree, a successful office listing names exactly the
      office's projects: the subdirectories of its five-digit subdirectories. */
  lemma OfficeProjectsExact(fs: Entry, officeDir: Path, x: Path)
    requires WellFormed(fs) && OfficeProjects(fs, officeDir).Ok?
    ensures x in OfficeProjects(fs, officeDir).value <==> IsProjectOf(fs, officeDir, x)
  {
    var groups := GroupDirs(fs, officeDir).value;
    AllProjectDirsMembership(fs, groups, x);
    if x in OfficeProjects(fs, officeDir).value {
      var i :| 0 <= i < |groups| && ProjectDirs(fs, groups[i]).Ok? && x in ProjectDirs(fs, groups[i]).value;
      OfficeProjectFound(fs, officeDir, groups[i], x);
    }
    if IsProjectOf(fs, officeDir, x) {
      OfficeProjectListed(fs, officeDir, x);
      var g := x[..|officeDir| + 1];
      var i :| 0 <= i < |groups| && groups[i] == g;
      AllProjectDirsOk(fs, groups);
      assert ProjectDirs(fs, groups[i]).Ok?;
    }
  }

  /** Once a prefix of the folders fails, the whole list fails the same way. */
  lemma {:induction false} AllProjectDirsErrPrefix(fs: Entry, gs: seq<Path>, n: nat)
    requires n <= |gs| && AllProjectDirs(fs, gs[..n]).Err?
    ensures AllProjectDirs(fs, gs) == AllProjectDirs(fs, gs[..n])
    decreases |gs|
  {
    if n < |gs| {
      assert gs[..|gs| - 1][..n] == gs[..n];
      AllProjectDirsErrPrefix(fs, gs[..|gs| - 1], n);
    } else {
      assert gs[..n] == gs;
    }
  }

  lemma {:induction false} AllGroupDirsErrPrefix(fs: Entry, gs: seq<Path>, n: nat)
    requires n <= |gs| && AllGroupDirs(fs, gs[..n]).Err?
    ensures AllGroupDirs(fs, gs) == AllGroupDirs(fs, gs[..n])
    decreases |gs|
  {
    if n < |gs| {
      assert gs[..|gs| - 1][..n] == gs[..n];
      AllGroupDirsErrPrefix(fs, gs[..|gs| - 1], n);
    } else {
      assert gs[..n] == gs;
    }
  }
}
