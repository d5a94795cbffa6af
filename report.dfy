/**
 * Report assembly (filescan.py `main` and `master_dict_to_dataframe`; the
 * same steps in gui_test.py `run_script`).
 *
 * `master_dict` is a dict of dicts, office -> discipline -> list of matching
 * directories. Here it is one map keyed by the (office, discipline) pair, with
 * the key order of the outer and of the inner dicts kept beside it: Python
 * dicts enumerate in insertion order, so both orders are the configured lists
 * with later repeats dropped.
 */
module Report {
  import opened FileTree
  import opened Discovery
  import opened RecencyScan

  datatype Master = Master(offices: seq<string>, disciplines: seq<string>, lists: map<(string, string), seq<Path>>)

  /** One row of the data frame: columns Office, Discipline, Path. */
  datatype Row = Row(office: string, discipline: string, path: Path)

  function Pairs(offices: seq<string>, disciplines: seq<string>): set<(string, string)>
  {
    set o, d | o in offices && d in disciplines :: (o, d)
  }

  /** Every (office, discipline) pair of the key orders has a list, and no other key does. */
  ghost predicate Shaped(m: Master)
  {
    NoDuplicates(m.offices) && NoDuplicates(m.disciplines) &&
    forall k :: k in m.lists <==> k.0 in m.offices && k.1 in m.disciplines
  }

  /** The keys of `lists` are exactly the pairs of `offices` x `disciplines`. */
  ghost predicate KeyedBy(lists: map<(string, string), seq<Path>>, offices: seq<string>, disciplines: seq<string>)
  {
    forall k :: k in lists <==> k.0 in offices && k.1 in disciplines
  }

  /** The master dict before any scan (gui_test.py's dict comprehension):
      exactly the configured offices x disciplines, each mapped to []. */
  function InitialMaster(offices: seq<string>, disciplines: seq<string>): (m: Master)
    ensures Shaped(m)
    ensures m.offices == Dedup(offices) && m.disciplines == Dedup(disciplines)
    ensures forall k :: k in m.lists <==> k.0 in offices && k.1 in disciplines
    ensures forall k | k in m.lists :: m.lists[k] == []
  {
    Master(Dedup(offices), Dedup(disciplines), map k | k in Pairs(offices, disciplines) :: [])
  }

  /** `master_dict[office] = {}` and then `master_dict[office][d] = []` for
      every discipline `d`: the office's lists become exactly one empty list
      per discipline, and the other offices' lists stay as they were. */
  method ResetOffice(lists: map<(string, string), seq<Path>>, office: string, disciplines: seq<string>)
    returns (reset: map<(string, string), seq<Path>>)
    ensures forall k :: k in reset <==> (k in lists && k.0 != office) || (k.0 == office && k.1 in disciplines)
    ensures forall k | k in reset :: reset[k] == if k.0 == office then [] else lists[k]
  {
    reset := map k | k in lists && k.0 != office :: lists[k];
    var j := 0;
    while j < |disciplines|
      invariant 0 <= j <= |disciplines|
      invariant forall k :: k in reset <==> (k in lists && k.0 != office) || (k.0 == office && k.1 in disciplines[..j])
      invariant forall k | k in reset :: reset[k] == if k.0 == office then [] else lists[k]
    {
      assert disciplines[..j + 1] == disciplines[..j] + [disciplines[j]];
      reset := reset[(office, disciplines[j]) := []];
      j := j + 1;
    }
    assert disciplines[..j] == disciplines;
  }

  /** filescan.py's initialisation loop: `master_dict[office] = {}`, then
      `master_dict[office][discipline] = []` for every discipline. */
  method InitMaster(offices: seq<string>, disciplines: seq<string>) returns (m: Master)
    ensures m == InitialMaster(offices, disciplines)
  {
    var keys: seq<string> := [];
    var lists: map<(string, string), seq<Path>> := map[];
    var i := 0;
    while i < |offices|
      invariant 0 <= i <= |offices|
      invariant keys == Dedup(offices[..i])
      invariant KeyedBy(lists, offices[..i], disciplines)
      invariant forall k | k in lists :: lists[k] == []
    {
      var office := offices[i];
      assert offices[..i + 1][..i] == offices[..i];
      if office !in keys {
        keys := keys + [office];
      }
      lists := ResetOffice(lists, office, disciplines);
      assert offices[..i + 1] == offices[..i] + [office];
      i := i + 1;
    }
    assert offices[..i] == offices;
    m := Master(keys, Dedup(disciplines), lists);
    assert lists == InitialMaster(offices, disciplines).lists;
  }

  /** The archive scan result of one project and discipline: [] when there is
      no RCRD CPY (filescan.py:159-160). */
  function ArchiveScan(fs: Entry, projectDir: Path, discipline: string, cutoff: int): seq<Path>
  {
    match RcrdCpyDir(fs, discipline, projectDir)
    case None => []
    case Some(a) => Scan(Lookup(fs, a).value, a, cutoff)
  }

  /** What one project appends to the list of discipline `d`: one archive scan
      per occurrence of `d` in the configured discipline list. */
  function ProjectShare(fs: Entry, projectDir: Path, ds: seq<string>, d: string, cutoff: int): seq<Path>
  {
    if ds == [] then []
    else
      ProjectShare(fs, projectDir, ds[..|ds| - 1], d, cutoff)
      + (if ds[|ds| - 1] == d then ArchiveScan(fs, projectDir, d, cutoff) else [])
  }

  /** What a run of projects appends to the list of discipline `d`, in project order. */
  function ProjectsShare(fs: Entry, projects: seq<Path>, ds: seq<string>, d: string, cutoff: int): seq<Path>
  {
    if projects == [] then []
    else
      ProjectsShare(fs, projects[..|projects| - 1], ds, d, cutoff)
      + ProjectShare(fs, projects[|projects| - 1], ds, d, cutoff)
  }

  /** The final list of (office, d): the shares of all the office's projects in
      group/project enumeration order. */
  function OfficeShare(fs: Entry, officeDir: Path, ds: seq<string>, d: string, cutoff: int): seq<Path>
  {
    match OfficeProjects(fs, officeDir)
    case Err(_) => []
    case Ok(projects) => ProjectsShare(fs, projects, ds, d, cutoff)
  }

  /** The first office (in key order) whose group or project folders cannot be listed. */
  function FirstOfficeError(fs: Entry, officeDirs: seq<(string, Path)>): Option<FsError>
  {
    if officeDirs == [] then None
    else match FirstOfficeError(fs, officeDirs[..|officeDirs| - 1])
      case Some(x) => Some(x)
      case None =>
        match OfficeProjects(fs, officeDirs[|officeDirs| - 1].1)
        case Err(x) => Some(x)
        case Ok(_) => None
  }

  /** The master dict at the end of the scan, or the enumeration error that
      ends the script first. */
  function Collected(fs: Entry, base: Path, offices: seq<string>, ds: seq<string>, cutoff: int): Result<Master>
  {
    match FirstOfficeError(fs, OfficeDirs(base, offices))
    case Some(x) => Err(x)
    case None =>
      Ok(Master(Dedup(offices), Dedup(ds),
                map k | k in Pairs(offices, ds) :: OfficeShare(fs, base + [k.0], ds, k.1, cutoff)))
  }

  /** A reported path of one archive lies below that archive and names a
      directory that directly holds a file modified at or after the cutoff; a
      missing archive, or a plain file called "RCRD CPY", reports nothing. */
  lemma ArchiveScanSound(fs: Entry, projectDir: Path, discipline: string, cutoff: int)
    requires WellFormed(fs)
    ensures var a := projectDir + [discipline, ArchiveFolder];
            forall r | r in ArchiveScan(fs, projectDir, discipline, cutoff) ::
              |a| <= |r| && r[..|a|] == a && Lookup(fs, r).Some? && HoldsRecentFile(Lookup(fs, r).value, cutoff)
  {
    var a := projectDir + [discipline, ArchiveFolder];
    if Lookup(fs, a).Some? {
      var e := Lookup(fs, a).value;
      LookupWellFormed(fs, a);
      ScanSound(e, a, cutoff);
      forall r | r in Scan(e, a, cutoff)
        ensures Lookup(fs, r).Some? && HoldsRecentFile(Lookup(fs, r).value, cutoff)
      {
        assert MarksRecentDir(e, a, r, cutoff);
        assert r == a + r[|a|..];
        LookupConcat(fs, a, r[|a|..]);
      }
    }
  }

  /** The share of a project for `d` is empty unless `d` is configured, and
      otherwise only holds paths the archive scan reports. */
  lemma {:induction false} ProjectShareWithin(fs: Entry, projectDir: Path, ds: seq<string>, d: string, cutoff: int)
    ensures forall r | r in ProjectShare(fs, projectDir, ds, d, cutoff) ::
              d in ds && r in ArchiveScan(fs, projectDir, d, cutoff)
  {
    if ds != [] {
      ProjectShareWithin(fs, projectDir, ds[..|ds| - 1], d, cutoff);
    }
  }

  /** Every path in a discipline's list comes from the archive of that
      discipline in one of the projects scanned, and is sound for it. */
  lemma {:induction false} ProjectsShareSound(fs: Entry, projects: seq<Path>, ds: seq<string>, d: string, cutoff: int)
    requires WellFormed(fs)
    ensures forall r | r in ProjectsShare(fs, projects, ds, d, cutoff) ::
              d in ds && exists i | 0 <= i < |projects| :: r in ArchiveScan(fs, projects[i], d, cutoff)
  {
    if projects != [] {
      var front := projects[..|projects| - 1];
      var last := projects[|projects| - 1];
      ProjectsShareSound(fs, front, ds, d, cutoff);
      ProjectShareWithin(fs, last, ds, d, cutoff);
      forall r | r in ProjectsShare(fs, projects, ds, d, cutoff)
        ensures d in ds && exists i | 0 <= i < |projects| :: r in ArchiveScan(fs, projects[i], d, cutoff)
      {
        if r in ProjectsShare(fs, front, ds, d, cutoff) {
          var i :| 0 <= i < |front| && r in ArchiveScan(fs, front[i], d, cutoff);
          assert projects[i] == front[i];
        } else {
          assert r in ArchiveScan(fs, projects[|projects| - 1], d, cutoff);
        }
      }
    }
  }

  /** A completed scan has exactly the configured offices x disciplines as
      keys, each list being the office's share of that discipline. */
  lemma CollectedShaped(fs: Entry, base: Path, offices: seq<string>, ds: seq<string>, cutoff: int)
    ensures Collected(fs, base, offices, ds, cutoff).Ok? ==>
              var m := Collected(fs, base, offices, ds, cutoff).value;
              Shaped(m) &&
              (forall k :: k in m.lists <==> k.0 in offices && k.1 in ds) &&
              forall k | k in m.lists :: m.lists[k] == OfficeShare(fs, base + [k.0], ds, k.1, cutoff)
  {
  }

  lemma {:induction false} ProjectsShareAppend(fs: Entry, a: seq<Path>, b: seq<Path>, ds: seq<string>, d: string, cutoff: int)
    ensures ProjectsShare(fs, a + b, ds, d, cutoff) == ProjectsShare(fs, a, ds, d, cutoff) + ProjectsShare(fs, b, ds, d, cutoff)
    decreases |b|
  {
    if b == [] {
      assert a + b == a;
    } else {
      assert (a + b)[..|a + b| - 1] == a + b[..|b| - 1];
      assert (a + b)[|a + b| - 1] == b[|b| - 1];
      ProjectsShareAppend(fs, a, b[..|b| - 1], ds, d, cutoff);
    }
  }

  lemma {:induction false} FirstOfficeErrorPrefix(fs: Entry, ods: seq<(string, Path)>, n: nat)
    requires n <= |ods| && FirstOfficeError(fs, ods[..n]).Some?
    ensures FirstOfficeError(fs, ods) == FirstOfficeError(fs, ods[..n])
    decreases |ods|
  {
    if n < |ods| {
      assert ods[..|ods| - 1][..n] == ods[..n];
      FirstOfficeErrorPrefix(fs, ods[..|ods| - 1], n);
    } else {
      assert ods[..n] == ods;
    }
  }

  /** `ext` is `lists` with the office's list of each discipline `d` extended
      by what the project contributes to `d`, and every other list unchanged. */
  ghost predicate ProjectAdded(ext: map<(string, string), seq<Path>>, lists: map<(string, string), seq<Path>>,
                               fs: Entry, projectDir: Path, office: string, ds: seq<string>, cutoff: int)
  {
    ext.Keys == lists.Keys &&
    forall k | k in lists :: ext[k] == lists[k] + (if k.0 == office then ProjectShare(fs, projectDir, ds, k.1, cutoff) else [])
  }

  /** The same for a run of projects. */
  ghost predicate ProjectsAdded(ext: map<(string, string), seq<Path>>, lists: map<(string, string), seq<Path>>,
                                fs: Entry, projects: seq<Path>, office: string, ds: seq<string>, cutoff: int)
  {
    ext.Keys == lists.Keys &&
    forall k | k in lists :: ext[k] == lists[k] + (if k.0 == office then ProjectsShare(fs, projects, ds, k.1, cutoff) else [])
  }

  /** The same for every project of an office. */
  ghost predicate OfficeAdded(ext: map<(string, string), seq<Path>>, lists: map<(string, string), seq<Path>>,
                              fs: Entry, officeDir: Path, office: string, ds: seq<string>, cutoff: int)
  {
    ext.Keys == lists.Keys &&
    forall k | k in lists :: ext[k] == lists[k] + (if k.0 == office then OfficeShare(fs, officeDir, ds, k.1, cutoff) else [])
  }

  lemma ProjectAddedStep(ext: map<(string, string), seq<Path>>, lists: map<(string, string), seq<Path>>,
                         fs: Entry, projectDir: Path, office: string, ds: seq<string>, j: nat, cutoff: int)
    requires j < |ds| && (office, ds[j]) in ext
    requires ProjectAdded(ext, lists, fs, projectDir, office, ds[..j], cutoff)
    ensures ProjectAdded(ext[(office, ds[j]) := ext[(office, ds[j])] + ArchiveScan(fs, projectDir, ds[j], cutoff)],
                         lists, fs, projectDir, office, ds[..j + 1], cutoff)
  {
    assert ds[..j + 1][..j] == ds[..j];
  }

  lemma ProjectsAddedStep(ext: map<(string, string), seq<Path>>, next: map<(string, string), seq<Path>>,
                          lists: map<(string, string), seq<Path>>,
                          fs: Entry, projects: seq<Path>, p: Path, office: string, ds: seq<string>, cutoff: int)
    requires ProjectsAdded(ext, lists, fs, projects, office, ds, cutoff)
    requires ProjectAdded(next, ext, fs, p, office, ds, cutoff)
    ensures ProjectsAdded(next, lists, fs, projects + [p], office, ds, cutoff)
  {
    assert (projects + [p])[..|projects|] == projects;
  }

  lemma ExtendTwice(first: seq<Path>, second: seq<Path>, third: seq<Path>,
                    fs: Entry, a: seq<Path>, b: seq<Path>, ds: seq<string>, d: string, cutoff: int)
    requires second == first + ProjectsShare(fs, a, ds, d, cutoff)
    requires third == second + ProjectsShare(fs, b, ds, d, cutoff)
    ensures third == first + ProjectsShare(fs, a + b, ds, d, cutoff)
  {
    ProjectsShareAppend(fs, a, b, ds, d, cutoff);
  }

  lemma ProjectsAddedConcat(ext: map<(string, string), seq<Path>>, next: map<(string, string), seq<Path>>,
                            lists: map<(string, string), seq<Path>>,
                            fs: Entry, a: seq<Path>, b: seq<Path>, office: string, ds: seq<string>, cutoff: int)
    requires ProjectsAdded(ext, lists, fs, a, office, ds, cutoff)
    requires ProjectsAdded(next, ext, fs, b, office, ds, cutoff)
    ensures ProjectsAdded(next, lists, fs, a + b, office, ds, cutoff)
  {
    forall k | k in lists
      ensures next[k] == lists[k] + (if k.0 == office then ProjectsShare(fs, a + b, ds, k.1, cutoff) else [])
    {
      if k.0 == office {
        ExtendTwice(lists[k], ext[k], next[k], fs, a, b, ds, k.1, cutoff);
      }
    }
  }

  /** The loop over the configured disciplines for one project (filescan.py:154-162):
      look up RCRD CPY, scan it if present, extend the office's list. */
  method AddProjectResults(fs: Entry, projectDir: Path, office: string, ds: seq<string>, cutoff: int,
                           lists: map<(string, string), seq<Path>>)
    returns (extended: map<(string, string), seq<Path>>)
    requires forall d | d in ds :: (office, d) in lists
    ensures ProjectAdded(extended, lists, fs, projectDir, office, ds, cutoff)
  {
    extended := lists;
    var j := 0;
    while j < |ds|
      invariant 0 <= j <= |ds|
      invariant ProjectAdded(extended, lists, fs, projectDir, office, ds[..j], cutoff)
    {
      var discipline := ds[j];
      var rcrdCpyDir := RcrdCpyDir(fs, discipline, projectDir);
      var modDirs: seq<Path>;
      if rcrdCpyDir.Some? {
        var archive := Lookup(fs, rcrdCpyDir.value).value;
        modDirs := ScanDirectory(archive, rcrdCpyDir.value, cutoff);
      } else {
        modDirs := [];
      }
      assert modDirs == ArchiveScan(fs, projectDir, discipline, cutoff);
      ProjectAddedStep(extended, lists, fs, projectDir, office, ds, j, cutoff);
      extended := extended[(office, discipline) := extended[(office, discipline)] + modDirs];
      j := j + 1;
    }
    assert ds[..j] == ds;
  }

  /** The loop over the projects of one group (filescan.py:153-162). */
  method AddGroupResults(fs: Entry, projectDirs: seq<Path>, office: string, ds: seq<string>, cutoff: int,
                         lists: map<(string, string), seq<Path>>)
    returns (extended: map<(string, string), seq<Path>>)
    requires forall d | d in ds :: (office, d) in lists
    ensures ProjectsAdded(extended, lists, fs, projectDirs, office, ds, cutoff)
  {
    extended := lists;
    var pi := 0;
    while pi < |projectDirs|
      invariant 0 <= pi <= |projectDirs|
      invariant ProjectsAdded(extended, lists, fs, projectDirs[..pi], office, ds, cutoff)
    {
      assert projectDirs[..pi + 1] == projectDirs[..pi] + [projectDirs[pi]];
      var next := AddProjectResults(fs, projectDirs[pi], office, ds, cutoff, extended);
      ProjectsAddedStep(extended, next, lists, fs, projectDirs[..pi], projectDirs[pi], office, ds, cutoff);
      extended := next;
      pi := pi + 1;
    }
    assert projectDirs[..pi] == projectDirs;
  }

  /** The loop over the groups of one office (filescan.py:146-162). A project
      folder listing error is not caught: it ends the script. */
  method AddGroupsResults(fs: Entry, groupDirs: seq<Path>, office: string, ds: seq<string>, cutoff: int,
                          lists: map<(string, string), seq<Path>>)
    returns (r: Result<map<(string, string), seq<Path>>>)
    requires forall d | d in ds :: (office, d) in lists
    ensures r.Ok? <==> AllProjectDirs(fs, groupDirs).Ok?
    ensures r.Err? ==> r.error == AllProjectDirs(fs, groupDirs).error
    ensures r.Ok? ==> ProjectsAdded(r.value, lists, fs, AllProjectDirs(fs, groupDirs).value, office, ds, cutoff)
  {
    var cur := lists;
    var gi := 0;
    while gi < |groupDirs|
      invariant 0 <= gi <= |groupDirs|
      invariant AllProjectDirs(fs, groupDirs[..gi]).Ok?
      invariant ProjectsAdded(cur, lists, fs, AllProjectDirs(fs, groupDirs[..gi]).value, office, ds, cutoff)
    {
      assert groupDirs[..gi + 1][..gi] == groupDirs[..gi];
      var projectDirs := GetProjectDirs(fs, groupDirs[gi]);
      if projectDirs.Err? {
        AllProjectDirsErrPrefix(fs, groupDirs, gi + 1);
        return Err(projectDirs.error);
      }
      ghost var done := AllProjectDirs(fs, groupDirs[..gi]).value;
      var ps := projectDirs.value;
      assert AllProjectDirs(fs, groupDirs[..gi + 1]) == Ok(done + ps);
      var next := AddGroupResults(fs, ps, office, ds, cutoff, cur);
      ProjectsAddedConcat(cur, next, lists, fs, done, ps, office, ds, cutoff);
      cur := next;
      gi := gi + 1;
    }
    assert groupDirs[..gi] == groupDirs;
    return Ok(cur);
  }

  /** One office of filescan.py's main loop (lines 143-162): list its groups
      (an error here is not caught either), then add every group's projects. */
  method AddOfficeResults(fs: Entry, officeDir: Path, office: string, ds: seq<string>, cutoff: int,
                          lists: map<(string, string), seq<Path>>)
    returns (r: Result<map<(string, string), seq<Path>>>)
    requires forall d | d in ds :: (office, d) in lists
    ensures r.Ok? <==> OfficeProjects(fs, officeDir).Ok?
    ensures r.Err? ==> r.error == OfficeProjects(fs, officeDir).error
    ensures r.Ok? ==> OfficeAdded(r.value, lists, fs, officeDir, office, ds, cutoff)
  {
    var projectGroupDirs := GetProjectGroupDirs(fs, officeDir);
    if projectGroupDirs.Err? {
      return Err(projectGroupDirs.error);
    }
    r := AddGroupsResults(fs, projectGroupDirs.value, office, ds, cutoff, lists);
  }

  /** The lists after the offices in `done` have been scanned: theirs hold
      their shares, every other list is still empty. */
  ghost predicate FilledFor(lists: map<(string, string), seq<Path>>, fs: Entry, base: Path,
                            ds: seq<string>, cutoff: int, done: seq<string>)
  {
    forall k | k in lists :: lists[k] == if k.0 in done then OfficeShare(fs, base + [k.0], ds, k.1, cutoff) else []
  }

  lemma FilledForStep(lists: map<(string, string), seq<Path>>, next: map<(string, string), seq<Path>>,
                      fs: Entry, base: Path, ds: seq<string>, cutoff: int, done: seq<string>, office: string)
    requires FilledFor(lists, fs, base, ds, cutoff, done) && office !in done
    requires OfficeAdded(next, lists, fs, base + [office], office, ds, cutoff)
    ensures FilledFor(next, fs, base, ds, cutoff, done + [office])
  {
    forall k | k in next
      ensures next[k] == if k.0 in done + [office] then OfficeShare(fs, base + [k.0], ds, k.1, cutoff) else []
    {
      assert k in lists;
      if k.0 == office {
        assert lists[k] == [];
      } else {
        assert next[k] == lists[k];
      }
    }
  }

  lemma FilledForAll(lists: map<(string, string), seq<Path>>, fs: Entry, base: Path,
                     offices: seq<string>, ds: seq<string>, cutoff: int)
    requires KeyedBy(lists, offices, ds) && FilledFor(lists, fs, base, ds, cutoff, Dedup(offices))
    ensures lists == map k | k in Pairs(offices, ds) :: OfficeShare(fs, base + [k.0], ds, k.1, cutoff)
  {
  }

  lemma KeyedBySameKeys(lists: map<(string, string), seq<Path>>, next: map<(string, string), seq<Path>>,
                        offices: seq<string>, ds: seq<string>)
    requires KeyedBy(lists, offices, ds) && next.Keys == lists.Keys
    ensures KeyedBy(next, offices, ds)
  {
    forall k ensures k in next <==> k.0 in offices && k.1 in ds {
      assert k in next <==> k in next.Keys;
      assert k in lists <==> k in lists.Keys;
    }
  }

  /** The loop over the offices of filescan.py's `main` (lines 143-162). */
  method AddOfficesResults(fs: Entry, base: Path, officeDirs: seq<(string, Path)>, keys: seq<string>,
                           offices: seq<string>, ds: seq<string>, cutoff: int,
                           lists: map<(string, string), seq<Path>>)
    returns (r: Result<map<(string, string), seq<Path>>>)
    requires |officeDirs| == |keys| && NoDuplicates(keys)
    requires forall i | 0 <= i < |keys| :: officeDirs[i] == (keys[i], base + [keys[i]]) && keys[i] in offices
    requires KeyedBy(lists, offices, ds) && FilledFor(lists, fs, base, ds, cutoff, [])
    ensures r.Ok? <==> FirstOfficeError(fs, officeDirs).None?
    ensures r.Err? ==> FirstOfficeError(fs, officeDirs) == Some(r.error)
    ensures r.Ok? ==> KeyedBy(r.value, offices, ds) && FilledFor(r.value, fs, base, ds, cutoff, keys)
  {
    var cur := lists;
    var oi := 0;
    while oi < |officeDirs|
      invariant 0 <= oi <= |officeDirs|
      invariant FirstOfficeError(fs, officeDirs[..oi]).None?
      invariant KeyedBy(cur, offices, ds)
      invariant FilledFor(cur, fs, base, ds, cutoff, keys[..oi])
    {
      var office := officeDirs[oi].0;
      var officeDir := officeDirs[oi].1;
      assert office == keys[oi] && officeDir == base + [office] && office in offices;
      assert officeDirs[..oi + 1][..oi] == officeDirs[..oi];
      assert office !in keys[..oi];
      assert forall d | d in ds :: (office, d) in cur;
      var added := AddOfficeResults(fs, officeDir, office, ds, cutoff, cur);
      if added.Err? {
        FirstOfficeErrorPrefix(fs, officeDirs, oi + 1);
        return Err(added.error);
      }
      assert FirstOfficeError(fs, officeDirs[..oi + 1]).None?;
      assert keys[..oi + 1] == keys[..oi] + [office];
      FilledForStep(cur, added.value, fs, base, ds, cutoff, keys[..oi], office);
      KeyedBySameKeys(cur, added.value, offices, ds);
      cur := added.value;
      oi := oi + 1;
    }
    assert officeDirs[..oi] == officeDirs;
    assert keys[..oi] == keys;
    return Ok(cur);
  }

  /** The scan of filescan.py's `main` (lines 38-42 and 143-162): every
      configured pair starts empty, and each list ends as the concatenated scan
      results over the office's projects in enumeration order. */
  method CollectRecentArchives(fs: Entry, base: Path, offices: seq<string>, ds: seq<string>, cutoff: int)
    returns (r: Result<Master>)
    ensures r == Collected(fs, base, offices, ds, cutoff)
  {
    var master := InitMaster(offices, ds);
    var officeDirs := OfficeDirs(base, offices);
    var added := AddOfficesResults(fs, base, officeDirs, master.offices, offices, ds, cutoff, master.lists);
    if added.Err? {
      return Err(added.error);
    }
    FilledForAll(added.value, fs, base, offices, ds, cutoff);
    r := Ok(Master(master.offices, master.disciplines, added.value));
  }

  /** The list of `(o, d)`, or [] for a pair outside the key space. */
  function ListOf(m: Master, o: string, d: string): seq<Path>
  {
    if (o, d) in m.lists then m.lists[(o, d)] else []
  }

  /** The rows of one list, in list order. */
  function PathRows(o: string, d: string, ps: seq<Path>): (r: seq<Row>)
    ensures |r| == |ps|
  {
    if ps == [] then [] else PathRows(o, d, ps[..|ps| - 1]) + [Row(o, d, ps[|ps| - 1])]
  }

  lemma {:induction false} PathRowsAt(o: string, d: string, ps: seq<Path>, i: nat)
    requires i < |ps|
    ensures PathRows(o, d, ps)[i] == Row(o, d, ps[i])
  {
    if i < |ps| - 1 {
      PathRowsAt(o, d, ps[..|ps| - 1], i);
    }
  }

  /** The rows of office `o` for the disciplines `ds`, discipline after discipline. */
  function DisciplineRows(m: Master, o: string, ds: seq<string>): seq<Row>
  {
    if ds == [] then [] else DisciplineRows(m, o, ds[..|ds| - 1]) + PathRows(o, ds[|ds| - 1], ListOf(m, o, ds[|ds| - 1]))
  }

  /** The rows of the offices `os`, office after office. */
  function OfficeRows(m: Master, os: seq<string>): seq<Row>
  {
    if os == [] then [] else OfficeRows(m, os[..|os| - 1]) + DisciplineRows(m, os[|os| - 1], m.disciplines)
  }

  /** The data frame of gui_test.py's comprehension: offices in key order,
      then disciplines in key order, then the paths of that list. */
  function Rows(m: Master): seq<Row>
  {
    OfficeRows(m, m.offices)
  }

  /** The number of paths over the disciplines `ds` of office `o`. */
  function DisciplineTotal(m: Master, o: string, ds: seq<string>): nat
  {
    if ds == [] then 0 else DisciplineTotal(m, o, ds[..|ds| - 1]) + |ListOf(m, o, ds[|ds| - 1])|
  }

  /** The number of paths over the offices `os`. */
  function OfficeTotal(m: Master, os: seq<string>): nat
  {
    if os == [] then 0 else OfficeTotal(m, os[..|os| - 1]) + DisciplineTotal(m, os[|os| - 1], m.disciplines)
  }

  /** filescan.py's `master_dict_to_dataframe`: three nested loops appending one
      row per path. The loops over disciplines and paths are `AddOfficeRows`. */
  method MasterToDataFrame(m: Master) returns (data: seq<Row>)
    ensures data == Rows(m)
  {
    data := [];
    var i := 0;
    while i < |m.offices|
      invariant 0 <= i <= |m.offices|
      invariant data == OfficeRows(m, m.offices[..i])
    {
      assert m.offices[..i + 1][..i] == m.offices[..i];
      data := AddOfficeRows(m, m.offices[i], data);
      i := i + 1;
    }
    assert m.offices[..i] == m.offices;
  }

  lemma AppendRegroup(data: seq<Row>, rows: seq<Row>, more: seq<Row>, before: seq<Row>, after: seq<Row>)
    requires before == data + rows && after == before + more
    ensures after == data + (rows + more)
  {
  }

  lemma DisciplineRowsStep(m: Master, office: string, ds: seq<string>, j: nat)
    requires j < |ds|
    ensures DisciplineRows(m, office, ds[..j + 1]) ==
              DisciplineRows(m, office, ds[..j]) + PathRows(office, ds[j], ListOf(m, office, ds[j]))
  {
    assert ds[..j + 1][..j] == ds[..j] && ds[..j + 1][j] == ds[j];
  }

  method AddOfficeRows(m: Master, office: string, data: seq<Row>) returns (extended: seq<Row>)
    ensures extended == data + DisciplineRows(m, office, m.disciplines)
  {
    extended := data;
    var j := 0;
    while j < |m.disciplines|
      invariant 0 <= j <= |m.disciplines|
      invariant extended == data + DisciplineRows(m, office, m.disciplines[..j])
    {
      var discipline := m.disciplines[j];
      DisciplineRowsStep(m, office, m.disciplines, j);
      ghost var rowsSoFar := DisciplineRows(m, office, m.disciplines[..j]);
      ghost var newRows := PathRows(office, discipline, ListOf(m, office, discipline));
      ghost var before := extended;
      extended := AddPathRows(office, discipline, ListOf(m, office, discipline), extended);
      AppendRegroup(data, rowsSoFar, newRows, before, extended);
      j := j + 1;
    }
    assert m.disciplines[..j] == m.disciplines;
  }

  method AddPathRows(office: string, discipline: string, paths: seq<Path>, data: seq<Row>) returns (extended: seq<Row>)
    ensures extended == data + PathRows(office, discipline, paths)
  {
    extended := data;
    var k := 0;
    while k < |paths|
      invariant 0 <= k <= |paths|
      invariant extended == data + PathRows(office, discipline, paths[..k])
    {
      assert paths[..k + 1][..k] == paths[..k];
      extended := extended + [Row(office, discipline, paths[k])];
      k := k + 1;
    }
    assert paths[..k] == paths;
  }

  /** One row per list element: the row count is the sum of the list lengths. */
  lemma {:induction false} RowsCount(m: Master)
    ensures |Rows(m)| == OfficeTotal(m, m.offices)
  {
    OfficeRowsCount(m, m.offices);
  }

  lemma {:induction false} OfficeRowsCount(m: Master, os: seq<string>)
    ensures |OfficeRows(m, os)| == OfficeTotal(m, os)
  {
    if os != [] {
      OfficeRowsCount(m, os[..|os| - 1]);
      DisciplineRowsCount(m, os[|os| - 1], m.disciplines);
    }
  }

  lemma {:induction false} DisciplineRowsCount(m: Master, o: string, ds: seq<string>)
    ensures |DisciplineRows(m, o, ds)| == DisciplineTotal(m, o, ds)
  {
    if ds != [] {
      DisciplineRowsCount(m, o, ds[..|ds| - 1]);
    }
  }

  lemma {:induction false} DisciplineRowsMembership(m: Master, o: string, ds: seq<string>, row: Row)
    ensures row in DisciplineRows(m, o, ds) <==> row.office == o && row.discipline in ds && row.path in ListOf(m, o, row.discipline)
  {
    if ds != [] {
      var last := ds[|ds| - 1];
      DisciplineRowsMembership(m, o, ds[..|ds| - 1], row);
      var tail := PathRows(o, last, ListOf(m, o, last));
      assert row in tail <==> row.office == o && row.discipline == last && row.path in ListOf(m, o, last) by {
        if row in tail {
          var i :| 0 <= i < |tail| && tail[i] == row;
          PathRowsAt(o, last, ListOf(m, o, last), i);
        }
        if row.office == o && row.discipline == last && row.path in ListOf(m, o, last) {
          var i :| 0 <= i < |ListOf(m, o, last)| && ListOf(m, o, last)[i] == row.path;
          PathRowsAt(o, last, ListOf(m, o, last), i);
          assert tail[i] == row;
        }
      }
      assert ds == ds[..|ds| - 1] + [last];
    }
  }

  lemma {:induction false} OfficeRowsMembership(m: Master, os: seq<string>, row: Row)
    ensures row in OfficeRows(m, os) <==>
              row.office in os && row.discipline in m.disciplines && row.path in ListOf(m, row.office, row.discipline)
  {
    if os != [] {
      OfficeRowsMembership(m, os[..|os| - 1], row);
      DisciplineRowsMembership(m, os[|os| - 1], m.disciplines, row);
      assert os == os[..|os| - 1] + [os[|os| - 1]];
    }
  }

  /** A row is in the data frame exactly when its path is in the list of its
      (office, discipline) pair. */
  lemma RowsMembership(m: Master, row: Row)
    requires Shaped(m)
    ensures row in Rows(m) <==> (row.office, row.discipline) in m.lists && row.path in m.lists[(row.office, row.discipline)]
  {
    OfficeRowsMembership(m, m.offices, row);
  }

  /** A discipline listed once contributes exactly one archive scan per
      project; one that is not listed contributes nothing. */
  lemma {:induction false} ProjectShareSingle(fs: Entry, projectDir: Path, ds: seq<string>, d: string, cutoff: int)
    requires NoDuplicates(ds)
    ensures ProjectShare(fs, projectDir, ds, d, cutoff) == if d in ds then ArchiveScan(fs, projectDir, d, cutoff) else []
  {
    if ds != [] {
      var front := ds[..|ds| - 1];
      assert NoDuplicates(front);
      ProjectShareSingle(fs, projectDir, front, d, cutoff);
      assert ds == front + [ds[|ds| - 1]];
      if ds[|ds| - 1] == d {
        assert d !in front;
      }
    }
  }

  /** A discipline listed twice scans every archive twice and reports its
      directories twice. */
  lemma DuplicateDisciplineScansTwice(fs: Entry, projectDir: Path, d: string, cutoff: int)
    ensures ProjectShare(fs, projectDir, [d, d], d, cutoff) == ArchiveScan(fs, projectDir, d, cutoff) + ArchiveScan(fs, projectDir, d, cutoff)
  {
    assert [d, d][..1] == [d];
    assert [d][..0] == [];
    assert ProjectShare(fs, projectDir, [d], d, cutoff) == ArchiveScan(fs, projectDir, d, cutoff);
  }
}
