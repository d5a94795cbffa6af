# adg-qa-check, modelled in Dafny

This project models the QA-check scripts of an engineering office. They walk the project share:

- one folder per office (`SSC`, `GLC`, ...);
- inside it, five-digit project-group folders;
- inside those, project folders;
- inside those, discipline folders, each with a `RCRD CPY` archive.

The scripts report the archive folders that directly hold a file modified since a cutoff date. The model covers these scripts:

- `filescan.py`: the scripted scan that builds the office → discipline → paths dict and flattens it into Office/Discipline/Path rows.
- `gui_test.py`: the same scan behind a Tk form, with input validation.
- `test.py`: a variant whose recursion writes into one shared set.
- `check_qa.py`: a search for recent PDF files, keyed by file name.
- `find.py`: a file-name substring search over `os.walk`.
- `merge_qa_tables.py`: the anti-join of the scan report against the QA sheet.

The file system is an immutable tree (`FileTree.Entry`). A `File` has a name, an integer modification time and a flag saying whether `stat` succeeds. A `Dir` has a name, its entries in enumeration order, and a flag saying whether it can be listed. A path is a sequence of names from the share root.

- `os.path.exists` becomes `Lookup`.
- `os.scandir` becomes `ScanDir`, which returns the error it raises.
- The clock becomes an integer cutoff.

Each scanner that updates state is modelled as a method or a class:

- the local lists built by loops;
- test.py's shared `matching_dirs` set (class `SharedSetScanner`);
- check_qa.py's shared `matching_files` dict (class `PdfCollector`).

Each of these is proved equal to a specification function: `Scan`, `Marked`, `PdfWrites`, `Matches`, `Collected` or `Rows`. The properties are then lemmas about those functions.

Modules:

- `FileTree` (filetree.dfy): the tree, paths, lookup, listing, dict key order.
- `RecencyScan` (recency_scan.dfy): `scan_directory` of filescan.py and gui_test.py.
- `Discovery` (discovery.dfy): office, project-group, project and `RCRD CPY` discovery.
- `Report` (report.dfy): the master dict, the aggregation loop, the data-frame rows.
- `RunInputs` (run_inputs.dfy): the selections and the days field of the two front ends.
- `SharedSetScan` (shared_set_scan.dfy): test.py.
- `PdfScan` (pdf_scan.dfy): check_qa.py.
- `FileSearch` (file_search.dfy): find.py.
- `QaMerge` (qa_merge.dfy): merge_qa_tables.py.

The model follows what the code does, not the behaviour described around it:

- The archive check is `os.path.exists`, so a plain file called `RCRD CPY` counts as an archive. Scanning it raises `NotADirectoryError` and is swallowed, so it contributes no paths.
- None of these scripts implements a project-number extraction, dotted sub-project folders, per-office overrides or an iterative work list.
- check_qa.py's header promises a filter on a list of strings in the file name. Its code does not filter on that list.

## Model

| member | source | states |
|---|---|---|
| FileTree.Lookup | filescan.py:92-93 | resolving a path: the empty path is the root, and a found entry carries the last name of the path |
| FileTree.LookupConcat | filescan.py:92 | resolving `a + s` is resolving `a`, then `s` from the entry found |
| FileTree.ScanDirChildren | filescan.py:63 | a successful `os.scandir` lists what path resolution finds one level down: the entry it lists under a name is the one `p/name` resolves to, and `p/name` exists iff some listed entry has that name |
| FileTree.Dedup | filescan.py:38-41 | the keys of a dict filled in order: each element of the list once, ordered by where it first occurs |
| FileTree.DedupNoDuplicates | filescan.py:38-41 | a list without repeats keys the dict in its own order |
| FileTree.Reach | find.py:14 | what a walk can enter: anything it reaches, `Lookup` finds too |
| FileTree.ChildFindsUnique | filescan.py:63-67 | with distinct sibling names, looking a name up finds the very entry enumerated |
| RecencyScan.FirstStop | filescan.py:108-114 | the index of the first entry that ends a directory's loop (a recent file or a failing `stat`); no entry before it does |
| RecencyScan.ScanDirectory | filescan.py:99-122 | the loop with early return and exception handler returns exactly `Scan` |
| RecencyScan.ScanSound | filescan.py:109-114 | every returned path is the scanned directory or lies below it, and names a directory that directly holds a file with mtime at or after the cutoff (equality qualifies) |
| RecencyScan.GatheredSound | filescan.py:115-118 | every path gathered from the subdirectories met so far is sound in the same way |
| RecencyScan.ScanNoDuplicates | filescan.py:105-119 | no directory is returned twice |
| RecencyScan.GatheredPrefix | filescan.py:108 | what the subdirectories before entry `n` contribute depends on those entries only |
| RecencyScan.FirstStopPrefix | filescan.py:108-114 | the stopping index is decided by the entries up to the first stopping one |
| RecencyScan.ScanIgnoresEntriesAfterStop | filescan.py:112-114 | replacing every entry after the first qualifying file leaves the result unchanged |
| RecencyScan.EarlyExitSkipsLaterSubdirectory | filescan.py:108-118 | a recent file listed before a subdirectory with its own recent file: only the outer directory is reported |
| RecencyScan.FailureDiscardsEarlierMatches | filescan.py:106-122 | a failing `stat` after a matching subdirectory empties the whole directory's result, the earlier match included |
| Discovery.OfficeDirs | filescan.py:48-56 | one (office, base + [office]) pair per configured office, in dict key order, covering every configured office |
| Discovery.GroupPaths | gui_test.py:41 | exactly the subdirectories whose name is five ASCII digits, joined to the office folder |
| Discovery.GroupPathsAppend | gui_test.py:41 | enumeration order is kept: the paths for entries `a` then `b` are those for `a` followed by those for `b` |
| Discovery.SubdirPaths | gui_test.py:45 | exactly the subdirectories, joined to the folder, with no name filter |
| Discovery.SubdirPathsAppend | gui_test.py:45 | enumeration order is kept: the paths for entries `a` then `b` are those for `a` followed by those for `b` |
| Discovery.GetProjectGroupDirs | filescan.py:58-70 | the append loop returns `GroupDirs`: the listing error of the office folder, or its group paths |
| Discovery.GetProjectDirs | filescan.py:73-84 | the append loop returns `ProjectDirs`: the listing error, or every subdirectory path |
| Discovery.GroupDirsExact | filescan.py:62-70 | the group list fails exactly when `os.scandir` fails, and otherwise holds a path iff it names a five-digit subdirectory of the office folder |
| Discovery.ProjectDirsExact | filescan.py:78-84 | the project list fails exactly when `os.scandir` fails, and otherwise holds a path iff it names a subdirectory of the group folder |
| Discovery.AllGroupDirsOk | test.py:28-34 | the concatenated group lists succeed iff every office folder can be listed |
| Discovery.AllProjectDirsOk | test.py:40-46 | the concatenated project lists succeed iff every group folder can be listed |
| Discovery.AllGroupDirsMembership | test.py:26-34 | a successful concatenation holds a path iff one of the office folders lists it as a group |
| Discovery.AllProjectDirsMembership | test.py:38-46 | a successful concatenation holds a path iff one of the group folders lists it as a project |
| Discovery.OfficeProjectsExact | filescan.py:144-147 | when an office's listings succeed, its projects are exactly the paths `office/g/p` with `g` a five-digit directory of the office folder and `p` a directory inside `g` |
| Discovery.AllGroupDirsErrPrefix | test.py:29-30 | once an office folder fails, later ones cannot change the error |
| Discovery.AllProjectDirsErrPrefix | filescan.py:146-147 | once a group folder fails, later ones cannot change the error |
| Report.InitialMaster | gui_test.py:31 | the master dict before any scan has exactly the selected offices × selected disciplines as keys, each mapped to an empty list, in dict key order |
| Report.ResetOffice | filescan.py:39-41 | one office's lists become exactly one empty list per discipline; every other office's lists are unchanged |
| Report.InitMaster | filescan.py:38-42 | the nested initialisation loops build exactly `InitialMaster` |
| Report.ProjectsShareAppend | filescan.py:146-162 | what consecutive runs of projects append is the concatenation of what each run appends |
| Report.FirstOfficeErrorPrefix | filescan.py:143-147 | once an office's folders cannot be listed, later offices cannot change the error that ends the run |
| Report.AddProjectResults | filescan.py:153-162 | the discipline loop extends each `(office, d)` list by that project's archive scans and leaves every other list and key as it was |
| Report.AddGroupResults | filescan.py:153-162 | the project loop extends each list by the projects' shares, in project order |
| Report.AddGroupsResults | filescan.py:146-162 | the group loop fails with the first listing error, and otherwise extends each list by the shares of all the groups' projects |
| Report.AddOfficeResults | filescan.py:143-162 | one office: the first listing error, or every list of the office extended by the office's share |
| Report.FilledForStep | filescan.py:143-144 | finishing one more office keeps every finished list equal to its office share |
| Report.FilledForAll | filescan.py:143-162 | after every office, the master map is exactly each configured pair mapped to its office's share |
| Report.AddOfficesResults | filescan.py:143-162 | the office loop ends with the first office's listing error, or with every list filled |
| Report.CollectRecentArchives | filescan.py:139-162 | the whole aggregation returns `Collected`: the first listing error, or each pair mapped to the in-order concatenation of the scans of its archives |
| Report.CollectedShaped | filescan.py:143-162 | a completed run has exactly the configured offices × disciplines as keys, each list being its office's share |
| Report.ArchiveScanSound | filescan.py:155-162 | every path an archive contributes lies below `project/discipline/RCRD CPY` and names a directory holding a recent file; a missing archive or a plain file contributes nothing |
| Report.ProjectShareWithin | filescan.py:154-162 | a project adds to the list of `d` only when `d` is configured, and only paths its `d` archive scan reports |
| Report.ProjectsShareSound | filescan.py:153-162 | every path in a discipline's list comes from that discipline's archive in one of the scanned projects |
| Report.ProjectShareSingle | filescan.py:154-162 | with distinct configured disciplines, a project contributes its archive scan once to a configured discipline and nothing to others |
| Report.DuplicateDisciplineScansTwice | filescan.py:154-162 | a discipline configured twice has its archive scanned and appended twice |
| Report.PathRows | filescan.py:132-133 | one row per path |
| Report.PathRowsAt | filescan.py:132-133 | row `i` is `[office, discipline, paths[i]]` |
| Report.AddPathRows | filescan.py:132-133 | the innermost loop appends the path rows of one list, in list order |
| Report.AddOfficeRows | filescan.py:131-133 | the discipline loop appends the rows of every discipline of one office, in key order |
| Report.MasterToDataFrame | filescan.py:125-136 | the triple loop builds exactly `Rows`: offices in key order, disciplines in key order, paths in list order |
| Report.DisciplineRowsCount | filescan.py:131-133 | an office contributes as many rows as its lists hold paths |
| Report.OfficeRowsCount | filescan.py:130-133 | the offices contribute as many rows as their lists hold paths |
| Report.RowsCount | filescan.py:129-135 | the row count equals the sum of all list lengths |
| Report.DisciplineRowsMembership | filescan.py:131-133 | a row of one office is present iff its discipline is listed and its path is in that list |
| Report.OfficeRowsMembership | filescan.py:130-133 | a row is present iff its office and discipline are listed and its path is in that list |
| Report.RowsMembership | filescan.py:129-135 | for a well-shaped master dict, a row is present iff its (office, discipline) is a key and its path is in that key's list |
| RunInputs.Selected | gui_test.py:15-16 | the ticked labels: empty iff no box is ticked; a label is present iff one of its boxes is ticked |
| RunInputs.SelectedAppend | gui_test.py:15-16 | box order is kept: the selection from boxes `a` then `b` is the selection from `a` followed by the selection from `b` |
| RunInputs.SelectedNoDuplicates | gui_test.py:15-16 | boxes with distinct labels give a selection without repeats |
| RunInputs.DigitChar | gui_test.py:119 | the digit character of a value below ten |
| RunInputs.DecimalValue | gui_test.py:23 | `int` of a digit string is below 10 to the power of its length |
| RunInputs.NatToDecimal | gui_test.py:119 | `str` of a number is all digits and has no leading zero |
| RunInputs.DecimalRoundTrip | gui_test.py:119-123 | `int(str(n)) == n` |
| RunInputs.LeadingZeroIgnored | gui_test.py:23 | `int` ignores a leading zero |
| RunInputs.ValidateRun | gui_test.py:18-26 | refused for selection iff no office or no discipline is ticked; otherwise refused for days iff the field is not all digits; otherwise runs with the two selections and `int(field)` days |
| RunInputs.DefaultFieldProceeds | gui_test.py:118-119 | with the field at its initial `str(28)`, any non-empty selection runs with 28 days |
| RunInputs.DaysFieldRoundTrip | test.py:15 | a field holding `str(n)` gives exactly `n` days |
| RunInputs.ValidateTestRun | test.py:13-19 | runs iff both selections are non-empty, never refuses the days field, and runs with `DaysOrDefault` |
| RunInputs.FrontEndsOnDaysField | test.py:15-19 | on a non-numeric field gui_test.py refuses while test.py runs with 21 days; on a numeric field both decide the same |
| RunInputs.CutoffWindow | gui_test.py:33 | a time is at or after the cutoff iff it lies at most `days` × 86400 seconds before now |
| RunInputs.CutoffMonotone | gui_test.py:33 | a longer look-back period never gives a later cutoff |
| SharedSetScan.SharedSetScanner.constructor | test.py:62 | the shared set starts empty |
| SharedSetScan.SharedSetScanner.ScanDirectory | test.py:64-76 | a call adds exactly `Marked` to the shared set and keeps what it held |
| SharedSetScan.SharedSetScanner.ScanAll | test.py:78-79 | scanning the archives in turn adds the union of their marked directories |
| SharedSetScan.MarkedSound | test.py:72-73 | every added path is the scanned directory or lies below it, and names a directory directly holding a recent file |
| SharedSetScan.MarkedInSound | test.py:68-73 | the same for what the entries met so far have added |
| SharedSetScan.ScanWithinMarked | test.py:64-76 | everything filescan.py's scan returns, test.py's scan adds too |
| SharedSetScan.GatheredWithinMarkedIn | test.py:69-70 | the same for the subdirectories met so far |
| SharedSetScan.MarkedIsScanWhenStatable | test.py:66-74 | when no `stat` fails, test.py adds exactly the paths filescan.py returns |
| SharedSetScan.MarkedInIsGathered | test.py:68-70 | the same for the subdirectories met so far |
| SharedSetScan.SharedSetKeepsEarlierMatches | test.py:66-76 | a failing `stat` after a matching subdirectory: filescan.py returns nothing, while test.py keeps the subdirectory |
| SharedSetScan.OfficePathsAreOfficeDirs | test.py:24 | for a selection without repeats, test.py's office folders are the folders of filescan.py's office dict, in the same order |
| SharedSetScan.CollectProjectGroupDirs | test.py:26-34 | the nested loops return `AllGroupDirs`: the groups office after office, or the first listing error |
| SharedSetScan.CollectProjectDirs | test.py:38-46 | the nested loops return `AllProjectDirs`: the projects group after group, or the first listing error |
| SharedSetScan.CollectRcrdCpyDirs | test.py:48-56 | the nested loops return `RcrdCpyDirs`, project-major and discipline-minor |
| SharedSetScan.AddProjectArchives | test.py:52-55 | the discipline loop appends the existing archives of one project, in discipline order |
| SharedSetScan.ProjectArchivesMembership | test.py:52-55 | a path is listed for a project iff it exists and is `project/d/RCRD CPY` for a selected `d` |
| SharedSetScan.RcrdCpyDirAgrees | filescan.py:87-96 | `get_rcrd_cpy_dirs` finds a selected discipline's archive (by `os.path.exists`, a plain file included) iff test.py's inline check lists it |
| SharedSetScan.RcrdCpyDirsMembership | test.py:48-56 | a path is listed iff it exists and is `p/d/RCRD CPY` for a listed project `p` and a selected `d` |
| SharedSetScan.RunSharedScan | test.py:24-79 | the whole run returns `SharedScanResult`: the first listing error, or the union of the marked directories of every existing archive |
| PdfScan.PdfStop | check_qa.py:29-31 | the index of the first PDF whose `stat` fails; no entry before it fails |
| PdfScan.ApplyWritesAppend | check_qa.py:33 | applying two runs of dict writes is applying them one after the other |
| PdfScan.EndsWithAppend | check_qa.py:30 | `str.endswith`: any string followed by the suffix ends with it |
| PdfScan.EndsWithSplits | check_qa.py:30 | a string that ends with the suffix is its front followed by the suffix |
| PdfScan.PdfCollector.constructor | check_qa.py:22 | the dict starts empty |
| PdfScan.PdfCollector.ScanDirectory | check_qa.py:23-35 | a call applies exactly the writes `PdfWrites`, in order, to the shared dict |
| PdfScan.PdfCollector.ScanAll | check_qa.py:38-39 | scanning every base folder applies all their writes in order |
| PdfScan.FindRecentPdfs | check_qa.py:22-39 | the run returns `MatchingFiles`: all writes applied to an empty dict |
| PdfScan.LastWriteWins | check_qa.py:33 | a name is a key iff some write used it, and its value is that of the last write to it |
| PdfScan.PdfWritesSound | check_qa.py:29-33 | every write is the name and mtime of a `.pdf` file below the scanned folder with mtime at or after the cutoff |
| PdfScan.WritesInSound | check_qa.py:26-33 | the same for the entries met so far |
| PdfScan.PdfWritesComplete | check_qa.py:27-33 | when no `stat` fails, every recent PDF at any depth is written: subdirectories are scanned whatever was found |
| PdfScan.WritesInContains | check_qa.py:26-28 | the writes of each entry met are among the directory's writes |
| PdfScan.WritesInPrefix | check_qa.py:26 | the writes of the first `n` entries depend on those entries only |
| PdfScan.FailureKeepsEarlierWrites | check_qa.py:24-35 | a failing `stat` skips only the rest of its directory; writes already made, nested ones included, stay |
| PdfScan.SecondWriteWins | check_qa.py:33 | writing one name twice leaves a single key holding the second time |
| PdfScan.SameNameOverwrites | check_qa.py:33 | two recent PDFs with the same name: the dict keeps one key with the time of the one scanned last |
| FileSearch.DirNames | find.py:14 | a name is in `dirnames` iff a subdirectory has it |
| FileSearch.FileNames | find.py:14 | a name is in `filenames` iff a file has it |
| FileSearch.FileNamesAppend | find.py:14 | listing order is kept: the names for entries `a` then `b` are those for `a` followed by those for `b` |
| FileSearch.Walk | find.py:14 | `os.walk` yields nothing for a file or an unlistable folder; otherwise its first step is the start folder and every step is a folder at or below it |
| FileSearch.ContainsInfix | find.py:16 | Python's `in` finds a string wherever it sits inside another, the empty string included |
| FileSearch.ContainsSplits | find.py:16 | a string found at an index splits the name around it |
| FileSearch.AddStepMatches | find.py:15-17 | the inner loop appends the joined matching names of one directory, in listing order |
| FileSearch.FindFilesContainingString | find.py:3-19 | the loops return `Matches` of the walk: directory by directory in walk order, names in listing order |
| FileSearch.StepMatchesMembership | find.py:15-17 | a path is matched in one step iff it is `dirpath` joined with a listed file name containing the search string |
| FileSearch.MatchesMembership | find.py:14-17 | a path is returned iff some walk step lists it as a file and its last name contains the search string |
| FileSearch.ListedAppend | find.py:14 | listed in a concatenation of walk steps iff listed in either part |
| FileSearch.WalkInListed | find.py:14 | listed by the walks of the subdirectories met iff listed by one of them |
| FileSearch.WalkReachesSplit | find.py:14 | a file is reached iff it sits in the top folder or below one of its subdirectories |
| FileSearch.TopListed | find.py:14 | the top step lists exactly the files of the top folder |
| FileSearch.WalkListed | find.py:14 | the walk lists a path iff it names a file reachable through listable directories |
| FileSearch.FindExact | find.py:14-17 | a path is returned iff it names a file the walk reaches and its file name, not any directory name, contains the search string |
| FileSearch.EmptySearchFindsEveryFile | find.py:16 | the empty string matches every reachable file |
| QaMerge.ColumnIndex | merge_qa_tables.py:45 | the position of the `Path` header, and none iff the table has no such column |
| QaMerge.Column | merge_qa_tables.py:45 | the column's values, one per row, in row order |
| QaMerge.MergeDataframes | merge_qa_tables.py:42-50 | the empty table when either side lacks `Path`; otherwise the CSV headers and no more rows than the CSV |
| QaMerge.KeepAbsentShape | merge_qa_tables.py:45 | the kept rows are rows of the input and no more numerous |
| QaMerge.KeepAbsentMembership | merge_qa_tables.py:45 | a row is kept iff it is an input row whose cell is not excluded |
| QaMerge.MergeMembership | merge_qa_tables.py:45 | a row is in the result iff it is a CSV row whose `Path` is not among the Excel `Path` values |
| QaMerge.CountAppend | merge_qa_tables.py:45 | occurrences in a concatenation add up |
| QaMerge.KeepAbsentCount | merge_qa_tables.py:45 | a kept row occurs as often as in the input, an excluded one not at all |
| QaMerge.MergeKeepsDuplicates | merge_qa_tables.py:45 | duplicate CSV rows survive the merge with their multiplicity |
| QaMerge.KeepAbsentSubsequence | merge_qa_tables.py:45 | the kept rows are the input rows with some left out, in their order |
| QaMerge.SubsequenceOfLonger | merge_qa_tables.py:45 | a subsequence stays one when a row is appended to the longer side |
| QaMerge.MergeKeepsOrder | merge_qa_tables.py:45 | the result is a subsequence of the CSV rows |
| QaMerge.KeepAbsentIdempotent | merge_qa_tables.py:45 | filtering twice by the same values is filtering once |
| QaMerge.MergeIdempotent | merge_qa_tables.py:45 | the result is well shaped, and merging it again with the same sheet changes nothing |
| QaMerge.KeepAbsentNothing | merge_qa_tables.py:45 | excluding nothing keeps every row |
| QaMerge.MergeWithEmptySheet | merge_qa_tables.py:45 | a sheet with a `Path` column and no rows leaves the report unchanged |
| QaMerge.FailedReadGivesEmpty | merge_qa_tables.py:44-50 | when either read fails, the merge yields the empty table |

## Left out

- File-system calls are replaced by the immutable tree. Symbolic links, concurrent changes to the share, and the real order in which the operating system enumerates entries are not modelled; the enumeration order is the order of the entry sequence.
- Python's `str.isdigit` accepts non-ASCII Unicode digits. `IsDigits` accepts ASCII `0`-`9` only.
- Clock and date arithmetic are not modelled. `datetime.now`, `timedelta` and `fromtimestamp` over the float `st_mtime` become integer seconds, and the cutoff is a parameter.
- Screen clearing (`os.system`), `print`, `logging`, message boxes and all Tk widgets are not modelled. Only the decisions of the two front ends are, in `ValidateRun` and `ValidateTestRun`.
- Serialisation is not modelled:
  - `json.dump` and `to_csv` of the report;
  - `to_excel` in test.py, including the "no directories found" message and its early return;
  - `pd.read_csv`, `pd.read_excel` and `write_csv_file`.
  The reads are modelled only as their "empty table on failure" outcome.
- DataFrames are sequences of string rows under distinct headers. The pandas index, NaN and other non-string cells, and dtype conversion on reading are not modelled.
- The error raised by an unlisted office or group folder in filescan.py, gui_test.py and test.py is propagated, not caught. It ends `main` in filescan.py and the button callback in the two front ends (the window stays open); the model returns the error of the first folder that fails. The tracebacks and partial output files are not modelled.
- Names are compared exactly. On the Windows share the scripts target, `os.path.exists` and `os.scandir` ignore letter case, so the scripts find a `Rcrd Cpy` or `cvl` folder that `Lookup` does not; `WellFormed` also allows siblings whose names differ only in case.
- Cutoff: Python dates stop at year 1, so `now - timedelta(days=...)` raises `OverflowError` for a look-back of roughly 739,000 days or more (gui_test.py:33, test.py:61). Integers here are unbounded, so `ValidateRun` and `ValidateTestRun` proceed and `Cutoff` returns a value for every number of days.
- The set in test.py has no order. The model does not represent the arbitrary order of `list(matching_dirs)` when it is written out.
- `Report.PathRows` states only the row count. The content of each row is stated by `Report.PathRowsAt`.
- `Report.CollectedShaped` holds by the definition of `Collected`. It restates, for a reader, the shape the office loop builds.
- make_test_tree.py, the fixture generator, is not part of this model. It is pure I/O.
