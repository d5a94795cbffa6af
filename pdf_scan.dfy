/**
 * check_qa.py's recursive search for recent PDF files. Every subdirectory is
 * scanned in full, whatever has been found; a file whose name ends with
 * ".pdf" and whose modification time is at or after the cutoff is written to
 * one dict shared by all calls (`matching_files`), keyed by its bare name, so a
 * later file of the same name overwrites an earlier one. A failing `stat` on
 * a PDF ends the loop over its directory; what was written stays written.
 */
module PdfScan {
  import opened FileTree

  const PdfSuffix: string := ".pdf"

  /** Python's `str.endswith`. */
  predicate EndsWith(s: string, suffix: string)
  {
    |suffix| <= |s| && s[|s| - |suffix|..] == suffix
  }

  /** `s + suffix` ends with `suffix`; and a string that ends with `suffix`
      is what comes before it followed by `suffix`. */
  lemma EndsWithAppend(s: string, suffix: string)
    ensures EndsWith(s + suffix, suffix)
  {
    assert (s + suffix)[|s|..] == suffix;
  }

  lemma EndsWithSplits(s: string, suffix: string)
    requires EndsWith(s, suffix)
    ensures s == s[..|s| - |suffix|] + suffix
  {
  }

  predicate IsPdf(e: Entry)
  {
    e.File? && EndsWith(e.name, PdfSuffix)
  }

  /** An entry whose handling raises: a PDF whose `stat` fails. Other files
      are never `stat`ed. */
  predicate PdfFails(e: Entry)
  {
    IsPdf(e) && !e.statable
  }

  /** The index of the first PDF whose `stat` fails, or `|es|`. */
  function PdfStop(es: seq<Entry>): (k: nat)
    ensures k <= |es|
    ensures forall j | 0 <= j < k :: !PdfFails(es[j])
    ensures k < |es| ==> PdfFails(es[k])
  {
    if es == [] then 0
    else if PdfFails(es[0]) then 0
    else 1 + PdfStop(es[1..])
  }

  /** The dict writes, in order, that `scan_directory` performs when `e` is
      what the operating system finds at the scanned path. */
  function PdfWrites(e: Entry, cutoff: int): seq<(string, int)>
    decreases e, 1
  {
    match e
    case File(_, _, _) => []   // os.scandir raises; the handler reports it
    case Dir(_, es, readable) => if !readable then [] else WritesIn(es, PdfStop(es), cutoff)
  }

  /** The writes for the first `n` entries. */
  function WritesIn(es: seq<Entry>, n: nat, cutoff: int): seq<(string, int)>
    requires n <= |es|
    decreases es, n
  {
    if n == 0 then []
    else WritesIn(es, n - 1, cutoff) + EntryWrites(es[n - 1], cutoff)
  }

  /** The writes for one entry: a subdirectory's whole scan, or one write for a
      recent PDF. */
  function EntryWrites(e: Entry, cutoff: int): seq<(string, int)>
    decreases e, 2
  {
    match e
    case Dir(_, _, _) => PdfWrites(e, cutoff)
    case File(name, mtime, statable) =>
      if IsPdf(e) && statable && mtime >= cutoff then [(name, mtime)] else []
  }

  /** The dict after the writes `ws`, in order, on top of `m`. */
  function ApplyWrites(m: map<string, int>, ws: seq<(string, int)>): map<string, int>
  {
    if ws == [] then m
    else ApplyWrites(m, ws[..|ws| - 1])[ws[|ws| - 1].0 := ws[|ws| - 1].1]
  }

  lemma {:induction false} ApplyWritesAppend(m: map<string, int>, a: seq<(string, int)>, b: seq<(string, int)>)
    ensures ApplyWrites(m, a + b) == ApplyWrites(ApplyWrites(m, a), b)
    decreases |b|
  {
    if b == [] {
      assert a + b == a;
    } else {
      assert (a + b)[..|a + b| - 1] == a + b[..|b| - 1];
      ApplyWritesAppend(m, a, b[..|b| - 1]);
    }
  }

  /** The closure state of check_qa.py's `main`: the shared dict and the
      `scan_directory` that writes into it. */
  class PdfCollector {
    var matchingFiles: map<string, int>

    constructor ()
      ensures matchingFiles == map[]
    {
      matchingFiles := map[];
    }

    /** check_qa.py:23-35. */
    method ScanDirectory(e: Entry, cutoff: int)
      modifies this
      ensures matchingFiles == ApplyWrites(old(matchingFiles), PdfWrites(e, cutoff))
      decreases e
    {
      if !e.Dir? || !e.readable {
        return;
      }
      var es := e.entries;
      var i := 0;
      while i < |es|
        invariant 0 <= i <= |es|
        invariant forall j | 0 <= j < i :: !PdfFails(es[j])
        invariant matchingFiles == ApplyWrites(old(matchingFiles), WritesIn(es, i, cutoff))
      {
        var entry := es[i];
        ghost var before := matchingFiles;
        if entry.Dir? {
          ScanDirectory(entry, cutoff);
        } else if EndsWith(entry.name, PdfSuffix) {
          if !entry.statable {
            // entry.stat() raises: the rest of the directory is skipped
            return;
          }
          if entry.mtime >= cutoff {
            matchingFiles := matchingFiles[entry.name := entry.mtime];
          }
        }
        assert matchingFiles == ApplyWrites(before, EntryWrites(entry, cutoff));
        ApplyWritesAppend(old(matchingFiles), WritesIn(es, i, cutoff), EntryWrites(entry, cutoff));
        i := i + 1;
      }
    }

    /** check_qa.py:38-39: every base folder into the same dict. */
    method ScanAll(fs: Entry, baseDirs: seq<Path>, cutoff: int)
      modifies this
      ensures matchingFiles == ApplyWrites(old(matchingFiles), AllPdfWrites(fs, baseDirs, cutoff))
    {
      var i := 0;
      while i < |baseDirs|
        invariant 0 <= i <= |baseDirs|
        invariant matchingFiles == ApplyWrites(old(matchingFiles), AllPdfWrites(fs, baseDirs[..i], cutoff))
      {
        var found := Lookup(fs, baseDirs[i]);
        ghost var done := AllPdfWrites(fs, baseDirs[..i], cutoff);
        ghost var writes := match found case None => [] case Some(e) => PdfWrites(e, cutoff);
        if found.Some? {
          ScanDirectory(found.value, cutoff);
        }
        assert matchingFiles == ApplyWrites(ApplyWrites(old(matchingFiles), done), writes);
        ApplyWritesAppend(old(matchingFiles), done, writes);
        AllPdfWritesStep(fs, baseDirs, i, cutoff);
        i := i + 1;
      }
      assert baseDirs[..i] == baseDirs;
    }
  }

  /** The writes of the scans of every base folder, in order. */
  function AllPdfWrites(fs: Entry, baseDirs: seq<Path>, cutoff: int): seq<(string, int)>
  {
    if baseDirs == [] then []
    else
      AllPdfWrites(fs, baseDirs[..|baseDirs| - 1], cutoff)
      + (match Lookup(fs, baseDirs[|baseDirs| - 1]) case None => [] case Some(e) => PdfWrites(e, cutoff))
  }

  /** One more base folder: its writes follow those of the folders before it. */
  lemma AllPdfWritesStep(fs: Entry, baseDirs: seq<Path>, i: nat, cutoff: int)
    requires i < |baseDirs|
    ensures AllPdfWrites(fs, baseDirs[..i + 1], cutoff) ==
              AllPdfWrites(fs, baseDirs[..i], cutoff)
              + (match Lookup(fs, baseDirs[i]) case None => [] case Some(e) => PdfWrites(e, cutoff))
  {
    assert baseDirs[..i + 1][..i] == baseDirs[..i] && baseDirs[..i + 1][i] == baseDirs[i];
  }

  /** The dict check_qa.py prints. */
  function MatchingFiles(fs: Entry, baseDirs: seq<Path>, cutoff: int): map<string, int>
  {
    ApplyWrites(map[], AllPdfWrites(fs, baseDirs, cutoff))
  }

  /** check_qa.py:18-39 from a fresh dict. */
  method FindRecentPdfs(fs: Entry, baseDirs: seq<Path>, cutoff: int) returns (matchingFiles: map<string, int>)
    ensures matchingFiles == MatchingFiles(fs, baseDirs, cutoff)
  {
    var collector := new PdfCollector();
    collector.ScanAll(fs, baseDirs, cutoff);
    return collector.matchingFiles;
  }

  /** Last writer wins: a name is a key exactly when it was already one or
      was written, and then its value is the last value written for it. */
  lemma {:induction false} LastWriteWins(m: map<string, int>, ws: seq<(string, int)>, n: string)
    ensures n in ApplyWrites(m, ws) <==> n in m || exists i | 0 <= i < |ws| :: ws[i].0 == n
    ensures forall i | 0 <= i < |ws| && ws[i].0 == n && (forall j | i < j < |ws| :: ws[j].0 != n) ::
              ApplyWrites(m, ws)[n] == ws[i].1
    ensures (forall i | 0 <= i < |ws| :: ws[i].0 != n) && n in m ==> ApplyWrites(m, ws)[n] == m[n]
  {
    if ws != [] {
      var front := ws[..|ws| - 1];
      LastWriteWins(m, front, n);
      assert forall i | 0 <= i < |front| :: front[i] == ws[i];
    }
  }

  /** Every write names a recent PDF: its name ends with ".pdf" and its value
      is its modification time, at or after the cutoff, of a file that the
      scan reaches through listable directories. */
  ghost predicate RecentPdfBelow(e: Entry, w: (string, int), cutoff: int)
  {
    EndsWith(w.0, PdfSuffix) && w.1 >= cutoff &&
    exists q: Path :: Reach(e, q) == Some(File(w.0, w.1, true))
  }

  lemma {:induction false} PdfWritesSound(e: Entry, cutoff: int)
    requires WellFormed(e)
    ensures forall w | w in PdfWrites(e, cutoff) :: RecentPdfBelow(e, w, cutoff)
    decreases e, 1
  {
    if e.Dir? && e.readable {
      WritesInSound(e, PdfStop(e.entries), cutoff);
    }
  }

  lemma {:induction false} WritesInSound(e: Entry, n: nat, cutoff: int)
    requires e.Dir? && e.readable && WellFormed(e) && n <= |e.entries|
    ensures forall w | w in WritesIn(e.entries, n, cutoff) :: RecentPdfBelow(e, w, cutoff)
    decreases e.entries, n
  {
    if n > 0 {
      var es := e.entries;
      var c := es[n - 1];
      WritesInSound(e, n - 1, cutoff);
      ChildFindsUnique(es, n - 1);
      if c.Dir? {
        PdfWritesSound(c, cutoff);
        forall w | w in PdfWrites(c, cutoff) ensures RecentPdfBelow(e, w, cutoff) {
          var q: Path :| Reach(c, q) == Some(File(w.0, w.1, true));
          ReachCons(e, c, q);
        }
      } else if IsPdf(c) && c.statable && c.mtime >= cutoff {
        ReachCons(e, c, []);
        assert Reach(e, [c.name]) == Some(File(c.name, c.mtime, true));
      }
    }
  }

  /** No PDF `stat` fails anywhere below `e`. */
  ghost predicate NoPdfFails(e: Entry)
    decreases e
  {
    match e
    case File(_, _, _) => !PdfFails(e)
    case Dir(_, es, _) => forall i | 0 <= i < |es| :: NoPdfFails(es[i])
  }

  /** No early exit: when no PDF `stat` fails, every recent PDF the scan can
      reach is written, however many matches came before it. */
  lemma {:induction false} PdfWritesComplete(e: Entry, q: Path, cutoff: int)
    requires NoPdfFails(e)
    requires Reach(e, q).Some? && IsPdf(Reach(e, q).value) && Reach(e, q).value.mtime >= cutoff
    requires q != []
    ensures (Reach(e, q).value.name, Reach(e, q).value.mtime) in PdfWrites(e, cutoff)
    decreases q
  {
    var es := e.entries;
    var c := Child(es, q[0]).value;
    var i :| 0 <= i < |es| && es[i] == c;
    assert PdfStop(es) == |es|;
    assert NoPdfFails(c);
    var w := (Reach(e, q).value.name, Reach(e, q).value.mtime);
    if q[1..] == [] {
      assert Reach(c, []) == Some(c);
      assert w in EntryWrites(es[i], cutoff);
    } else {
      PdfWritesComplete(c, q[1..], cutoff);
      assert w in EntryWrites(es[i], cutoff);
    }
    WritesInContains(es, |es|, i, cutoff);
  }

  lemma {:induction false} WritesInContains(es: seq<Entry>, n: nat, i: nat, cutoff: int)
    requires i < n <= |es|
    ensures forall w | w in EntryWrites(es[i], cutoff) :: w in WritesIn(es, n, cutoff)
    decreases n
  {
    if i < n - 1 {
      WritesInContains(es, n - 1, i, cutoff);
    }
  }

  lemma {:induction false} WritesInPrefix(es: seq<Entry>, es': seq<Entry>, n: nat, cutoff: int)
    requires n <= |es| && n <= |es'| && es[..n] == es'[..n]
    ensures WritesIn(es, n, cutoff) == WritesIn(es', n, cutoff)
    decreases n
  {
    if n > 0 {
      assert es[..n - 1] == es[..n][..n - 1] && es'[..n - 1] == es'[..n][..n - 1];
      assert es[n - 1] == es[..n][n - 1] && es'[n - 1] == es'[..n][n - 1];
      WritesInPrefix(es, es', n - 1, cutoff);
    }
  }

  /** A PDF whose `stat` fails ends its directory's loop: whatever the
      entries before it wrote, nested scans included, stays written, and the
      entries after it are never looked at. */
  lemma FailureKeepsEarlierWrites(name: string, before: seq<Entry>, bad: Entry, after: seq<Entry>, cutoff: int)
    requires forall j | 0 <= j < |before| :: !PdfFails(before[j])
    requires PdfFails(bad)
    ensures PdfWrites(Dir(name, before + [bad] + after, true), cutoff) == PdfWrites(Dir(name, before, true), cutoff)
  {
    var es := before + [bad] + after;
    assert es[|before|] == bad;
    assert forall j | 0 <= j < |before| :: es[j] == before[j];
    assert PdfStop(es) == |before|;
    assert PdfStop(before) == |before|;
    assert es[..|before|] == before[..|before|];
    WritesInPrefix(es, before, |before|, cutoff);
  }

  /** A listable folder holding one recent PDF writes that PDF once. */
  lemma OneRecentPdf(name: string, f: Entry, cutoff: int)
    requires IsPdf(f) && f.statable && f.mtime >= cutoff
    ensures PdfWrites(Dir(name, [f], true), cutoff) == [(f.name, f.mtime)]
  {
    assert PdfStop([f]) == 1;
    assert WritesIn([f], 1, cutoff) == WritesIn([f], 0, cutoff) + EntryWrites(f, cutoff);
  }

  /** A listable folder with two subfolders writes what the first one writes,
      then what the second one writes. */
  lemma TwoFolders(name: string, a: Entry, b: Entry, cutoff: int)
    requires a.Dir? && b.Dir?
    ensures PdfWrites(Dir(name, [a, b], true), cutoff) == PdfWrites(a, cutoff) + PdfWrites(b, cutoff)
  {
    var es := [a, b];
    assert PdfStop(es[1..]) == 1 by {
      assert es[1..] == [b];
    }
    assert PdfStop(es) == 2;
    assert WritesIn(es, 1, cutoff) == WritesIn(es, 0, cutoff) + EntryWrites(a, cutoff);
    assert WritesIn(es, 2, cutoff) == WritesIn(es, 1, cutoff) + EntryWrites(b, cutoff);
  }

  /** Two writes of the same name: the dict holds the second value. */
  lemma SecondWriteWins(key: string, first: int, second: int)
    ensures ApplyWrites(map[], [(key, first), (key, second)]) == map[key := second]
  {
    var ws: seq<(string, int)> := [(key, first), (key, second)];
    assert ws[..1] == [(key, first)] && ws[..1][..0] == [];
    assert ApplyWrites(map[], ws[..1]) == map[key := first];
  }

  /** Two recent PDFs called the same in two folders: the dict keeps one entry,
      with the time of the one scanned last. */
  lemma SameNameOverwrites(cutoff: int)
    ensures var older := Dir("a", [File("report.pdf", cutoff + 5, true)], true);
            var newer := Dir("b", [File("report.pdf", cutoff, true)], true);
            ApplyWrites(map[], PdfWrites(Dir("QUT", [older, newer], true), cutoff)) == map["report.pdf" := cutoff]
  {
    var older := File("report.pdf", cutoff + 5, true);
    var newer := File("report.pdf", cutoff, true);
    assert EndsWith("report.pdf", PdfSuffix) by {
      assert "report.pdf"[|"report.pdf"| - |PdfSuffix|..] == ".pdf";
    }
    OneRecentPdf("a", older, cutoff);
    OneRecentPdf("b", newer, cutoff);
    TwoFolders("QUT", Dir("a", [older], true), Dir("b", [newer], true), cutoff);
    SecondWriteWins("report.pdf", cutoff + 5, cutoff);
  }
}
