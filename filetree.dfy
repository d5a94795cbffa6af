/**
 * The directory tree that the scripts read through `os.scandir`, `os.walk`,
 * `os.path.exists` and `DirEntry.stat`, as an immutable value.
 *
 * A path is the sequence of names from the root of the tree; the root itself
 * is the empty path, and `os.path.join(p, n)` is `p + [n]`. Enumeration order
 * is the order of a directory's `entries`.
 */
module FileTree {

  type Path = seq<string>

  datatype Option<T> = None | Some(value: T)

  /** A directory entry. `statable` is false when `stat()` on the file raises;
      `readable` is false when `os.scandir` on the directory raises. */
  datatype Entry =
    | File(name: string, mtime: int, statable: bool)
    | Dir(name: string, entries: seq<Entry>, readable: bool)

  /** The failure categories of a directory enumeration. */
  datatype FsError = NotFound | NotADirectory | PermissionDenied

  datatype Result<T> = Ok(value: T) | Err(error: FsError)

  /** Sibling names are distinct, at every level: what a real filesystem guarantees. */
  ghost predicate WellFormed(e: Entry)
    decreases e
  {
    match e
    case File(_, _, _) => true
    case Dir(_, es, _) =>
      DistinctNames(es) && forall i | 0 <= i < |es| :: WellFormed(es[i])
  }

  ghost predicate DistinctNames(es: seq<Entry>)
  {
    forall i, j | 0 <= i < j < |es| :: es[i].name != es[j].name
  }

  /** The first entry called `n`, as the operating system resolves one path step. */
  function Child(es: seq<Entry>, n: string): (r: Option<Entry>)
    ensures r.Some? ==> r.value in es && r.value.name == n
    ensures r.None? ==> forall i | 0 <= i < |es| :: es[i].name != n
  {
    if es == [] then None
    else if es[0].name == n then Some(es[0])
    else Child(es[1..], n)
  }

  lemma {:induction false} ChildFindsUnique(es: seq<Entry>, j: nat)
    requires j < |es| && DistinctNames(es)
    ensures Child(es, es[j].name) == Some(es[j])
  {
    if j > 0 && es[0].name != es[j].name {
      assert DistinctNames(es[1..]) by {
        forall a, b | 0 <= a < b < |es[1..]| ensures es[1..][a].name != es[1..][b].name {
          assert es[1..][a] == es[a + 1] && es[1..][b] == es[b + 1];
        }
      }
      ChildFindsUnique(es[1..], j - 1);
      assert es[1..][j - 1] == es[j];
    }
  }

  /** The entry a path names, relative to `e` (path resolution does not need
      permission to list the directories it passes through). */
  function Lookup(e: Entry, q: Path): (r: Option<Entry>)
    ensures q == [] ==> r == Some(e)
    ensures q != [] && r.Some? ==> e.Dir? && r.value.name == q[|q| - 1]
    decreases q
  {
    if q == [] then Some(e)
    else match e
      case File(_, _, _) => None
      case Dir(_, es, _) =>
        match Child(es, q[0])
        case None => None
        case Some(c) => Lookup(c, q[1..])
  }

  lemma {:induction false} LookupAppend(e: Entry, q: Path, n: string)
    ensures Lookup(e, q + [n]) ==
      if Lookup(e, q).Some? && Lookup(e, q).value.Dir? then Child(Lookup(e, q).value.entries, n) else None
    decreases q
  {
    if q == [] {
      assert [n][1..] == [];
    } else {
      assert (q + [n])[0] == q[0] && (q + [n])[1..] == q[1..] + [n];
      if e.Dir? && Child(e.entries, q[0]).Some? {
        LookupAppend(Child(e.entries, q[0]).value, q[1..], n);
      }
    }
  }

  lemma {:induction false} LookupWellFormed(e: Entry, q: Path)
    requires WellFormed(e) && Lookup(e, q).Some?
    ensures WellFormed(Lookup(e, q).value)
    decreases q
  {
    if q != [] {
      var c := Child(e.entries, q[0]).value;
      var i :| 0 <= i < |e.entries| && e.entries[i] == c;
      LookupWellFormed(c, q[1..]);
    }
  }

  /** Resolving `a + s` is resolving `a`, then `s` from there. */
  lemma {:induction false} LookupConcat(e: Entry, a: Path, s: Path)
    ensures Lookup(e, a + s) == if Lookup(e, a).Some? then Lookup(Lookup(e, a).value, s) else None
    decreases a
  {
    if a == [] {
      assert a + s == s;
    } else {
      assert (a + s)[0] == a[0] && (a + s)[1..] == a[1..] + s;
      if e.Dir? && Child(e.entries, a[0]).Some? {
        LookupConcat(Child(e.entries, a[0]).value, a[1..], s);
      }
    }
  }

  /** The entry a directory walk starting at `e` arrives at along `q`: like
      `Lookup`, but every directory passed through must be listable. */
  function Reach(e: Entry, q: Path): (r: Option<Entry>)
    ensures r.Some? ==> Lookup(e, q) == r
    ensures q == [] ==> r == Some(e)
    decreases q
  {
    if q == [] then Some(e)
    else match e
      case File(_, _, _) => None
      case Dir(_, es, readable) =>
        if !readable then None
        else match Child(es, q[0])
          case None => None
          case Some(c) => Reach(c, q[1..])
  }

  /** Reaching a child of a reachable, listable directory. */
  lemma {:induction false} ReachAppend(e: Entry, q: Path, n: string)
    ensures Reach(e, q + [n]) ==
      if Reach(e, q).Some? && Reach(e, q).value.Dir? && Reach(e, q).value.readable
      then Child(Reach(e, q).value.entries, n) else None
    decreases q
  {
    if q == [] {
      assert [n][1..] == [];
    } else {
      assert (q + [n])[0] == q[0] && (q + [n])[1..] == q[1..] + [n];
      if e.Dir? && e.readable && Child(e.entries, q[0]).Some? {
        ReachAppend(Child(e.entries, q[0]).value, q[1..], n);
      }
    }
  }

  /** Reaching through a first step into child `c`. */
  lemma ReachCons(e: Entry, c: Entry, q: Path)
    requires e.Dir? && e.readable && Child(e.entries, c.name) == Some(c)
    ensures Reach(e, [c.name] + q) == Reach(c, q)
  {
    assert ([c.name] + q)[1..] == q;
  }

  /** `os.path.exists`: true for a file as well as for a directory. */
  predicate Exists(fs: Entry, p: Path)
  {
    Lookup(fs, p).Some?
  }

  /** `os.scandir(p)`: the entries of the directory at `p`, or the error it raises. */
  function ScanDir(fs: Entry, p: Path): (r: Result<seq<Entry>>)
    ensures r.Ok? <==> (Lookup(fs, p).Some? && Lookup(fs, p).value.Dir? && Lookup(fs, p).value.readable)
    ensures r.Ok? ==> r.value == Lookup(fs, p).value.entries
    ensures r == Err(NotFound) <==> !Exists(fs, p)
  {
    match Lookup(fs, p)
    case None => Err(NotFound)
    case Some(File(_, _, _)) => Err(NotADirectory)
    case Some(Dir(_, es, readable)) => if readable then Ok(es) else Err(PermissionDenied)
  }

  /** A successful listing holds what path resolution finds one step down:
      the entry named `n` in the listing is the one `p + [n]` resolves to. */
  lemma ScanDirChildren(fs: Entry, p: Path, n: string)
    requires ScanDir(fs, p).Ok?
    ensures Lookup(fs, p + [n]) == Child(ScanDir(fs, p).value, n)
    ensures Exists(fs, p + [n]) <==> exists i | 0 <= i < |ScanDir(fs, p).value| :: ScanDir(fs, p).value[i].name == n
  {
    LookupAppend(fs, p, n);
  }

  /** No element occurs twice. */
  ghost predicate NoDuplicates<T>(s: seq<T>)
  {
    forall i, j | 0 <= i < j < |s| :: s[i] != s[j]
  }

  lemma NoDuplicatesAppend<T>(a: seq<T>, b: seq<T>)
    requires NoDuplicates(a) && NoDuplicates(b)
    requires forall x | x in a :: x !in b
    ensures NoDuplicates(a + b)
  {
    forall i, j | 0 <= i < j < |a + b| ensures (a + b)[i] != (a + b)[j] {
      if j < |a| {
      } else if i >= |a| {
        assert (a + b)[i] == b[i - |a|] && (a + b)[j] == b[j - |a|];
      } else {
        assert (a + b)[i] in a && (a + b)[j] == b[j - |a|];
      }
    }
  }

  /** The index of the first occurrence of `x` in `s`. */
  function FirstIndex<T(==)>(s: seq<T>, x: T): (k: nat)
    requires x in s
    ensures k < |s| && s[k] == x
    ensures forall j | 0 <= j < k :: s[j] != x
  {
    if s[0] == x then 0 else 1 + FirstIndex(s[1..], x)
  }

  /** A first occurrence inside a prefix is the first occurrence in the whole. */
  lemma FirstIndexPrefix<T>(s: seq<T>, n: nat, x: T)
    requires n <= |s| && x in s[..n]
    ensures FirstIndex(s, x) == FirstIndex(s[..n], x)
  {
    var k := FirstIndex(s[..n], x);
    assert s[k] == x;
    var m := FirstIndex(s, x);
    assert m <= k;
    assert s[..n][m] == x;
  }

  /** Dropping the last element keeps the first occurrence of everything before it. */
  lemma FirstIndexFront(s: seq<string>, d: seq<string>)
    requires |s| > 0 && forall k | 0 <= k < |d| :: d[k] in s[..|s| - 1]
    ensures forall k | 0 <= k < |d| :: FirstIndex(s, d[k]) == FirstIndex(s[..|s| - 1], d[k])
  {
    forall k | 0 <= k < |d| ensures FirstIndex(s, d[k]) == FirstIndex(s[..|s| - 1], d[k]) {
      FirstIndexPrefix(s, |s| - 1, d[k]);
    }
  }

  /** The keys of a Python dict filled from `s` in order: each distinct value
      once, ordered by where it first occurs in `s`. */
  function Dedup(s: seq<string>): (r: seq<string>)
    ensures forall x :: x in r <==> x in s
    ensures NoDuplicates(r)
    ensures forall i, j | 0 <= i < j < |r| :: FirstIndex(s, r[i]) < FirstIndex(s, r[j])
  {
    if s == [] then []
    else
      var front := s[..|s| - 1];
      var d := Dedup(front);
      FirstIndexFront(s, d);
      if s[|s| - 1] in d then d
      else
        NoDuplicatesAppend(d, [s[|s| - 1]]);
        assert FirstIndex(s, s[|s| - 1]) == |s| - 1;
        d + [s[|s| - 1]]
  }

  /** A list without repeats is its own set of dict keys. */
  lemma {:induction false} DedupNoDuplicates(s: seq<string>)
    requires NoDuplicates(s)
    ensures Dedup(s) == s
  {
    if s != [] {
      var front := s[..|s| - 1];
      assert NoDuplicates(front) by {
        forall i, j | 0 <= i < j < |front| ensures front[i] != front[j] {
          assert front[i] == s[i] && front[j] == s[j];
        }
      }
      DedupNoDuplicates(front);
      assert s[|s| - 1] !in front;
      assert front + [s[|s| - 1]] == s;
    }
  }

  /** Python's `str.isdigit`, restricted to the ASCII digits: non-empty, digits only. */
  predicate IsDigits(s: string)
  {
    |s| > 0 && forall i | 0 <= i < |s| :: '0' <= s[i] <= '9'
  }
}
