/**
 * merge_qa_tables.py: keep the rows of the scan report (the CSV table) whose
 * "Path" is not already among the "Path" values of the QA sheet (the Excel
 * table).
 *
 * A table is its column headers and its rows, each row one cell per header.
 * Every failure is turned into the empty table: a read that fails, and a
 * merge where either table has no "Path" column.
 */
module QaMerge {
  import opened FileTree

  datatype Table = Table(columns: seq<string>, rows: seq<seq<string>>)

  /** `pd.DataFrame()`: no columns, no rows. */
  const EmptyTable: Table := Table([], [])

  const PathColumn: string := "Path"

  /** What a table read by pandas always is: distinct headers (duplicates are
      renamed on reading) and one cell per header in every row. */
  ghost predicate WellShaped(t: Table)
  {
    NoDuplicates(t.columns) && forall i | 0 <= i < |t.rows| :: |t.rows[i]| == |t.columns|
  }

  /** The position of a header, if present. */
  function ColumnIndex(columns: seq<string>, name: string): (r: Option<nat>)
    ensures r.Some? ==> r.value < |columns| && columns[r.value] == name
    ensures r.None? <==> name !in columns
  {
    if columns == [] then None
    else if columns[0] == name then Some(0)
    else match ColumnIndex(columns[1..], name)
      case None => None
      case Some(i) => Some(i + 1)
  }

  /** A column's values, in row order. */
  function Column(rows: seq<seq<string>>, c: nat): (r: seq<string>)
    requires forall i | 0 <= i < |rows| :: c < |rows[i]|
    ensures |r| == |rows| && forall i | 0 <= i < |rows| :: r[i] == rows[i][c]
  {
    if rows == [] then [] else Column(rows[..|rows| - 1], c) + [rows[|rows| - 1][c]]
  }

  /** The rows whose cell `c` is not among `excluded`, in order. */
  function KeepAbsent(rows: seq<seq<string>>, c: nat, excluded: seq<string>): seq<seq<string>>
    requires forall i | 0 <= i < |rows| :: c < |rows[i]|
  {
    if rows == [] then []
    else
      var last := rows[|rows| - 1];
      KeepAbsent(rows[..|rows| - 1], c, excluded) + (if last[c] !in excluded then [last] else [])
  }

  /** `merge_dataframes`: `csv_df[~csv_df['Path'].isin(excel_df['Path'])]`,
      and the empty table when either side has no "Path" column. */
  function MergeDataframes(csv: Table, excel: Table): (r: Table)
    requires WellShaped(csv) && WellShaped(excel)
    ensures PathColumn !in csv.columns || PathColumn !in excel.columns ==> r == EmptyTable
    ensures PathColumn in csv.columns && PathColumn in excel.columns ==> r.columns == csv.columns && |r.rows| <= |csv.rows|
  {
    match (ColumnIndex(csv.columns, PathColumn), ColumnIndex(excel.columns, PathColumn))
    case (Some(ci), Some(ei)) =>
      var kept := KeepAbsent(csv.rows, ci, Column(excel.rows, ei));
      KeepAbsentShape(csv.rows, ci, Column(excel.rows, ei));
      Table(csv.columns, kept)
    case _ => EmptyTable
  }

  /** The "Path" values of a table that has the column. */
  function PathsOf(t: Table): seq<string>
    requires WellShaped(t) && PathColumn in t.columns
  {
    Column(t.rows, ColumnIndex(t.columns, PathColumn).value)
  }

  /** The "Path" cell of a row of a table that has the column. */
  function PathCell(t: Table, row: seq<string>): string
    requires PathColumn in t.columns && |row| == |t.columns|
  {
    row[ColumnIndex(t.columns, PathColumn).value]
  }

  /** `read_csv_file` and `read_excel_file`: the table read, or the empty
      table when reading raises. */
  function ReadOrEmpty(read: Option<Table>): (t: Table)
    ensures read.None? ==> t == EmptyTable
    ensures read.Some? ==> t == read.value
  {
    match read
    case None => EmptyTable
    case Some(t) => t
  }

  lemma {:induction false} KeepAbsentShape(rows: seq<seq<string>>, c: nat, excluded: seq<string>)
    requires forall i | 0 <= i < |rows| :: c < |rows[i]|
    ensures |KeepAbsent(rows, c, excluded)| <= |rows|
    ensures forall r | r in KeepAbsent(rows, c, excluded) :: r in rows
  {
    if rows != [] {
      KeepAbsentShape(rows[..|rows| - 1], c, excluded);
    }
  }

  lemma {:induction false} KeepAbsentMembership(rows: seq<seq<string>>, c: nat, excluded: seq<string>, r: seq<string>)
    requires forall i | 0 <= i < |rows| :: c < |rows[i]|
    ensures r in KeepAbsent(rows, c, excluded) <==> r in rows && r[c] !in excluded
  {
    if rows != [] {
      var front := rows[..|rows| - 1];
      KeepAbsentMembership(front, c, excluded, r);
      assert rows == front + [rows[|rows| - 1]];
    }
  }

  /** A row is kept exactly when it is a CSV row whose path the Excel table
      does not hold. */
  lemma MergeMembership(csv: Table, excel: Table, row: seq<string>)
    requires WellShaped(csv) && WellShaped(excel)
    requires PathColumn in csv.columns && PathColumn in excel.columns
    ensures row in MergeDataframes(csv, excel).rows <==>
              row in csv.rows && PathCell(csv, row) !in PathsOf(excel)
  {
    var ci := ColumnIndex(csv.columns, PathColumn).value;
    KeepAbsentMembership(csv.rows, ci, PathsOf(excel), row);
  }

  /** The number of times `r` occurs in `rows`. */
  function Count(rows: seq<seq<string>>, r: seq<string>): nat
  {
    if rows == [] then 0 else Count(rows[..|rows| - 1], r) + (if rows[|rows| - 1] == r then 1 else 0)
  }

  /** Duplicates survive: a kept row occurs as often as in the CSV table. */
  lemma {:induction false} KeepAbsentCount(rows: seq<seq<string>>, c: nat, excluded: seq<string>, r: seq<string>)
    requires forall i | 0 <= i < |rows| :: c < |rows[i]|
    requires c < |r|
    ensures Count(KeepAbsent(rows, c, excluded), r) == if r[c] in excluded then 0 else Count(rows, r)
  {
    if rows != [] {
      var front := rows[..|rows| - 1];
      var kept := KeepAbsent(front, c, excluded);
      var last := rows[|rows| - 1];
      KeepAbsentCount(front, c, excluded, r);
      CountAppend(kept, if last[c] !in excluded then [last] else [], r);
    }
  }

  lemma {:induction false} CountAppend(a: seq<seq<string>>, b: seq<seq<string>>, r: seq<string>)
    ensures Count(a + b, r) == Count(a, r) + Count(b, r)
    decreases |b|
  {
    if b == [] {
      assert a + b == a;
    } else {
      assert (a + b)[..|a + b| - 1] == a + b[..|b| - 1];
      CountAppend(a, b[..|b| - 1], r);
      assert [b[|b| - 1]][..0] == [];
    }
  }

  /** `a` is `b` with some rows left out, the rest in their order. */
  predicate IsSubsequence(a: seq<seq<string>>, b: seq<seq<string>>)
    decreases |b|
  {
    if a == [] then true
    else if b == [] then false
    else if a[|a| - 1] == b[|b| - 1] && IsSubsequence(a[..|a| - 1], b[..|b| - 1]) then true
    else IsSubsequence(a, b[..|b| - 1])
  }

  lemma {:induction false} KeepAbsentSubsequence(rows: seq<seq<string>>, c: nat, excluded: seq<string>)
    requires forall i | 0 <= i < |rows| :: c < |rows[i]|
    ensures IsSubsequence(KeepAbsent(rows, c, excluded), rows)
  {
    if rows != [] {
      var front := rows[..|rows| - 1];
      var last := rows[|rows| - 1];
      KeepAbsentSubsequence(front, c, excluded);
      var kept := KeepAbsent(front, c, excluded);
      if last[c] !in excluded {
        assert (kept + [last])[..|kept + [last]| - 1] == kept;
      } else {
        assert KeepAbsent(rows, c, excluded) == kept;
        SubsequenceOfLonger(kept, front, last);
        assert rows == front + [last];
      }
    }
  }

  lemma {:induction false} SubsequenceOfLonger(a: seq<seq<string>>, b: seq<seq<string>>, x: seq<string>)
    requires IsSubsequence(a, b)
    ensures IsSubsequence(a, b + [x])
  {
    if a != [] {
      assert (b + [x])[..|b + [x]| - 1] == b;
    }
  }

  /** The result is the CSV rows in their order, with rows left out only. */
  lemma MergeKeepsOrder(csv: Table, excel: Table)
    requires WellShaped(csv) && WellShaped(excel)
    requires PathColumn in csv.columns && PathColumn in excel.columns
    ensures IsSubsequence(MergeDataframes(csv, excel).rows, csv.rows)
  {
    KeepAbsentSubsequence(csv.rows, ColumnIndex(csv.columns, PathColumn).value, PathsOf(excel));
  }

  /** Each kept row occurs as many times as in the CSV table. */
  lemma MergeKeepsDuplicates(csv: Table, excel: Table, row: seq<string>)
    requires WellShaped(csv) && WellShaped(excel)
    requires PathColumn in csv.columns && PathColumn in excel.columns && |row| == |csv.columns|
    ensures Count(MergeDataframes(csv, excel).rows, row) ==
              if PathCell(csv, row) in PathsOf(excel) then 0 else Count(csv.rows, row)
  {
    KeepAbsentCount(csv.rows, ColumnIndex(csv.columns, PathColumn).value, PathsOf(excel), row);
  }

  lemma {:induction false} KeepAbsentIdempotent(rows: seq<seq<string>>, c: nat, excluded: seq<string>)
    requires forall i | 0 <= i < |rows| :: c < |rows[i]|
    ensures forall i | 0 <= i < |KeepAbsent(rows, c, excluded)| :: c < |KeepAbsent(rows, c, excluded)[i]|
    ensures KeepAbsent(KeepAbsent(rows, c, excluded), c, excluded) == KeepAbsent(rows, c, excluded)
  {
    KeepAbsentShape(rows, c, excluded);
    if rows != [] {
      var front := rows[..|rows| - 1];
      var last := rows[|rows| - 1];
      var kept := KeepAbsent(front, c, excluded);
      KeepAbsentIdempotent(front, c, excluded);
      if last[c] !in excluded {
        assert KeepAbsent(rows, c, excluded) == kept + [last];
        assert (kept + [last])[..|kept + [last]| - 1] == kept;
        assert KeepAbsent(kept + [last], c, excluded) == KeepAbsent(kept, c, excluded) + [last];
      } else {
        assert KeepAbsent(rows, c, excluded) == kept;
      }
    }
  }

  /** Merging the result with the same QA sheet again changes nothing. */
  lemma MergeIdempotent(csv: Table, excel: Table)
    requires WellShaped(csv) && WellShaped(excel)
    ensures WellShaped(MergeDataframes(csv, excel))
    ensures MergeDataframes(MergeDataframes(csv, excel), excel) == MergeDataframes(csv, excel)
  {
    if PathColumn in csv.columns && PathColumn in excel.columns {
      var ci := ColumnIndex(csv.columns, PathColumn).value;
      var kept := KeepAbsent(csv.rows, ci, PathsOf(excel));
      KeepAbsentShape(csv.rows, ci, PathsOf(excel));
      forall i | 0 <= i < |kept| ensures |kept[i]| == |csv.columns| {
        assert kept[i] in csv.rows;
      }
      KeepAbsentIdempotent(csv.rows, ci, PathsOf(excel));
    }
  }

  lemma {:induction false} KeepAbsentNothing(rows: seq<seq<string>>, c: nat)
    requires forall i | 0 <= i < |rows| :: c < |rows[i]|
    ensures KeepAbsent(rows, c, []) == rows
  {
    if rows != [] {
      KeepAbsentNothing(rows[..|rows| - 1], c);
    }
  }

  /** A QA sheet with a "Path" column but no rows leaves the report as it is. */
  lemma MergeWithEmptySheet(csv: Table, excel: Table)
    requires WellShaped(csv) && WellShaped(excel)
    requires PathColumn in csv.columns && PathColumn in excel.columns && excel.rows == []
    ensures MergeDataframes(csv, excel) == csv
  {
    KeepAbsentNothing(csv.rows, ColumnIndex(csv.columns, PathColumn).value);
  }

  /** A failed read on either side gives the empty table. */
  lemma FailedReadGivesEmpty(csv: Option<Table>, excel: Option<Table>)
    requires csv.None? || excel.None?
    requires csv.Some? ==> WellShaped(csv.value)
    requires excel.Some? ==> WellShaped(excel.value)
    ensures WellShaped(ReadOrEmpty(csv)) && WellShaped(ReadOrEmpty(excel))
    ensures MergeDataframes(ReadOrEmpty(csv), ReadOrEmpty(excel)) == EmptyTable
  {
  }
}
