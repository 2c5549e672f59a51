/**
 * The job detail screen's helpers: which columns of a sheet hold anything,
 * which rows hold anything, and how a sample's list of tests is shown.
 */
module JobDetail {
  import opened GoStrings
  import opened Workbook

  /** Some cell of the row is not blank. */
  predicate RowHasContent(row: Row) {
    exists i | 0 <= i < |row| :: !IsBlank(row[i])
  }

  /** Some row has a cell in column `col` that is not blank. */
  predicate ColumnHasContent(rows: Grid, col: nat) {
    exists r | 0 <= r < |rows| :: col < |rows[r]| && !IsBlank(rows[r][col])
  }

  /** The length of the longest row (0 for no rows). */
  function MaxCols(rows: Grid): (m: nat)
    ensures forall r | 0 <= r < |rows| :: |rows[r]| <= m
    ensures m == 0 || exists r | 0 <= r < |rows| :: |rows[r]| == m
    decreases |rows|
  {
    if |rows| == 0 then 0
    else
      var m := MaxCols(rows[..|rows| - 1]);
      var last := |rows[|rows| - 1]|;
      assert forall r | 0 <= r < |rows| - 1 :: rows[r] == rows[..|rows| - 1][r];
      if last > m then last else m
  }

  /** The indices below `n` at which `keep` holds, in increasing order. */
  function Indices(n: nat, keep: nat -> bool): seq<nat>
    decreases n
  {
    if n == 0 then []
    else Indices(n - 1, keep) + (if keep(n - 1) then [n - 1] else [])
  }

  lemma {:induction false} IndicesSorted(n: nat, keep: nat -> bool)
    ensures forall i | 0 <= i < |Indices(n, keep)| :: Indices(n, keep)[i] < n
    ensures forall i, j | 0 <= i < j < |Indices(n, keep)| :: Indices(n, keep)[i] < Indices(n, keep)[j]
    decreases n
  {
    if n > 0 {
      IndicesSorted(n - 1, keep);
      var prev := Indices(n - 1, keep);
      assert Indices(n, keep) == prev + (if keep(n - 1) then [n - 1] else []);
    }
  }

  lemma {:induction false} IndicesMember(n: nat, keep: nat -> bool, c: nat)
    ensures c in Indices(n, keep) <==> c < n && keep(c)
    decreases n
  {
    if n > 0 {
      IndicesMember(n - 1, keep, c);
      var prev := Indices(n - 1, keep);
      var tail: seq<nat> := if keep(n - 1) then [n - 1] else [];
      assert Indices(n, keep) == prev + tail;
      assert c in tail <==> c == n - 1 && keep(n - 1);
    }
  }

  /** The columns below `n` that hold anything, in increasing order. */
  function ContentColumns(rows: Grid, n: nat): seq<nat> {
    Indices(n, (col: nat) => ColumnHasContent(rows, col))
  }

  /** One more column adds itself exactly when it holds anything. */
  lemma ContentColumnsStep(rows: Grid, col: nat, has: bool)
    requires has == ColumnHasContent(rows, col)
    ensures ContentColumns(rows, col + 1) == ContentColumns(rows, col) + (if has then [col] else [])
  {
  }

  /**
   * What `findNonEmptyColumns` promises: strictly increasing column indices
   * below the longest row's length, a column being listed exactly when some
   * row has a non-blank cell in it.
   */
  lemma NonEmptyColumnsSpec(rows: Grid)
    ensures var cols := ContentColumns(rows, MaxCols(rows));
            (forall i | 0 <= i < |cols| :: cols[i] < MaxCols(rows)) &&
            (forall i, j | 0 <= i < j < |cols| :: cols[i] < cols[j]) &&
            (forall c: nat :: c in cols <==> ColumnHasContent(rows, c))
  {
    var keep := (col: nat) => ColumnHasContent(rows, col);
    IndicesSorted(MaxCols(rows), keep);
    forall c: nat
      ensures c in ContentColumns(rows, MaxCols(rows)) <==> ColumnHasContent(rows, c)
    {
      IndicesMember(MaxCols(rows), keep, c);
    }
  }

  /** No rows, no columns. */
  lemma NoRowsNoColumns()
    ensures ContentColumns([], MaxCols([])) == []
  {
  }

  /** The inner loop of `findNonEmptyColumns`: stop at the first non-blank cell of the column. */
  method ColumnScan(rows: Grid, col: nat) returns (hasContent: bool)
    ensures hasContent <==> ColumnHasContent(rows, col)
  {
    hasContent := false;
    var r := 0;
    while r < |rows|
      invariant r <= |rows|
      invariant forall k | 0 <= k < r :: !(col < |rows[k]| && !IsBlank(rows[k][col]))
    {
      if col < |rows[r]| && TrimSpace(rows[r][col]) != "" {
        hasContent := true;
        break;
      }
      r := r + 1;
    }
  }

  /** The inner loop of `filterEmptyRows`: stop at the first non-blank cell of the row. */
  method RowScan(row: Row) returns (hasContent: bool)
    ensures hasContent <==> RowHasContent(row)
  {
    hasContent := false;
    var j := 0;
    while j < |row|
      invariant j <= |row|
      invariant forall k | 0 <= k < j :: IsBlank(row[k])
    {
      if TrimSpace(row[j]) != "" {
        hasContent := true;
        break;
      }
      j := j + 1;
    }
  }

  /** The first loop of `findNonEmptyColumns`: the length of the longest row. */
  method LongestRow(rows: Grid) returns (maxCols: nat)
    ensures maxCols == MaxCols(rows)
  {
    maxCols := 0;
    var i := 0;
    while i < |rows|
      invariant i <= |rows|
      invariant maxCols == MaxCols(rows[..i])
    {
      assert rows[..i + 1][..i] == rows[..i];
      if |rows[i]| > maxCols {
        maxCols := |rows[i]|;
      }
      i := i + 1;
    }
    assert rows[..i] == rows;
  }

  /** `findNonEmptyColumns`. */
  method FindNonEmptyColumns(rows: Grid) returns (nonEmptyCols: seq<nat>)
    ensures nonEmptyCols == ContentColumns(rows, MaxCols(rows))
  {
    if |rows| == 0 {
      return [];
    }
    var maxCols := LongestRow(rows);
    nonEmptyCols := [];
    var col := 0;
    while col < maxCols
      invariant col <= maxCols
      invariant nonEmptyCols == ContentColumns(rows, col)
    {
      var hasContent := ColumnScan(rows, col);
      ContentColumnsStep(rows, col, hasContent);
      if hasContent {
        nonEmptyCols := nonEmptyCols + [col];
      }
      col := col + 1;
    }
  }

  /** The rows that hold anything, in their original order. */
  function ContentRows(rows: Grid): Grid
    decreases |rows|
  {
    if |rows| == 0 then []
    else ContentRows(rows[..|rows| - 1]) + (if RowHasContent(rows[|rows| - 1]) then [rows[|rows| - 1]] else [])
  }

  /** Filtering works row by row, so the kept rows stay in their order. */
  lemma {:induction false} ContentRowsAppend(a: Grid, b: Grid)
    ensures ContentRows(a + b) == ContentRows(a) + ContentRows(b)
    decreases |b|
  {
    if |b| == 0 {
      assert a + b == a;
    } else {
      assert (a + b)[..|a + b| - 1] == a + b[..|b| - 1];
      ContentRowsAppend(a, b[..|b| - 1]);
    }
  }

  /**
   * What `filterEmptyRows` promises: a row is kept exactly when it has a
   * non-blank cell, and the result is no longer than the input.
   */
  lemma {:induction false} ContentRowsSpec(rows: Grid)
    ensures |ContentRows(rows)| <= |rows|
    ensures forall k | 0 <= k < |ContentRows(rows)| :: RowHasContent(ContentRows(rows)[k])
    ensures forall row :: row in ContentRows(rows) <==> row in rows && RowHasContent(row)
    decreases |rows|
  {
    if |rows| > 0 {
      ContentRowsSpec(rows[..|rows| - 1]);
      assert rows == rows[..|rows| - 1] + [rows[|rows| - 1]];
    }
  }

  /** Filtering a filtered grid changes nothing. */
  lemma {:induction false} ContentRowsIdempotent(rows: Grid)
    ensures ContentRows(ContentRows(rows)) == ContentRows(rows)
    decreases |rows|
  {
    if |rows| > 0 {
      var init := rows[..|rows| - 1];
      var last := rows[|rows| - 1];
      ContentRowsIdempotent(init);
      var tail := if RowHasContent(last) then [last] else [];
      ContentRowsAppend(ContentRows(init), tail);
      if RowHasContent(last) {
        assert ContentRows([last]) == ContentRows([]) + [last] by {
          assert [last][..0] == [];
        }
      }
    }
  }

  /** `filterEmptyRows`. */
  method FilterEmptyRows(rows: Grid) returns (filtered: Grid)
    ensures filtered == ContentRows(rows)
  {
    filtered := [];
    var i := 0;
    while i < |rows|
      invariant i <= |rows|
      invariant filtered == ContentRows(rows[..i])
    {
      var row := rows[i];
      var hasContent := RowScan(row);
      assert rows[..i + 1][..i] == rows[..i];
      if hasContent {
        filtered := filtered + [row];
      }
      i := i + 1;
    }
    assert rows[..i] == rows;
  }

  /** The "Tests Required" cell: the tests joined by ", ", or "-" when that is empty. */
  function TestsDisplay(tests: seq<string>): string {
    var joined := Join(tests, ", ");
    if joined == "" then "-" else joined
  }

  lemma {:induction false} JoinLength(parts: seq<string>, sep: string)
    requires |parts| > 0
    ensures |Join(parts, sep)| >= |parts[0]|
  {
  }

  /**
   * A sample without tests shows "-"; one whose test names are non-empty
   * shows them joined.
   */
  lemma TestsDisplayDash(tests: seq<string>)
    requires forall i | 0 <= i < |tests| :: tests[i] != ""
    ensures |tests| == 0 ==> TestsDisplay(tests) == "-"
    ensures |tests| > 0 ==> TestsDisplay(tests) == Join(tests, ", ")
  {
    if |tests| > 0 {
      JoinLength(tests, ", ");
    }
  }
}
