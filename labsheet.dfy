/**
 * Reading a job's lab sheet (`ExcelToJSON`): the header fields, the sample
 * rows with their test markers, and the pass that gives every continuation
 * row the boring number of the nearest explicit one above it.
 */
module LabSheet {
  import opened Wrappers
  import opened GoStrings
  import opened Workbook

  /** One sample: its boring, its depth and the tests marked for it. */
  datatype SampleData = SampleData(boringNumber: string, depth: string, tests: seq<string>)

  datatype JobData = JobData(
    jobNumber: string,
    projectName: string,
    engineer: string,
    date: string,
    dueDate: string,
    pageInfo: string,
    totalSamples: nat,
    samples: seq<SampleData>)

  const EmptyJob := JobData("", "", "", "", "", "", 0, [])

  /** The tests a sample row can mark, and the column each is marked in. */
  const TestNames: seq<string> := [
    "Atterberg Limit",
    "Atterberg Limit (w/ lime)",
    "Moisture Content",
    "Absorption Pressure Swell",
    "QU",
    "Gradation",
    "Soil Suction"]
  const TestCols: seq<nat> := [2, 3, 4, 5, 6, 7, 9]

  /** A test is marked when its column holds "x" (surrounding blanks ignored). */
  predicate Marked(row: Row, col: nat) {
    col < |row| && TrimSpace(row[col]) == "x"
  }

  /** The positions `i < k` in `TestNames` whose column is marked, in increasing order. */
  function TestIndices(row: Row, k: nat): (ix: seq<nat>)
    requires k <= |TestCols|
    ensures forall j | 0 <= j < |ix| :: ix[j] < k
    ensures forall a, b | 0 <= a < b < |ix| :: ix[a] < ix[b]
  {
    MarkedAmong(row, TestCols[..k])
  }

  function MarkedAmong(row: Row, cols: seq<nat>): (ix: seq<nat>)
    ensures forall j | 0 <= j < |ix| :: ix[j] < |cols|
    ensures forall a, b | 0 <= a < b < |ix| :: ix[a] < ix[b]
    decreases |cols|
  {
    if |cols| == 0 then []
    else MarkedAmong(row, cols[..|cols| - 1]) + (if Marked(row, cols[|cols| - 1]) then [|cols| - 1] else [])
  }

  /** A position is among those `MarkedAmong` picks exactly when its column is marked. */
  lemma {:induction false} MarkedAmongSpec(row: Row, cols: seq<nat>)
    ensures forall i | 0 <= i < |cols| :: i in MarkedAmong(row, cols) <==> Marked(row, cols[i])
    decreases |cols|
  {
    if |cols| > 0 {
      MarkedAmongSpec(row, cols[..|cols| - 1]);
    }
  }

  function Names(ix: seq<nat>): (names: seq<string>)
    requires forall j | 0 <= j < |ix| :: ix[j] < |TestNames|
    ensures |names| == |ix|
  {
    seq(|ix|, j requires 0 <= j < |ix| => TestNames[ix[j]])
  }

  /** The tests of a sample row, in the column order 2, 3, 4, 5, 6, 7, 9. */
  function Tests(row: Row): seq<string> {
    Names(TestIndices(row, |TestCols|))
  }

  lemma TestNamesDistinct()
    ensures forall a, b | 0 <= a < b < |TestNames| :: TestNames[a] != TestNames[b]
  {
    assert TestNames[0][..15] == "Atterberg Limit";
    assert TestNames[1][15] == ' ';
    assert |TestNames[0]| != |TestNames[1]|;
  }

  /** A test is listed exactly when its column is marked. */
  lemma TestsMarked(row: Row, k: nat)
    requires k < |TestNames|
    ensures TestNames[k] in Tests(row) <==> Marked(row, TestCols[k])
  {
    var ix := TestIndices(row, |TestCols|);
    var tests := Tests(row);
    MarkedAmongSpec(row, TestCols);
    assert TestCols[..|TestCols|] == TestCols;
    if TestNames[k] in tests {
      var j :| 0 <= j < |tests| && tests[j] == TestNames[k];
      assert tests[j] == TestNames[ix[j]];
      TestNamesDistinct();
      assert ix[j] == k;
    }
    if Marked(row, TestCols[k]) {
      assert k in ix;
      var j :| 0 <= j < |ix| && ix[j] == k;
      assert tests[j] == TestNames[k];
    }
  }

  /** The tests are listed at most once each, in the order of their columns. */
  lemma TestsOrdered(row: Row)
    ensures |Tests(row)| <= |TestNames|
    ensures exists ix: seq<nat> ::
              |ix| == |Tests(row)| &&
              (forall j | 0 <= j < |ix| :: ix[j] < |TestNames| && Tests(row)[j] == TestNames[ix[j]]) &&
              (forall a, b | 0 <= a < b < |ix| :: ix[a] < ix[b])
  {
    var ix := TestIndices(row, |TestCols|);
    IndicesBounded(ix, |TestNames|);
    assert forall j | 0 <= j < |ix| :: ix[j] < |TestNames| && Tests(row)[j] == TestNames[ix[j]];
  }

  /** A strictly increasing sequence of positions below `n` has at most `n` entries. */
  lemma {:induction false} IndicesBounded(ix: seq<nat>, n: nat)
    requires forall j | 0 <= j < |ix| :: ix[j] < n
    requires forall a, b | 0 <= a < b < |ix| :: ix[a] < ix[b]
    ensures |ix| <= n
    decreases n
  {
    if |ix| > 0 {
      var last := ix[|ix| - 1];
      var init := ix[..|ix| - 1];
      assert forall j | 0 <= j < |init| :: init[j] < last;
      IndicesBounded(init, last);
    }
  }

  lemma TestIndicesSnoc(row: Row, i: nat)
    requires i < |TestCols|
    ensures TestIndices(row, i + 1) == TestIndices(row, i) + (if Marked(row, TestCols[i]) then [i] else [])
  {
    assert TestCols[..i + 1][..i] == TestCols[..i];
  }

  lemma NamesSnoc(ix: seq<nat>, i: nat)
    requires i < |TestNames| && forall j | 0 <= j < |ix| :: ix[j] < |TestNames|
    ensures Names(ix + [i]) == Names(ix) + [TestNames[i]]
  {
  }

  /** The body of the loop below for column `i`: the test name it appends, if any. */
  method TestAt(row: Row, i: nat) returns (name: Option<string>)
    requires i < |TestCols|
    ensures name == if Marked(row, TestCols[i]) then Some(TestNames[i]) else None
  {
    var col := TestCols[i];
    name := None;
    if col < |row| && TrimSpace(row[col]) == "x" {
      if i < |TestNames| {
        name := Some(TestNames[i]);
      }
    }
  }

  /** The loop over `testCols` collecting the names of the marked tests. */
  method CollectTests(row: Row) returns (tests: seq<string>)
    ensures tests == Tests(row)
  {
    tests := [];
    var i := 0;
    while i < |TestCols|
      invariant i <= |TestCols|
      invariant tests == Names(TestIndices(row, i))
    {
      TestIndicesSnoc(row, i);
      var name := TestAt(row, i);
      if name.Some? {
        NamesSnoc(TestIndices(row, i), i);
        tests := tests + [name.value];
      }
      i := i + 1;
    }
  }

  /** Whether a row is taken as a sample row rather than as one of the header rows. */
  predicate IsSampleRow(row: Row, rowIdx: nat)
    requires |row| > 0
  {
    var first := TrimSpace(row[0]);
    !(first == "Job No." && |row| > 2) &&
    !(first == "Project Name." && |row| > 2) &&
    !(Contains(first, "Due Date") && |row| > 9) &&
    (HasPrefix(first, "B-") || (rowIdx > 6 && first == ""))
  }

  /** The sample a sample row describes; its boring is blank on a continuation row. */
  function SampleOf(row: Row): SampleData
    requires |row| > 1
  {
    var first := TrimSpace(row[0]);
    SampleData(if HasPrefix(first, "B-") then first else "", TrimSpace(row[1]), Tests(row))
  }

  /** A sample row with a depth: the rows that become samples. */
  predicate Kept(row: Row, rowIdx: nat) {
    |row| > 1 && IsSampleRow(row, rowIdx) && TrimSpace(row[1]) != ""
  }

  /** What one row adds to the job read so far: a header field, a sample or nothing. */
  function Step(job: JobData, row: Row, rowIdx: nat): (next: JobData)
    ensures next.samples == job.samples + (if Kept(row, rowIdx) then [SampleOf(row)] else [])
    ensures next.totalSamples == job.totalSamples + (if Kept(row, rowIdx) then 1 else 0)
  {
    if |row| == 0 then job
    else
      var first := TrimSpace(row[0]);
      if first == "Job No." && |row| > 2 then job.(jobNumber := TrimSpace(row[2]))
      else if first == "Project Name." && |row| > 2 then
        job.(projectName := TrimSpace(row[2]),
             engineer := if |row| > 5 then TrimSpace(row[5]) else job.engineer,
             date := if |row| > 9 then TrimSpace(row[9]) else job.date)
      else if Contains(first, "Due Date") && |row| > 9 then job.(dueDate := TrimSpace(row[9]))
      else if Kept(row, rowIdx) then
        job.(samples := job.samples + [SampleOf(row)], totalSamples := job.totalSamples + 1)
      else job
  }

  /** The header fields and samples read from the rows, before boring numbers are filled. */
  function Scan(rows: Grid): (job: JobData)
    ensures job.totalSamples == |job.samples| <= |rows|
    ensures forall k | 0 <= k < |job.samples| :: job.samples[k].depth != ""
    ensures forall k | 0 <= k < |job.samples| ::
              job.samples[k].boringNumber == "" || HasPrefix(job.samples[k].boringNumber, "B-")
    decreases |rows|
  {
    if |rows| == 0 then EmptyJob
    else Step(Scan(rows[..|rows| - 1]), rows[|rows| - 1], |rows| - 1)
  }

  /** The rows that become samples, in sheet order. */
  function SampleRows(rows: Grid): (kept: seq<Row>)
    ensures |kept| <= |rows|
    decreases |rows|
  {
    if |rows| == 0 then []
    else
      var rest := SampleRows(rows[..|rows| - 1]);
      if Kept(rows[|rows| - 1], |rows| - 1) then rest + [rows[|rows| - 1]] else rest
  }

  /** The samples are exactly the kept rows, in order, each read by `SampleOf`. */
  lemma {:induction false} ScanSamples(rows: Grid)
    ensures |Scan(rows).samples| == |SampleRows(rows)|
    ensures forall k | 0 <= k < |SampleRows(rows)| ::
              |SampleRows(rows)[k]| > 1 && Scan(rows).samples[k] == SampleOf(SampleRows(rows)[k])
    decreases |rows|
  {
    if |rows| > 0 {
      ScanSamples(rows[..|rows| - 1]);
    }
  }

  /** The boring of the nearest sample before `i` that names one, or "" when none does. */
  function NearestBoring(s: seq<SampleData>, i: nat): (b: string)
    requires i <= |s|
    ensures b == "" <==> forall j | 0 <= j < i :: s[j].boringNumber == ""
    ensures b != "" ==> exists j | 0 <= j < i ::
              s[j].boringNumber == b && forall k | j < k < i :: s[k].boringNumber == ""
    decreases i
  {
    if i == 0 then ""
    else if s[i - 1].boringNumber != "" then s[i - 1].boringNumber
    else NearestBoring(s, i - 1)
  }

  /** Give a continuation sample the nearest explicit boring number above it. */
  function FillOne(s: seq<SampleData>, i: nat): SampleData
    requires i < |s|
  {
    if s[i].boringNumber != "" then s[i] else s[i].(boringNumber := NearestBoring(s, i))
  }

  function Filled(s: seq<SampleData>): (f: seq<SampleData>)
    ensures |f| == |s|
  {
    seq(|s|, i requires 0 <= i < |s| => FillOne(s, i))
  }

  /**
   * Filling keeps every explicit boring, gives every other sample the nearest
   * explicit one before it (or "" when there is none) and changes nothing else.
   */
  lemma FilledSpec(s: seq<SampleData>, i: nat)
    requires i < |s|
    ensures s[i].boringNumber != "" ==> Filled(s)[i] == s[i]
    ensures Filled(s)[i].depth == s[i].depth && Filled(s)[i].tests == s[i].tests
    ensures s[i].boringNumber == "" ==>
              (Filled(s)[i].boringNumber == "" <==> forall j | 0 <= j < i :: s[j].boringNumber == "")
    ensures s[i].boringNumber == "" && Filled(s)[i].boringNumber != "" ==>
              exists j | 0 <= j < i :: s[j].boringNumber == Filled(s)[i].boringNumber &&
                forall k | j < k < i :: s[k].boringNumber == ""
  {
  }

  /** The nearest explicit boring is the same before and after filling. */
  lemma {:induction false} NearestBoringFilled(s: seq<SampleData>, i: nat)
    requires i <= |s|
    ensures NearestBoring(Filled(s), i) == NearestBoring(s, i)
    decreases i
  {
    if i > 0 {
      NearestBoringFilled(s, i - 1);
      var f := Filled(s);
      assert f[i - 1] == FillOne(s, i - 1);
      if s[i - 1].boringNumber == "" {
        assert f[i - 1].boringNumber == NearestBoring(s, i - 1);
      } else {
        assert f[i - 1].boringNumber == s[i - 1].boringNumber;
      }
    }
  }

  /** Filling twice is the same as filling once. */
  lemma FilledIdempotent(s: seq<SampleData>)
    ensures Filled(Filled(s)) == Filled(s)
  {
    forall i | 0 <= i < |s|
      ensures Filled(Filled(s))[i] == Filled(s)[i]
    {
      NearestBoringFilled(s, i);
    }
  }

  /** The fill pass over `jobData.Samples`, rewriting boring numbers in place. */
  method FillBorings(a: array<SampleData>)
    modifies a
    ensures a[..] == Filled(old(a[..]))
  {
    ghost var s := a[..];
    var currentBoring := "";
    var i := 0;
    while i < a.Length
      invariant i <= a.Length
      invariant a[..i] == Filled(s)[..i]
      invariant a[i..] == s[i..]
      invariant currentBoring == NearestBoring(s, i)
    {
      assert a[i] == s[i];
      if a[i].boringNumber != "" {
        currentBoring := a[i].boringNumber;
      } else {
        a[i] := a[i].(boringNumber := currentBoring);
      }
      assert a[..i + 1] == a[..i] + [a[i]];
      assert Filled(s)[..i + 1] == Filled(s)[..i] + [Filled(s)[i]];
      i := i + 1;
    }
    assert a[..] == a[..a.Length];
  }

  /** `ExcelToJSON`: the job read from the first sheet of the lab file. */
  function Parse(rows: Grid): JobData {
    var job := Scan(rows);
    job.(samples := Filled(job.samples))
  }

  /** The body of the loop of `ExcelToJSON`: what one row contributes. */
  method ReadRow(job: JobData, row: Row, rowIdx: nat) returns (next: JobData)
    ensures next == Step(job, row, rowIdx)
  {
    next := job;
    if |row| == 0 {
      return;
    }
    var firstCell := TrimSpace(row[0]);
    if firstCell == "Job No." && |row| > 2 {
      next := next.(jobNumber := TrimSpace(row[2]));
    } else if firstCell == "Project Name." && |row| > 2 {
      next := next.(projectName := TrimSpace(row[2]));
      if |row| > 5 {
        next := next.(engineer := TrimSpace(row[5]));
      }
      if |row| > 9 {
        next := next.(date := TrimSpace(row[9]));
      }
    } else if Contains(firstCell, "Due Date") && |row| > 9 {
      next := next.(dueDate := TrimSpace(row[9]));
    } else if HasPrefix(firstCell, "B-") || (rowIdx > 6 && firstCell == "") {
      if |row| > 1 {
        var boring := if HasPrefix(firstCell, "B-") then firstCell else "";
        var depth := "";
        if |row| > 1 && TrimSpace(row[1]) != "" {
          depth := TrimSpace(row[1]);
        }
        var tests := CollectTests(row);
        assert IsSampleRow(row, rowIdx);
        assert SampleOf(row) == SampleData(boring, depth, tests);
        if depth != "" {
          next := next.(samples := next.samples + [SampleData(boring, depth, tests)],
                        totalSamples := next.totalSamples + 1);
        }
      }
    }
  }

  lemma ScanSnoc(rows: Grid, i: nat)
    requires i < |rows|
    ensures Scan(rows[..i + 1]) == Step(Scan(rows[..i]), rows[i], i)
  {
    assert rows[..i + 1][..i] == rows[..i];
  }

  /** The loop of `ExcelToJSON` over the rows of the first sheet. */
  method ReadRows(rows: Grid) returns (job: JobData)
    ensures job == Scan(rows)
  {
    job := EmptyJob;
    var rowIdx := 0;
    while rowIdx < |rows|
      invariant rowIdx <= |rows|
      invariant job == Scan(rows[..rowIdx])
    {
      ScanSnoc(rows, rowIdx);
      job := ReadRow(job, rows[rowIdx], rowIdx);
      rowIdx := rowIdx + 1;
    }
    assert rows[..rowIdx] == rows;
  }

  /**
   * `ExcelToJSON`: a lab file that cannot be opened, or whose first sheet
   * cannot be read, is an error; otherwise the rows are scanned and the
   * boring numbers filled.
   */
  method ExcelToJSON(file: FileState<Book>) returns (r: Result<JobData>)
    ensures file.Present? && |file.value.sheets| > 0 && file.value.sheets[0].readable
            ==> r == Ok(Parse(file.value.sheets[0].rows))
    ensures !(file.Present? && |file.value.sheets| > 0 && file.value.sheets[0].readable)
            ==> r == Err(IOFailure)
  {
    if !file.Present? {
      return Err(IOFailure);
    }
    var book := file.value;
    var sheetName := if |book.sheets| > 0 then book.sheets[0].name else "";
    var got := GetRows(book, sheetName);
    if got.None? {
      assert !(|book.sheets| > 0 && book.sheets[0].readable);
      return Err(IOFailure);
    }
    assert |book.sheets| > 0 && FindSheet(book.sheets, sheetName) == Some(0);
    var job := ReadRows(got.value);
    var samples := job.samples;
    var a := new SampleData[|samples|](i requires 0 <= i < |samples| => samples[i]);
    assert a[..] == samples;
    FillBorings(a);
    r := Ok(job.(samples := a[..]));
  }
}
