/**
 * The soil suction writer: the index from "boring|depth" to "sheet|row" built
 * from the Soil Suction sheets of the lab file, the write of a sample's
 * suction can number into column D of its row, and the separate export
 * workbook whose pages ("Soil Suction", "Soil Suction 2", ...) each hold a
 * header row and 37 sample rows.
 */
module Suction {
  import opened Wrappers
  import opened GoStrings
  import opened Columns
  import opened Workbook
  import opened SheetIndex

  // ---------------------------------------------------------------------
  // The row index of the lab file
  // ---------------------------------------------------------------------

  /** "Soil Suction", or any name that starts with it. */
  predicate IsSuctionSheet(name: string) {
    name == "Soil Suction" || HasPrefix(name, "Soil Suction")
  }

  /** The "boring|depth" key a row carries in columns B and C, when both are non-blank. */
  function RowKey(row: Row): Option<string> {
    if |row| >= 3 then
      var boring := TrimSpace(row[1]);
      var depth := TrimSpace(row[2]);
      if boring != "" && depth != "" then Some(Pair(boring, depth)) else None
    else None
  }

  function RowKeys(rows: Grid): (keys: seq<Option<string>>)
    ensures |keys| == |rows|
  {
    seq(|rows|, r requires 0 <= r < |rows| => RowKey(rows[r]))
  }

  /** The entries rows 10 .. n contribute (0-based 9 .. n-1), each mapping to its row number; a later row wins. */
  function RowEntries(sheet: string, keys: seq<Option<string>>, n: nat): map<string, string>
    requires n <= |keys|
    decreases n
  {
    if n <= 9 then map[]
    else
      var m := RowEntries(sheet, keys, n - 1);
      match keys[n - 1]
      case None => m
      case Some(key) => m[key := Pair(sheet, NatToString(n))]
  }

  /** What one sheet of the list contributes to the index. */
  function SheetEntries(book: Book, name: string): map<string, string> {
    if !IsSuctionSheet(name) then map[]
    else match GetRows(book, name)
      case None => map[]
      case Some(rows) => RowEntries(name, RowKeys(rows), |rows|)
  }

  function AllSheetEntries(book: Book): (ms: seq<map<string, string>>)
    ensures |ms| == |book.sheets|
  {
    seq(|book.sheets|, i requires 0 <= i < |book.sheets| => SheetEntries(book, book.sheets[i].name))
  }

  /** The index `InitSoilSuctionFile` builds. */
  function SuctionIndex(book: Book): map<string, string> {
    Merge(AllSheetEntries(book))
  }

  /** A key is in a sheet's entries exactly when some row from row 10 on carries it. */
  lemma {:induction false} RowEntriesDomain(sheet: string, keys: seq<Option<string>>, n: nat, key: string)
    requires n <= |keys|
    ensures key in RowEntries(sheet, keys, n) <==> exists r | 9 <= r < n :: keys[r] == Some(key)
    decreases n
  {
    if n > 9 {
      RowEntriesDomain(sheet, keys, n - 1, key);
      if keys[n - 1] != Some(key) {
        if exists r | 9 <= r < n :: keys[r] == Some(key) {
          var r :| 9 <= r < n && keys[r] == Some(key);
          assert r < n - 1;
        }
      }
    }
  }

  /** A key of a sheet's entries maps to the 1-based number of the last row carrying it. */
  lemma {:induction false} RowEntriesLastWins(sheet: string, keys: seq<Option<string>>, n: nat, key: string)
    requires n <= |keys| && key in RowEntries(sheet, keys, n)
    ensures exists r | 9 <= r < n ::
              keys[r] == Some(key) && RowEntries(sheet, keys, n)[key] == Pair(sheet, NatToString(r + 1)) &&
              forall r' | r < r' < n :: keys[r'] != Some(key)
    decreases n
  {
    if keys[n - 1] == Some(key) {
      assert RowEntries(sheet, keys, n)[key] == Pair(sheet, NatToString(n - 1 + 1));
    } else {
      RowEntriesLastWins(sheet, keys, n - 1, key);
    }
  }

  /**
   * A key is in the index exactly when some sheet of the list contributes it,
   * and it maps to what the LAST sheet contributing it says.
   */
  lemma SuctionIndexLastWins(book: Book, key: string)
    ensures key in SuctionIndex(book) <==>
            exists i | 0 <= i < |book.sheets| :: key in SheetEntries(book, book.sheets[i].name)
    ensures key in SuctionIndex(book) ==>
            exists i | 0 <= i < |book.sheets| ::
              key in SheetEntries(book, book.sheets[i].name) &&
              SuctionIndex(book)[key] == SheetEntries(book, book.sheets[i].name)[key] &&
              forall j | i < j < |book.sheets| :: key !in SheetEntries(book, book.sheets[j].name)
  {
    SuctionIndexDomain(book, key);
    if key in SuctionIndex(book) {
      SuctionIndexLast(book, key);
    }
  }

  lemma SuctionIndexDomain(book: Book, key: string)
    ensures key in SuctionIndex(book) <==>
            exists i | 0 <= i < |book.sheets| :: key in SheetEntries(book, book.sheets[i].name)
  {
    var ms := AllSheetEntries(book);
    assert forall i | 0 <= i < |ms| :: ms[i] == SheetEntries(book, book.sheets[i].name);
    MergeDomain(ms, key);
  }

  lemma SuctionIndexLast(book: Book, key: string)
    requires key in SuctionIndex(book)
    ensures exists i | 0 <= i < |book.sheets| ::
              key in SheetEntries(book, book.sheets[i].name) &&
              SuctionIndex(book)[key] == SheetEntries(book, book.sheets[i].name)[key] &&
              forall j | i < j < |book.sheets| :: key !in SheetEntries(book, book.sheets[j].name)
  {
    var ms := AllSheetEntries(book);
    assert forall i | 0 <= i < |ms| :: ms[i] == SheetEntries(book, book.sheets[i].name);
    MergeLastWins(ms, key);
  }

  /** Every entry names a Soil Suction sheet and a row from row 10 on. */
  lemma SuctionIndexValues(book: Book, key: string)
    requires key in SuctionIndex(book)
    ensures exists i, r | 0 <= i < |book.sheets| && 10 <= r ::
              IsSuctionSheet(book.sheets[i].name) &&
              SuctionIndex(book)[key] == Pair(book.sheets[i].name, NatToString(r))
  {
    SuctionIndexLastWins(book, key);
    var i :| 0 <= i < |book.sheets| &&
             key in SheetEntries(book, book.sheets[i].name) &&
             SuctionIndex(book)[key] == SheetEntries(book, book.sheets[i].name)[key];
    var name := book.sheets[i].name;
    var rows := GetRows(book, name).value;
    var keys := RowKeys(rows);
    RowEntriesLastWins(name, keys, |keys|, key);
    var r :| 9 <= r < |keys| && RowEntries(name, keys, |keys|)[key] == Pair(name, NatToString(r + 1));
    assert SuctionIndex(book)[key] == Pair(name, NatToString(r + 1));
  }

  lemma NoBarInDigits(s: string)
    requires AllDigits(s)
    ensures '|' !in s
  {
  }

  /**
   * An entry of a sheet whose name has no bar in it splits back into the
   * sheet and the row number, and column D of that row is the cell written.
   */
  lemma RowMappingRoundTrip(sheet: string, r: nat)
    requires '|' !in sheet && r >= 1
    ensures Split(Pair(sheet, NatToString(r)), '|') == [sheet, NatToString(r)]
    ensures Address("D", NatToString(r)) == Some((r - 1, 3))
  {
    NoBarInDigits(NatToString(r));
    SplitPair(sheet, NatToString(r));
    ParseNatToString(r);
    assert ColumnIndex("D") == 4 by {
      assert "D"[..0] == "";
    }
  }

  /** Taking one more row into the entries adds that row's key, if it has one. */
  lemma RowEntriesSnoc(index: map<string, string>, sheetName: string, rows: Grid, rowIdx: nat)
    requires 9 <= rowIdx < |rows|
    ensures var keys := RowKeys(rows);
            var key := RowKey(rows[rowIdx]);
            var m := index + RowEntries(sheetName, keys, rowIdx);
            index + RowEntries(sheetName, keys, rowIdx + 1) ==
            if key.Some? then m[key.value := Pair(sheetName, NatToString(rowIdx + 1))] else m
  {
    var keys := RowKeys(rows);
    assert keys[rowIdx] == RowKey(rows[rowIdx]);
    if keys[rowIdx].Some? {
      UnionUpdate(index, RowEntries(sheetName, keys, rowIdx), keys[rowIdx].value,
                  Pair(sheetName, NatToString(rowIdx + 1)));
    }
  }

  /** The inner loop of `InitSoilSuctionFile`: the rows of one Soil Suction sheet. */
  method AddRowEntries(index: map<string, string>, sheetName: string, rows: Grid)
    returns (index': map<string, string>)
    ensures index' == index + RowEntries(sheetName, RowKeys(rows), |rows|)
  {
    ghost var keys := RowKeys(rows);
    index' := index;
    var rowIdx := 9;
    while rowIdx < |rows|
      invariant 9 <= rowIdx && (rowIdx <= |rows| || |rows| < 9)
      invariant rowIdx <= |rows| ==> index' == index + RowEntries(sheetName, keys, rowIdx)
      invariant rowIdx > |rows| ==> index' == index
    {
      RowEntriesSnoc(index, sheetName, rows, rowIdx);
      var row := rows[rowIdx];
      if |row| >= 3 {
        var boring := TrimSpace(row[1]);
        var depth := TrimSpace(row[2]);
        if boring != "" && depth != "" {
          var actualRow := rowIdx + 1;
          index' := index'[Pair(boring, depth) := Pair(sheetName, NatToString(actualRow))];
        }
      }
      rowIdx := rowIdx + 1;
    }
    if |rows| < 9 {
      assert index + RowEntries(sheetName, keys, |rows|) == index;
    }
  }

  /** The outer loop: every Soil Suction sheet of the lab file's sheet list, in order. */
  method BuildSuctionIndex(book: Book) returns (index: map<string, string>)
    ensures index == SuctionIndex(book)
  {
    ghost var ms := AllSheetEntries(book);
    index := map[];
    var i := 0;
    while i < |book.sheets|
      invariant i <= |book.sheets|
      invariant index == Merge(ms[..i])
    {
      SuctionIndexSnoc(book, i);
      var sheetName := book.sheets[i].name;
      if sheetName == "Soil Suction" || HasPrefix(sheetName, "Soil Suction") {
        var got := GetRows(book, sheetName);
        if got.Some? {
          index := AddRowEntries(index, sheetName, got.value);
        }
      }
      i := i + 1;
    }
    assert ms[..i] == ms;
  }

  /** The outer loop's step: sheet `i` adds its entries over those of the sheets before it. */
  lemma SuctionIndexSnoc(book: Book, i: nat)
    requires i < |book.sheets|
    ensures var ms := AllSheetEntries(book);
            Merge(ms[..i + 1]) == Merge(ms[..i]) + SheetEntries(book, book.sheets[i].name)
  {
    var ms := AllSheetEntries(book);
    assert ms[..i + 1][..i] == ms[..i];
  }

  // ---------------------------------------------------------------------
  // The page cursor of the export workbook
  // ---------------------------------------------------------------------

  /** `separateSheetNum` and `separateNextRow`: the page written to and its next free row. */
  datatype Cursor = Cursor(sheetNum: nat, nextRow: nat)

  /** The last row a page holds: a header and 37 samples. */
  const LastRow: nat := 38

  /** A new writer starts after the header of page 1. */
  const Fresh := Cursor(1, 2)

  /** The name the rolling write gives a new page. */
  function NewPageName(n: nat): string {
    "Soil Suction " + NatToString(n)
  }

  /** The name of page `n`: "Soil Suction" for the first, "Soil Suction n" after it. */
  function PageName(n: nat): string {
    if n > 1 then NewPageName(n) else "Soil Suction"
  }

  /** Pages from 1 on have distinct names. */
  lemma PageNameInjective(a: nat, b: nat)
    requires 1 <= a && 1 <= b && PageName(a) == PageName(b)
    ensures a == b
  {
    if a > 1 && b > 1 {
      assert NatToString(a) == PageName(a)[13..];
      assert NatToString(b) == PageName(b)[13..];
      NatToStringInjective(a, b);
    }
  }

  /** A full page moves the cursor to the header-less start of the next one. */
  function Roll(c: Cursor): (r: Cursor)
    ensures r.nextRow <= LastRow || r == c
    ensures c.nextRow > LastRow <==> r == Cursor(c.sheetNum + 1, 2)
  {
    if c.nextRow > LastRow then Cursor(c.sheetNum + 1, 2) else c
  }

  /** The cursor after a write whose save succeeds: the row after the one written. */
  function Advance(c: Cursor): Cursor {
    Cursor(Roll(c).sheetNum, Roll(c).nextRow + 1)
  }

  /** The cursor after `k` writes of one uninterrupted session. */
  function AfterWrites(k: nat): Cursor
    decreases k
  {
    if k == 0 then Fresh else Advance(AfterWrites(k - 1))
  }

  /**
   * Write number `k` (from 0) of a session lands on page 1 + k / 37 at row
   * 2 + k % 37: every page takes rows 2 .. 38 and no more.
   */
  lemma {:induction false} WritePosition(k: nat)
    ensures AfterWrites(k) == if k == 0 then Fresh else Cursor(1 + (k - 1) / 37, 3 + (k - 1) % 37)
    ensures Roll(AfterWrites(k)) == Cursor(1 + k / 37, 2 + k % 37)
    decreases k
  {
    if k > 0 {
      var j := k - 1;
      WritePosition(j);
      var q, r := j / 37, j % 37;
      assert AfterWrites(k) == Cursor(1 + q, 3 + r);
      PageStep(j);
      if r == 36 {
        assert Roll(AfterWrites(k)) == Cursor(2 + q, 2);
      } else {
        assert Roll(AfterWrites(k)) == Cursor(1 + q, 3 + r);
      }
    }
  }

  /** Counting one more write either stays on the page or starts the next one. */
  lemma PageStep(j: nat)
    ensures j % 37 == 36 ==> (j + 1) / 37 == j / 37 + 1 && (j + 1) % 37 == 0
    ensures j % 37 < 36 ==> (j + 1) / 37 == j / 37 && (j + 1) % 37 == j % 37 + 1
  {
    var q, r := j / 37, j % 37;
    assert j == 37 * q + r;
    if r == 36 {
      assert j + 1 == 37 * (q + 1);
    } else {
      assert j + 1 == 37 * q + (r + 1);
    }
  }

  /** The first 37 writes of a session go to page 1, the next 37 to page 2. */
  lemma FirstPages(k: nat)
    ensures k < 37 ==> Roll(AfterWrites(k)).sheetNum == 1
    ensures 37 <= k < 74 ==> Roll(AfterWrites(k)).sheetNum == 2
    ensures k == 36 ==> Roll(AfterWrites(k)).nextRow == LastRow
    ensures k == 37 ==> Roll(AfterWrites(k)).nextRow == 2
  {
    WritePosition(k);
  }

  // ---------------------------------------------------------------------
  // The export workbook
  // ---------------------------------------------------------------------

  /** The header row of every page, columns A to H. */
  const Headers: seq<string> := ["Date", "Boring", "Depth", "Can No", "Top", "Bottom", "Top", "Bottom"]

  /** Row 1 with the headers in its first eight cells: what writing A1 .. H1 does to it. */
  function WithHeaders(row: Row): (r: Row)
    ensures |r| >= |Headers| && r[..|Headers|] == Headers && r[|Headers|..] == if |row| > |Headers| then row[|Headers|..] else []
  {
    if |row| > |Headers| then Headers + row[|Headers|..] else Headers
  }

  /** A grid with the header cells of row 1 written. */
  function HeaderGrid(rows: Grid): (g: Grid)
    ensures |g| == if |rows| == 0 then 1 else |rows|
  {
    if |rows| == 0 then [Headers] else rows[0 := WithHeaders(rows[0])]
  }

  /**
   * A new page: the sheet, unless one of that name exists, with the header
   * cells of its row 1 written.
   */
  function NewPage(doc: Book, name: string): Book {
    var d := NewSheet(doc, name);
    var i := FindSheet(d.sheets, name).value;
    Book(d.sheets[i := d.sheets[i].(rows := HeaderGrid(d.sheets[i].rows))])
  }

  /** The export created for a job: the new file's one sheet renamed to page 1, and its header row. */
  function FreshExport(): Book {
    NewPage(Book([Sheet("Soil Suction", true, [])]), "Soil Suction")
  }

  /** The sample row of the export: date, boring, depth and can number in columns A to D of row `r`. */
  function ExportRow(doc: Book, page: string, r: nat, date: string, boring: string, depth: string, canNo: string): Book {
    var row := NatToString(r);
    var b1 := SetCellValue(doc, page, "A", row, date);
    var b2 := SetCellValue(b1, page, "B", row, boring);
    var b3 := SetCellValue(b2, page, "C", row, depth);
    SetCellValue(b3, page, "D", row, canNo)
  }

  /**
   * The export half of `WriteSoilSuctionSample`: a full page first makes the
   * next page; the sample row goes to the rolled cursor, which is returned
   * with the document.
   */
  function ExportWrite(doc: Book, c: Cursor, date: string, boring: string, depth: string, canNo: string): (Book, Cursor) {
    var w := Roll(c);
    var d := if c.nextRow > LastRow then NewPage(doc, NewPageName(w.sheetNum)) else doc;
    (ExportRow(d, PageName(w.sheetNum), w.nextRow, date, boring, depth, canNo), w)
  }

  /**
   * How `InitSoilSuctionFile` restores the cursor of an existing export: the
   * last page, the row after its rows (a page it cannot read counts as having
   * none), rolled like a write.
   */
  function ReopenCursor(doc: Book): Cursor {
    var n := |doc.sheets|;
    var rows := GetRows(doc, PageName(n));
    Roll(Cursor(n, (if rows.Some? then |rows.value| else 0) + 1))
  }

  /**
   * The export agrees with a cursor: pages 1 .. n named in order and
   * readable, the cursor on page n just past its rows, and the next row at
   * most one past the last a page holds.
   */
  predicate Consistent(doc: Book, c: Cursor) {
    1 <= |doc.sheets| == c.sheetNum &&
    (forall i | 0 <= i < |doc.sheets| :: doc.sheets[i].name == PageName(i + 1) && doc.sheets[i].readable) &&
    2 <= c.nextRow <= LastRow + 1 &&
    |doc.sheets[|doc.sheets| - 1].rows| == c.nextRow - 1
  }

  /** Among pages named in order, page k is at position k - 1, and a page past the last is missing. */
  lemma FindPage(sheets: seq<Sheet>, k: nat)
    requires 1 <= k && forall i | 0 <= i < |sheets| :: sheets[i].name == PageName(i + 1)
    ensures FindSheet(sheets, PageName(k)) == if k <= |sheets| then Some(k - 1) else None
  {
    var name := PageName(k);
    forall i | 0 <= i < |sheets|
      ensures sheets[i].name == name ==> i == k - 1
    {
      if sheets[i].name == name {
        PageNameInjective(i + 1, k);
      }
    }
    if k <= |sheets| {
      assert sheets[k - 1].name == name;
    }
    FindOnly(sheets, name, k - 1);
  }

  /** A name that only position `j` can carry is found there, or nowhere when `j` is past the end. */
  lemma FindOnly(sheets: seq<Sheet>, name: string, j: nat)
    requires forall i | 0 <= i < |sheets| :: sheets[i].name == name ==> i == j
    requires j < |sheets| ==> sheets[j].name == name
    ensures FindSheet(sheets, name) == if j < |sheets| then Some(j) else None
  {
  }

  lemma HeaderAddress(k: nat)
    requires 1 <= k
    ensures Address(Letters(k), "1") == Some((0, k - 1))
  {
    ParseColumnOfLetters(k);
    assert ParseNat("1") == Some(1);
  }

  lemma RowAddresses(r: nat)
    requires r >= 1
    ensures Address("A", NatToString(r)) == Some((r - 1, 0))
    ensures Address("B", NatToString(r)) == Some((r - 1, 1))
    ensures Address("C", NatToString(r)) == Some((r - 1, 2))
    ensures Address("D", NatToString(r)) == Some((r - 1, 3))
  {
    ParseNatToString(r);
    assert "A"[..0] == "" && "B"[..0] == "" && "C"[..0] == "" && "D"[..0] == "";
  }

  /** A new page carries the header row "Date", "Boring", ..., "Bottom" in columns A to H. */
  lemma NewPageHeaders(doc: Book, name: string, j: nat)
    requires 1 <= j <= |Headers|
    ensures GetCellValue(NewPage(doc, name), name, Letters(j), "1") == Headers[j - 1]
  {
    var d := NewSheet(doc, name);
    var i := FindSheet(d.sheets, name).value;
    var p := NewPage(doc, name);
    var g := HeaderGrid(d.sheets[i].rows);
    FindSheetSameNames(d.sheets, p.sheets, name);
    assert FindSheet(p.sheets, name) == Some(i) && p.sheets[i].rows == g;
    HeaderAddress(j);
    assert g[0][..|Headers|] == Headers;
    assert g[0][j - 1] == g[0][..|Headers|][j - 1];
    assert GetCellValue(p, name, Letters(j), "1") == CellAt(g, 0, j - 1);
  }

  /** The sample row of an existing page one row short of `r` makes it `r` rows long. */
  lemma ExportRowRows(doc: Book, page: string, r: nat, date: string, boring: string, depth: string, canNo: string, i: nat)
    requires r >= 1 && FindSheet(doc.sheets, page) == Some(i) && |doc.sheets[i].rows| == r - 1
    ensures var d := ExportRow(doc, page, r, date, boring, depth, canNo);
            FindSheet(d.sheets, page) == Some(i) && |d.sheets[i].rows| == r
  {
    var row := NatToString(r);
    RowAddresses(r);
    var b1 := SetCellValue(doc, page, "A", row, date);
    var b2 := SetCellValue(b1, page, "B", row, boring);
    var b3 := SetCellValue(b2, page, "C", row, depth);
    SetCellValueRows(doc, page, "A", row, date, i);
    SetCellValueRows(b1, page, "B", row, boring, i);
    SetCellValueRows(b2, page, "C", row, depth, i);
    SetCellValueRows(b3, page, "D", row, canNo, i);
  }

  /** The sample row sets columns A to D of row `r` of its page, and no other cell. */
  lemma ExportRowCells(doc: Book, page: string, r: nat, date: string, boring: string, depth: string, canNo: string,
                       sheet': string, col': string, row': string)
    requires r >= 1 && FindSheet(doc.sheets, page).Some?
    ensures GetCellValue(ExportRow(doc, page, r, date, boring, depth, canNo), sheet', col', row') ==
            if sheet' == page && Address(col', row') == Some((r - 1, 3)) then canNo
            else if sheet' == page && Address(col', row') == Some((r - 1, 2)) then depth
            else if sheet' == page && Address(col', row') == Some((r - 1, 1)) then boring
            else if sheet' == page && Address(col', row') == Some((r - 1, 0)) then date
            else GetCellValue(doc, sheet', col', row')
  {
    var row := NatToString(r);
    RowAddresses(r);
    var b1 := SetCellValue(doc, page, "A", row, date);
    var b2 := SetCellValue(b1, page, "B", row, boring);
    var b3 := SetCellValue(b2, page, "C", row, depth);
    GetSetCellValue(doc, page, "A", row, date, sheet', col', row');
    FindSheetSameNames(doc.sheets, b1.sheets, page);
    GetSetCellValue(b1, page, "B", row, boring, sheet', col', row');
    FindSheetSameNames(b1.sheets, b2.sheets, page);
    GetSetCellValue(b2, page, "C", row, depth, sheet', col', row');
    FindSheetSameNames(b2.sheets, b3.sheets, page);
    GetSetCellValue(b3, page, "D", row, canNo, sheet', col', row');
  }

  /** A new page of a name not yet used is one more sheet at the end, holding only its header row. */
  lemma NewPageShape(doc: Book, name: string)
    requires FindSheet(doc.sheets, name).None?
    ensures var d := NewPage(doc, name);
            |d.sheets| == |doc.sheets| + 1 &&
            (forall i | 0 <= i < |doc.sheets| :: d.sheets[i] == doc.sheets[i]) &&
            d.sheets[|doc.sheets|].name == name && d.sheets[|doc.sheets|].readable &&
            |d.sheets[|doc.sheets|].rows| == 1
  {
    var d0 := NewSheet(doc, name);
    assert d0.sheets == doc.sheets + [Sheet(name, true, [])];
    assert FindSheet(d0.sheets, name) == Some(|doc.sheets|) by {
      assert forall i | 0 <= i < |doc.sheets| :: d0.sheets[i].name == doc.sheets[i].name;
    }
  }

  /** Making the page after a full last page gives a consistent export whose cursor is after the new header. */
  lemma NewPageConsistent(doc: Book, n: nat)
    requires Consistent(doc, Cursor(n, LastRow + 1))
    ensures Consistent(NewPage(doc, NewPageName(n + 1)), Cursor(n + 1, 2))
  {
    var name := NewPageName(n + 1);
    assert name == PageName(n + 1);
    FindPage(doc.sheets, n + 1);
    NewPageShape(doc, name);
    var d := NewPage(doc, name);
    forall i | 0 <= i < |d.sheets|
      ensures d.sheets[i].name == PageName(i + 1) && d.sheets[i].readable
    {
      if i < n {
        assert d.sheets[i] == doc.sheets[i];
      } else {
        assert d.sheets[i].name == name;
      }
    }
  }

  /** The sample row's four cells read back as written. */
  lemma ExportRowWritten(doc: Book, page: string, r: nat, date: string, boring: string, depth: string, canNo: string)
    requires r >= 1 && FindSheet(doc.sheets, page).Some?
    ensures var d := ExportRow(doc, page, r, date, boring, depth, canNo);
            GetCellValue(d, page, "A", NatToString(r)) == date &&
            GetCellValue(d, page, "B", NatToString(r)) == boring &&
            GetCellValue(d, page, "C", NatToString(r)) == depth &&
            GetCellValue(d, page, "D", NatToString(r)) == canNo
  {
    var row := NatToString(r);
    RowAddresses(r);
    ExportRowCells(doc, page, r, date, boring, depth, canNo, page, "A", row);
    ExportRowCells(doc, page, r, date, boring, depth, canNo, page, "B", row);
    ExportRowCells(doc, page, r, date, boring, depth, canNo, page, "C", row);
    ExportRowCells(doc, page, r, date, boring, depth, canNo, page, "D", row);
  }

  /** The sample row keeps every sheet's name and readability. */
  lemma ExportRowNames(doc: Book, page: string, r: nat, date: string, boring: string, depth: string, canNo: string)
    ensures var d := ExportRow(doc, page, r, date, boring, depth, canNo);
            |d.sheets| == |doc.sheets| &&
            forall i | 0 <= i < |d.sheets| :: d.sheets[i].name == doc.sheets[i].name && d.sheets[i].readable == doc.sheets[i].readable
  {
  }

  /** Writing the sample row at a consistent cursor that is not past the page keeps the export consistent. */
  lemma ExportRowConsistent(doc: Book, c: Cursor, date: string, boring: string, depth: string, canNo: string)
    requires Consistent(doc, c) && c.nextRow <= LastRow
    ensures Consistent(ExportRow(doc, PageName(c.sheetNum), c.nextRow, date, boring, depth, canNo), Cursor(c.sheetNum, c.nextRow + 1))
  {
    var d := ExportRow(doc, PageName(c.sheetNum), c.nextRow, date, boring, depth, canNo);
    FindPage(doc.sheets, c.sheetNum);
    ExportRowRows(doc, PageName(c.sheetNum), c.nextRow, date, boring, depth, canNo, c.sheetNum - 1);
    ExportRowNames(doc, PageName(c.sheetNum), c.nextRow, date, boring, depth, canNo);
    forall i | 0 <= i < |d.sheets|
      ensures d.sheets[i].name == PageName(i + 1) && d.sheets[i].readable
    {
      assert d.sheets[i].name == doc.sheets[i].name && d.sheets[i].readable == doc.sheets[i].readable;
    }
  }

  /** A write keeps the export consistent with the advanced cursor. */
  lemma ExportWriteConsistent(doc: Book, c: Cursor, date: string, boring: string, depth: string, canNo: string)
    requires Consistent(doc, c)
    ensures Consistent(ExportWrite(doc, c, date, boring, depth, canNo).0, Advance(c))
  {
    if c.nextRow > LastRow {
      var w := Cursor(c.sheetNum + 1, 2);
      assert Roll(c) == w && Advance(c) == Cursor(w.sheetNum, w.nextRow + 1);
      NewPageConsistent(doc, c.sheetNum);
      var before := NewPage(doc, NewPageName(w.sheetNum));
      ExportRowConsistent(before, w, date, boring, depth, canNo);
      assert ExportWrite(doc, c, date, boring, depth, canNo).0 ==
             ExportRow(before, PageName(w.sheetNum), w.nextRow, date, boring, depth, canNo);
    } else {
      assert Roll(c) == c && Advance(c) == Cursor(c.sheetNum, c.nextRow + 1);
      ExportRowConsistent(doc, c, date, boring, depth, canNo);
      assert ExportWrite(doc, c, date, boring, depth, canNo).0 ==
             ExportRow(doc, PageName(c.sheetNum), c.nextRow, date, boring, depth, canNo);
    }
  }

  /** A write puts the date, boring, depth and can number in columns A to D of the row it rolled to. */
  lemma ExportWriteCells(doc: Book, c: Cursor, date: string, boring: string, depth: string, canNo: string)
    requires Consistent(doc, c)
    ensures var (d, w) := ExportWrite(doc, c, date, boring, depth, canNo);
            GetCellValue(d, PageName(w.sheetNum), "A", NatToString(w.nextRow)) == date &&
            GetCellValue(d, PageName(w.sheetNum), "B", NatToString(w.nextRow)) == boring &&
            GetCellValue(d, PageName(w.sheetNum), "C", NatToString(w.nextRow)) == depth &&
            GetCellValue(d, PageName(w.sheetNum), "D", NatToString(w.nextRow)) == canNo
  {
    var w := Roll(c);
    var before := if c.nextRow > LastRow then NewPage(doc, NewPageName(w.sheetNum)) else doc;
    if c.nextRow > LastRow {
      NewPageConsistent(doc, c.sheetNum);
    }
    FindPage(before.sheets, w.sheetNum);
    var page := PageName(w.sheetNum);
    ExportRowWritten(before, page, w.nextRow, date, boring, depth, canNo);
    assert ExportWrite(doc, c, date, boring, depth, canNo) == (ExportRow(before, page, w.nextRow, date, boring, depth, canNo), w);
  }

  /** A fresh export agrees with the fresh cursor. */
  lemma FreshConsistent()
    ensures Consistent(FreshExport(), Fresh)
  {
    assert FindSheet([Sheet("Soil Suction", true, [])], "Soil Suction") == Some(0);
  }

  /** Reopening an export restores the cursor of the session that wrote it, rolled. */
  lemma ReopenMatchesSession(doc: Book, c: Cursor)
    requires Consistent(doc, c)
    ensures ReopenCursor(doc) == Roll(c)
  {
    FindPage(doc.sheets, c.sheetNum);
  }

  /**
   * Reopening an export whose last page is full moves the cursor to a page
   * that is never made: the next write changes nothing, where the session
   * that was not interrupted would have made the page and written the row.
   */
  lemma ReopenFullPageLosesRow(doc: Book, c: Cursor, date: string, boring: string, depth: string, canNo: string)
    requires Consistent(doc, c) && c.nextRow == LastRow + 1
    ensures ExportWrite(doc, ReopenCursor(doc), date, boring, depth, canNo).0 == doc
    ensures GetCellValue(doc, PageName(c.sheetNum + 1), "B", "2") == ""
    ensures GetCellValue(ExportWrite(doc, c, date, boring, depth, canNo).0, PageName(c.sheetNum + 1), "B", "2") == boring
  {
    var next := PageName(c.sheetNum + 1);
    ReopenMatchesSession(doc, c);
    assert ReopenCursor(doc) == Cursor(c.sheetNum + 1, 2);
    FindPage(doc.sheets, c.sheetNum + 1);
    assert FindSheet(doc.sheets, next).None?;
    assert ExportWrite(doc, ReopenCursor(doc), date, boring, depth, canNo).0 ==
           ExportRow(doc, next, 2, date, boring, depth, canNo);
    ExportWriteCells(doc, c, date, boring, depth, canNo);
    assert NatToString(2) == "2";
  }

  /** A one-page export holding its header and 37 samples: the page is full. */
  lemma FullFirstPage()
    ensures Consistent(Book([Sheet("Soil Suction", true, seq(LastRow, _ => []))]), Cursor(1, LastRow + 1))
  {
  }

  /**
   * Reopening as it should be done: a full last page makes the next page
   * right away, the way the write that rolls over does.
   */
  function ReopenRepaired(doc: Book): (Book, Cursor) {
    var n := |doc.sheets|;
    var rows := GetRows(doc, PageName(n));
    var c := Cursor(n, (if rows.Some? then |rows.value| else 0) + 1);
    if c.nextRow > LastRow then (NewPage(doc, NewPageName(n + 1)), Roll(c)) else (doc, c)
  }

  /**
   * The repaired reopen gives an export consistent with its cursor, and the
   * next write leaves the same document and cursor as in the session that
   * was never interrupted.
   */
  lemma ResumeRepairedMatchesSession(doc: Book, c: Cursor, date: string, boring: string, depth: string, canNo: string)
    requires Consistent(doc, c)
    ensures Consistent(ReopenRepaired(doc).0, ReopenRepaired(doc).1)
    ensures ExportWrite(ReopenRepaired(doc).0, ReopenRepaired(doc).1, date, boring, depth, canNo) ==
            ExportWrite(doc, c, date, boring, depth, canNo)
  {
    FindPage(doc.sheets, c.sheetNum);
    RepairedOf(doc, c);
    if c.nextRow > LastRow {
      var next := Cursor(c.sheetNum + 1, 2);
      var d := NewPage(doc, NewPageName(next.sheetNum));
      NewPageConsistent(doc, c.sheetNum);
      assert ExportWrite(d, next, date, boring, depth, canNo) ==
             (ExportRow(d, PageName(next.sheetNum), 2, date, boring, depth, canNo), next);
      assert ExportWrite(doc, c, date, boring, depth, canNo) ==
             (ExportRow(d, PageName(next.sheetNum), 2, date, boring, depth, canNo), next);
    }
  }

  /** The repaired reopen finds the cursor after the last page's rows, and makes the next page when it is full. */
  lemma RepairedOf(doc: Book, c: Cursor)
    requires |doc.sheets| == c.sheetNum && GetRows(doc, PageName(c.sheetNum)).Some?
    requires |GetRows(doc, PageName(c.sheetNum)).value| == c.nextRow - 1 && c.nextRow >= 1
    ensures ReopenRepaired(doc) ==
            if c.nextRow > LastRow then (NewPage(doc, NewPageName(c.sheetNum + 1)), Cursor(c.sheetNum + 1, 2))
            else (doc, c)
  {
  }

  // ---------------------------------------------------------------------
  // The writer
  // ---------------------------------------------------------------------

  /**
   * A soil suction writer: the row index of the lab file it shares with the
   * moisture writer, the export workbook and its page cursor.
   */
  class SoilSuctionWriter {
    var sampleRowMap: map<string, string>
    const file: OpenBook
    const separate: OpenBook
    var separateSheetNum: nat
    var separateNextRow: nat

    /** The page cursor of the export. */
    function Position(): Cursor
      reads this
    {
      Cursor(separateSheetNum, separateNextRow)
    }

    constructor (file: OpenBook, separate: OpenBook, index: map<string, string>, c: Cursor)
      ensures this.file == file && this.separate == separate && sampleRowMap == index && Position() == c
    {
      this.file := file;
      this.separate := separate;
      sampleRowMap := index;
      separateSheetNum := c.sheetNum;
      separateNextRow := c.nextRow;
    }

    /**
     * `WriteSoilSuctionSample`: an unmapped sample, or a mapping that does not
     * split into sheet and row, is an error that writes and saves nothing.
     * Otherwise the can number goes to column D of the mapped row of the lab
     * file, which is saved (`labSaveOk`); a failed save ends the call there.
     * Then the sample row goes to the export at the rolled cursor and the
     * export is saved (`exportSaveOk`); only a successful save moves the
     * cursor past the row. `date` is the day of the write.
     */
    method WriteSoilSuctionSample(boring: string, depth: string, suctionCanNo: string, date: string,
                                  labSaveOk: bool, exportSaveOk: bool) returns (err: Option<Error>)
      requires file != separate && file.disk != separate.disk
      modifies this, file, file.disk, separate, separate.disk
      ensures sampleRowMap == old(sampleRowMap)
      ensures Pair(boring, depth) !in sampleRowMap ==>
                err == Some(NoMapping(Pair(boring, depth))) &&
                file.book == old(file.book) && file.disk.contents == old(file.disk.contents) &&
                separate.book == old(separate.book) && separate.disk.contents == old(separate.disk.contents) &&
                Position() == old(Position())
      ensures Pair(boring, depth) in sampleRowMap && |Split(sampleRowMap[Pair(boring, depth)], '|')| != 2 ==>
                err == Some(InvalidMapping(Pair(boring, depth))) &&
                file.book == old(file.book) && file.disk.contents == old(file.disk.contents) &&
                separate.book == old(separate.book) && separate.disk.contents == old(separate.disk.contents) &&
                Position() == old(Position())
      ensures Pair(boring, depth) in sampleRowMap && |Split(sampleRowMap[Pair(boring, depth)], '|')| == 2 ==>
                var parts := Split(sampleRowMap[Pair(boring, depth)], '|');
                file.book == SetCellValue(old(file.book), parts[0], "D", parts[1], suctionCanNo) &&
                file.disk.contents == (if labSaveOk then Present(file.book) else old(file.disk.contents)) &&
                (!labSaveOk ==>
                   err == Some(IOFailure) &&
                   separate.book == old(separate.book) && separate.disk.contents == old(separate.disk.contents) &&
                   Position() == old(Position())) &&
                (labSaveOk ==>
                   var (d, w) := ExportWrite(old(separate.book), old(Position()), date, boring, depth, suctionCanNo);
                   separate.book == d &&
                   err == (if exportSaveOk then None else Some(IOFailure)) &&
                   separate.disk.contents == (if exportSaveOk then Present(d) else old(separate.disk.contents)) &&
                   Position() == (if exportSaveOk then Advance(old(Position())) else w))
    {
      var key := Pair(boring, depth);
      if key !in sampleRowMap {
        return Some(NoMapping(key));
      }
      var parts := Split(sampleRowMap[key], '|');
      if |parts| != 2 {
        return Some(InvalidMapping(key));
      }
      var sheetName := parts[0];
      var rowNum := parts[1];
      file.book := SetCellValue(file.book, sheetName, "D", rowNum, suctionCanNo);
      err := file.Save(labSaveOk);
      if err.Some? {
        return;
      }
      err := WriteExport(date, boring, depth, suctionCanNo, exportSaveOk);
    }

    /** The export half of `WriteSoilSuctionSample`. */
    method WriteExport(date: string, boring: string, depth: string, suctionCanNo: string, exportSaveOk: bool)
      returns (err: Option<Error>)
      modifies this, separate, separate.disk
      ensures sampleRowMap == old(sampleRowMap)
      ensures separate.book == ExportWrite(old(separate.book), old(Position()), date, boring, depth, suctionCanNo).0
      ensures err == (if exportSaveOk then None else Some(IOFailure))
      ensures separate.disk.contents == (if exportSaveOk then Present(separate.book) else old(separate.disk.contents))
      ensures Position() == if exportSaveOk then Advance(old(Position())) else Roll(old(Position()))
    {
      ghost var before := separate.book;
      ghost var c := Position();
      if separateNextRow > LastRow {
        separateSheetNum := separateSheetNum + 1;
        separate.book := NewPage(separate.book, NewPageName(separateSheetNum));
        separateNextRow := 2;
      }
      assert Position() == Roll(c);
      var separateSheet := PageName(separateSheetNum);
      separate.book := ExportRow(separate.book, separateSheet, separateNextRow, date, boring, depth, suctionCanNo);
      assert separate.book == ExportWrite(before, c, date, boring, depth, suctionCanNo).0;
      err := separate.Save(exportSaveOk);
      if err.Some? {
        return;
      }
      separateNextRow := separateNextRow + 1;
    }
  }

  /**
   * `InitSoilSuctionFile`: with no export on disk, create one holding page 1
   * and its header row (`createOk` is whether writing it succeeds) and start
   * at the fresh cursor; otherwise open the export (an unreadable or corrupt
   * one is an error) and restore its cursor, making the next page when the
   * last one is full (the repaired reopen). Then index the Soil Suction
   * sheets of the shared lab file.
   */
  method InitSoilSuctionFile(exportDisk: BookFile, createOk: bool, lab: OpenBook) returns (r: Result<SoilSuctionWriter>)
    requires lab.disk != exportDisk
    modifies exportDisk
    ensures old(exportDisk.contents).Absent? ==>
              exportDisk.contents == (if createOk then Present(FreshExport()) else old(exportDisk.contents))
    ensures !old(exportDisk.contents).Absent? ==> exportDisk.contents == old(exportDisk.contents)
    ensures r.Ok? <==> (old(exportDisk.contents).Absent? && createOk) || old(exportDisk.contents).Present?
    ensures r.Err? ==> r.error == IOFailure
    ensures r.Err? ==> unchanged(exportDisk)
    ensures r.Ok? ==>
              fresh(r.value) && fresh(r.value.separate) &&
              r.value.file == lab && r.value.separate.disk == exportDisk &&
              r.value.sampleRowMap == SuctionIndex(lab.book) &&
              (old(exportDisk.contents).Absent? ==> r.value.separate.book == FreshExport() && r.value.Position() == Fresh) &&
              (old(exportDisk.contents).Present? ==>
                 (r.value.separate.book, r.value.Position()) == ReopenRepaired(old(exportDisk.contents).value))
  {
    var separate: OpenBook;
    var c: Cursor;
    if exportDisk.contents.Absent? {
      separate := new OpenBook(exportDisk, FreshExport());
      var err := separate.Save(createOk);
      if err.Some? {
        return Err(IOFailure);
      }
      c := Fresh;
    } else {
      if !exportDisk.contents.Present? {
        return Err(IOFailure);
      }
      var doc := exportDisk.contents.value;
      var sheetNum := |doc.sheets|;
      var rows := GetRows(doc, PageName(sheetNum));
      var nextRow := (if rows.Some? then |rows.value| else 0) + 1;
      if nextRow > LastRow {
        sheetNum := sheetNum + 1;
        nextRow := 2;
        doc := NewPage(doc, NewPageName(sheetNum));
      }
      separate := new OpenBook(exportDisk, doc);
      c := Cursor(sheetNum, nextRow);
    }
    var index := BuildSuctionIndex(lab.book);
    var writer := new SoilSuctionWriter(lab, separate, index, c);
    return Ok(writer);
  }

  // ---------------------------------------------------------------------
  // Repeating a suction write when a capture is edited
  // ---------------------------------------------------------------------

  /** Whether `InitSoilSuctionFile` opens a writer on the stored export. */
  predicate ExportOpens(stored: FileState<Book>, createOk: bool) {
    stored.Present? || (stored.Absent? && createOk)
  }

  /** The export a freshly opened writer holds and its cursor. */
  function OpenedExport(stored: FileState<Book>): (Book, Cursor) {
    if stored.Present? then ReopenRepaired(stored.value) else (FreshExport(), Fresh)
  }

  /** The export file once a writer is open: a missing one has just been created. */
  function OpenedExportFile(stored: FileState<Book>): FileState<Book> {
    if stored.Absent? then Present(FreshExport()) else stored
  }

  /** The sheet and row number a sample's Soil Suction entry names, when it splits into two parts. */
  function SuctionRow(index: map<string, string>, boring: string, depth: string): Option<(string, string)> {
    var key := Pair(boring, depth);
    if key in index && |Split(index[key], '|')| == 2 then Some((Split(index[key], '|')[0], Split(index[key], '|')[1]))
    else None
  }

  /**
   * A suction write repeated through a freshly opened writer whose errors
   * are only logged: the lab workbook in memory, the lab file and the export
   * file afterwards. `createOk`, `labSaveOk` and `exportSaveOk` are whether
   * creating a missing export, saving the lab file and saving the export
   * succeed.
   */
  function SuctionRewrite(lab: Book, labFile: FileState<Book>, stored: FileState<Book>, createOk: bool,
                          boring: string, depth: string, canNo: string, date: string,
                          labSaveOk: bool, exportSaveOk: bool): (Book, FileState<Book>, FileState<Book>)
  {
    if !ExportOpens(stored, createOk) then (lab, labFile, stored)
    else match SuctionRow(SuctionIndex(lab), boring, depth)
      case None => (lab, labFile, OpenedExportFile(stored))
      case Some((sheet, row)) =>
        var written := SetCellValue(lab, sheet, "D", row, canNo);
        if !labSaveOk then (written, labFile, OpenedExportFile(stored))
        else
          var (doc, c) := OpenedExport(stored);
          (written, Present(written),
           if exportSaveOk then Present(ExportWrite(doc, c, date, boring, depth, canNo).0)
           else OpenedExportFile(stored))
  }

  /**
   * What a repeated suction write changes: nothing when the export cannot
   * be opened; otherwise, of the lab workbook's cells, only column D of the
   * sample's Soil Suction row, which then holds the can number; the lab file
   * is saved with it exactly when that save succeeds; and the export gets
   * the sample row at the opened cursor exactly when both saves succeed.
   */
  lemma SuctionRewriteSpec(lab: Book, labFile: FileState<Book>, stored: FileState<Book>, createOk: bool,
                           boring: string, depth: string, canNo: string, date: string,
                           labSaveOk: bool, exportSaveOk: bool, sheet': string, col': string, row': string)
    ensures var (lab', labFile', stored') :=
              SuctionRewrite(lab, labFile, stored, createOk, boring, depth, canNo, date, labSaveOk, exportSaveOk);
            var target := SuctionRow(SuctionIndex(lab), boring, depth);
            (!ExportOpens(stored, createOk) ==> lab' == lab && labFile' == labFile && stored' == stored) &&
            GetCellValue(lab', sheet', col', row') ==
              (if ExportOpens(stored, createOk) && target.Some? && FindSheet(lab.sheets, target.value.0).Some? &&
                  Address("D", target.value.1).Some? &&
                  sheet' == target.value.0 && Address(col', row') == Address("D", target.value.1)
               then canNo else GetCellValue(lab, sheet', col', row')) &&
            (ExportOpens(stored, createOk) && target.Some? && labSaveOk ==> labFile' == Present(lab')) &&
            (!(ExportOpens(stored, createOk) && target.Some? && labSaveOk) ==> labFile' == labFile) &&
            (ExportOpens(stored, createOk) && target.Some? && labSaveOk && exportSaveOk ==>
               stored' == Present(ExportWrite(OpenedExport(stored).0, OpenedExport(stored).1, date, boring, depth,
                                              canNo).0)) &&
            (ExportOpens(stored, createOk) && !(target.Some? && labSaveOk && exportSaveOk) ==>
               stored' == OpenedExportFile(stored))
  {
    var target := SuctionRow(SuctionIndex(lab), boring, depth);
    if ExportOpens(stored, createOk) && target.Some? {
      var (sheet, row) := target.value;
      if FindSheet(lab.sheets, sheet).Some? && Address("D", row).Some? {
        GetSetCellValue(lab, sheet, "D", row, canNo, sheet', col', row');
      }
    }
  }

  /**
   * Repeating a suction write on the shared lab workbook: open a fresh
   * writer with `InitSoilSuctionFile` and let it write the can number; an
   * error at either step is only logged.
   */
  method RewriteSuctionSample(exportDisk: BookFile, createOk: bool, lab: OpenBook, boring: string, depth: string,
                              canNo: string, date: string, labSaveOk: bool, exportSaveOk: bool)
    requires lab.disk != exportDisk
    modifies lab, lab.disk, exportDisk
    ensures (lab.book, lab.disk.contents, exportDisk.contents) ==
              SuctionRewrite(old(lab.book), old(lab.disk.contents), old(exportDisk.contents), createOk,
                             boring, depth, canNo, date, labSaveOk, exportSaveOk)
    ensures !ExportOpens(old(exportDisk.contents), createOk) ==> unchanged(lab, lab.disk, exportDisk)
  {
    var w := InitSoilSuctionFile(exportDisk, createOk, lab);
    if w.Ok? {
      var _ := w.value.WriteSoilSuctionSample(boring, depth, canNo, date, labSaveOk, exportSaveOk);
    }
  }
}
