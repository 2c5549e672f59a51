/**
 * The spreadsheet documents the core reads and writes, abstracted as an
 * ordered list of named sheets, each a grid of cell texts as `GetRows`
 * returns it (row 1 is index 0, column A is index 0).
 */
module Workbook {
  import opened Wrappers
  import opened GoStrings
  import opened Columns

  type Row = seq<string>
  type Grid = seq<Row>

  /** One sheet; `readable` is false when reading its rows fails. */
  datatype Sheet = Sheet(name: string, readable: bool, rows: Grid)

  /** A workbook: its sheets in the order `GetSheetList` lists them. */
  datatype Book = Book(sheets: seq<Sheet>)

  /** The position of the first sheet called `name`. */
  function FindSheet(sheets: seq<Sheet>, name: string): (r: Option<nat>)
    ensures r.Some? ==> r.value < |sheets| && sheets[r.value].name == name
    ensures r.Some? ==> forall i | 0 <= i < r.value :: sheets[i].name != name
    ensures r.None? <==> forall i | 0 <= i < |sheets| :: sheets[i].name != name
    decreases |sheets|
  {
    if |sheets| == 0 then None
    else if sheets[0].name == name then Some(0)
    else match FindSheet(sheets[1..], name)
      case None => None
      case Some(i) => Some(i + 1)
  }

  /** `GetRows`: the grid of the named sheet, or nothing when it is missing or unreadable. */
  function GetRows(book: Book, name: string): Option<Grid> {
    match FindSheet(book.sheets, name)
    case None => None
    case Some(i) => if book.sheets[i].readable then Some(book.sheets[i].rows) else None
  }

  /** The text of a cell (0-based row and column); cells past the end are empty. */
  function CellAt(grid: Grid, r: nat, c: nat): string {
    if r < |grid| && c < |grid[r]| then grid[r][c] else ""
  }

  function Blanks(n: nat): (row: Row)
    ensures |row| == n && forall i | 0 <= i < n :: row[i] == ""
  {
    seq(n, _ => "")
  }

  /** Set cell `c` of a row, padding the row with empty cells when it is shorter. */
  function SetRowCell(row: Row, c: nat, v: string): (r: Row)
    ensures |r| == if c < |row| then |row| else c + 1
    ensures r[c] == v
    ensures forall j | 0 <= j < |r| && j != c :: r[j] == (if j < |row| then row[j] else "")
  {
    if c < |row| then row[c := v] else row + Blanks(c - |row|) + [v]
  }

  /** Set a cell of a grid, padding with empty rows when the grid is shorter. */
  function SetGridCell(grid: Grid, r: nat, c: nat, v: string): (g: Grid)
    ensures |g| == if r < |grid| then |grid| else r + 1
  {
    if r < |grid| then grid[r := SetRowCell(grid[r], c, v)]
    else grid + seq(r - |grid|, _ => []) + [SetRowCell([], c, v)]
  }

  /** Setting one cell changes that cell and no other. */
  lemma CellAtSetGridCell(grid: Grid, r: nat, c: nat, v: string, r': nat, c': nat)
    ensures CellAt(SetGridCell(grid, r, c, v), r', c') ==
            if r' == r && c' == c then v else CellAt(grid, r', c')
  {
    var g := SetGridCell(grid, r, c, v);
    if r' != r && r' < |g| {
      if r' < |grid| {
        assert g[r'] == grid[r'];
      } else {
        assert g[r'] == [];
      }
    }
  }

  /** Rows other than the one written are left exactly as they were. */
  lemma SetGridCellOtherRow(grid: Grid, r: nat, c: nat, v: string, r': nat)
    requires r' < |grid| && r' != r
    ensures SetGridCell(grid, r, c, v)[r'] == grid[r']
  {
  }

  function SetSheetCell(sheets: seq<Sheet>, i: nat, r: nat, c: nat, v: string): (s: seq<Sheet>)
    requires i < |sheets|
    ensures |s| == |sheets|
  {
    sheets[i := sheets[i].(rows := SetGridCell(sheets[i].rows, r, c, v))]
  }

  /**
   * The 0-based (row, column) a cell address such as "B11" names: a column
   * name and a row number of at least 1.
   */
  function Address(col: string, row: string): Option<(nat, nat)> {
    match ParseColumn(col)
    case None => None
    case Some(c) =>
      match ParseNat(row)
      case None => None
      case Some(r) => if r >= 1 && c >= 1 then Some((r - 1, c - 1)) else None
  }

  /**
   * `SetCellValue(sheet, col + row, v)`: an address that does not parse, or a
   * sheet that does not exist, leaves the book as it was (the callers ignore
   * that error).
   */
  function SetCellValue(book: Book, sheet: string, col: string, row: string, v: string): (b: Book)
    ensures |b.sheets| == |book.sheets|
    ensures forall i | 0 <= i < |b.sheets| :: b.sheets[i].name == book.sheets[i].name
    ensures forall i | 0 <= i < |b.sheets| :: b.sheets[i].readable == book.sheets[i].readable
  {
    var i := FindSheet(book.sheets, sheet);
    var a := Address(col, row);
    if i.Some? && a.Some? then Book(SetSheetCell(book.sheets, i.value, a.value.0, a.value.1, v))
    else book
  }

  /** The text at a cell address, "" when the sheet or address does not exist. */
  function GetCellValue(book: Book, sheet: string, col: string, row: string): string {
    var i := FindSheet(book.sheets, sheet);
    var a := Address(col, row);
    if i.Some? && a.Some? then CellAt(book.sheets[i.value].rows, a.value.0, a.value.1) else ""
  }

  /** Writing a cell changes that cell and no other cell of the book. */
  lemma GetSetCellValue(book: Book, sheet: string, col: string, row: string, v: string,
                        sheet': string, col': string, row': string)
    requires Address(col, row).Some? && FindSheet(book.sheets, sheet).Some?
    ensures GetCellValue(SetCellValue(book, sheet, col, row, v), sheet', col', row') ==
            if sheet' == sheet && Address(col', row') == Address(col, row)
            then v else GetCellValue(book, sheet', col', row')
  {
    var i := FindSheet(book.sheets, sheet).value;
    var a := Address(col, row).value;
    var b := SetCellValue(book, sheet, col, row, v);
    assert b.sheets == SetSheetCell(book.sheets, i, a.0, a.1, v);
    FindSheetSameNames(book.sheets, b.sheets, sheet');
    var j := FindSheet(book.sheets, sheet');
    var a' := Address(col', row');
    if j.Some? && a'.Some? {
      CellAtSetGridCell(book.sheets[i].rows, a.0, a.1, v, a'.value.0, a'.value.1);
      if j.value != i {
        assert b.sheets[j.value] == book.sheets[j.value];
      }
    }
  }

  lemma {:induction false} FindSheetSameNames(s: seq<Sheet>, t: seq<Sheet>, name: string)
    requires |s| == |t| && forall i | 0 <= i < |s| :: s[i].name == t[i].name
    ensures FindSheet(s, name) == FindSheet(t, name)
    decreases |s|
  {
    if |s| > 0 && s[0].name != name {
      FindSheetSameNames(s[1..], t[1..], name);
    }
  }

  /**
   * Writing a cell of an existing sheet leaves it with at least as many rows
   * as the written row number, and every other sheet as it was.
   */
  lemma SetCellValueRows(book: Book, sheet: string, col: string, row: string, v: string, j: nat)
    requires j < |book.sheets| && Address(col, row).Some?
    ensures var b := SetCellValue(book, sheet, col, row, v);
            |b.sheets[j].rows| ==
              if FindSheet(book.sheets, sheet) == Some(j) && |book.sheets[j].rows| <= Address(col, row).value.0
              then Address(col, row).value.0 + 1
              else |book.sheets[j].rows|
    ensures FindSheet(book.sheets, sheet) != Some(j) ==> SetCellValue(book, sheet, col, row, v).sheets[j] == book.sheets[j]
    ensures FindSheet(SetCellValue(book, sheet, col, row, v).sheets, sheet) == FindSheet(book.sheets, sheet)
  {
    FindSheetSameNames(book.sheets, SetCellValue(book, sheet, col, row, v).sheets, sheet);
  }

  /** `NewSheet`: add an empty sheet at the end unless one of that name exists. */
  function NewSheet(book: Book, name: string): (b: Book)
    ensures FindSheet(b.sheets, name).Some?
  {
    if FindSheet(book.sheets, name).Some? then book
    else
      var b := Book(book.sheets + [Sheet(name, true, [])]);
      assert b.sheets[|book.sheets|].name == name;
      b
  }

  /** A workbook file on disk. */
  class BookFile {
    var contents: FileState<Book>

    constructor (contents: FileState<Book>)
      ensures this.contents == contents
    {
      this.contents := contents;
    }
  }

  /** An open workbook: the cells in memory and the file they are saved to. */
  class OpenBook {
    var book: Book
    const disk: BookFile

    constructor (disk: BookFile, book: Book)
      ensures this.disk == disk && this.book == book
    {
      this.disk := disk;
      this.book := book;
    }

    /** `Save`: write the in-memory cells to the file; `ok` is whether the write succeeds. */
    method Save(ok: bool) returns (err: Option<Error>)
      modifies disk
      ensures err == (if ok then None else Some(IOFailure))
      ensures disk.contents == if ok then Present(book) else old(disk.contents)
      ensures !ok ==> unchanged(disk)
    {
      if ok {
        disk.contents := Present(book);
        err := None;
      } else {
        err := Some(IOFailure);
      }
    }
  }
}
