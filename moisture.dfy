/**
 * The moisture writer: the index from "boring|depth" to "sheet|column" built
 * from the Moisture sheets of the job's working copy of the lab file, the
 * lookup into it, and the write of a sample's can number and weights.
 */
module Moisture {
  import opened Wrappers
  import opened GoStrings
  import opened Columns
  import opened Workbook
  import opened SheetIndex

  /** "Moisture", or a name that starts with "Moisture" and has no space in it. */
  predicate IsMoistureSheet(name: string) {
    name == "Moisture" || (HasPrefix(name, "Moisture") && !Contains(name, " "))
  }

  function Min(a: nat, b: nat): nat {
    if a <= b then a else b
  }

  /** The "boring|depth" key column `c` carries, when both labels are non-blank. */
  function ColumnKey(boringRow: Row, depthRow: Row, c: nat): Option<string>
    requires c < |boringRow| && c < |depthRow|
  {
    var boring := TrimSpace(boringRow[c]);
    var depth := TrimSpace(depthRow[c]);
    if boring != "" && depth != "" then Some(Pair(boring, depth)) else None
  }

  /** The keys of the columns both label rows reach. */
  function ColumnKeys(boringRow: Row, depthRow: Row): (keys: seq<Option<string>>)
    ensures |keys| == Min(|boringRow|, |depthRow|)
  {
    seq(Min(|boringRow|, |depthRow|), c requires 0 <= c < Min(|boringRow|, |depthRow|) => ColumnKey(boringRow, depthRow, c))
  }

  /** The entries columns 1 .. n-1 contribute, each mapping to its column letter; a later column wins. */
  function ColumnEntries(sheet: string, keys: seq<Option<string>>, n: nat): map<string, string>
    requires n <= |keys|
    decreases n
  {
    if n <= 1 then map[]
    else
      var m := ColumnEntries(sheet, keys, n - 1);
      match keys[n - 1]
      case None => m
      case Some(key) => m[key := Pair(sheet, Letters(n))]
  }

  /** What one sheet of the list contributes to the index (rows 9 and 10 of a Moisture sheet). */
  function SheetEntries(book: Book, name: string): map<string, string> {
    if !IsMoistureSheet(name) then map[]
    else match GetRows(book, name)
      case None => map[]
      case Some(rows) =>
        if |rows| >= 10 then
          var keys := ColumnKeys(rows[8], rows[9]);
          ColumnEntries(name, keys, |keys|)
        else map[]
  }

  /** The entries of every sheet of the sheet list, in order. */
  function AllSheetEntries(book: Book): (ms: seq<map<string, string>>)
    ensures |ms| == |book.sheets|
  {
    seq(|book.sheets|, i requires 0 <= i < |book.sheets| => SheetEntries(book, book.sheets[i].name))
  }

  /** The index `InitMoistureTestFile` builds. */
  function MoistureIndex(book: Book): map<string, string> {
    Merge(AllSheetEntries(book))
  }

  /** A key is in a sheet's entries exactly when some column 1 .. n-1 carries it. */
  lemma {:induction false} ColumnEntriesDomain(sheet: string, keys: seq<Option<string>>, n: nat, key: string)
    requires n <= |keys|
    ensures key in ColumnEntries(sheet, keys, n) <==> exists c | 1 <= c < n :: keys[c] == Some(key)
    decreases n
  {
    if n > 1 {
      ColumnEntriesDomain(sheet, keys, n - 1, key);
      if keys[n - 1] != Some(key) {
        if exists c | 1 <= c < n :: keys[c] == Some(key) {
          var c :| 1 <= c < n && keys[c] == Some(key);
          assert c < n - 1;
        }
      }
    }
  }

  /** One more column adds its key, when it has one, with its letter. */
  lemma ColumnEntriesStep(sheet: string, keys: seq<Option<string>>, k: nat)
    requires 1 <= k < |keys|
    ensures ColumnEntries(sheet, keys, k + 1) ==
            if keys[k].Some? then ColumnEntries(sheet, keys, k)[keys[k].value := Pair(sheet, Letters(k + 1))]
            else ColumnEntries(sheet, keys, k)
  {
  }

  /** A key of a sheet's entries maps to the letter of the last column carrying it. */
  lemma {:induction false} ColumnEntriesLastWins(sheet: string, keys: seq<Option<string>>, n: nat, key: string)
    requires n <= |keys| && key in ColumnEntries(sheet, keys, n)
    ensures exists c | 1 <= c < n ::
              keys[c] == Some(key) && ColumnEntries(sheet, keys, n)[key] == Pair(sheet, Letters(c + 1)) &&
              forall c' | c < c' < n :: keys[c'] != Some(key)
    decreases n
  {
    assert n > 1;
    var m := ColumnEntries(sheet, keys, n - 1);
    if keys[n - 1] == Some(key) {
      var c := n - 1;
      assert ColumnEntries(sheet, keys, n)[key] == Pair(sheet, Letters(c + 1));
    } else {
      assert key in m && ColumnEntries(sheet, keys, n)[key] == m[key];
      ColumnEntriesLastWins(sheet, keys, n - 1, key);
      var c :| 1 <= c < n - 1 && keys[c] == Some(key) && m[key] == Pair(sheet, Letters(c + 1)) &&
               forall c' | c < c' < n - 1 :: keys[c'] != Some(key);
      assert forall c' | c < c' < n :: keys[c'] != Some(key);
    }
  }

  /**
   * A key is in the index exactly when some sheet of the list contributes it,
   * and it maps to what the LAST sheet contributing it says.
   */
  lemma MoistureIndexLastWins(book: Book, key: string)
    ensures key in MoistureIndex(book) <==>
            exists i | 0 <= i < |book.sheets| :: key in SheetEntries(book, book.sheets[i].name)
    ensures key in MoistureIndex(book) ==>
            exists i | 0 <= i < |book.sheets| ::
              key in SheetEntries(book, book.sheets[i].name) &&
              MoistureIndex(book)[key] == SheetEntries(book, book.sheets[i].name)[key] &&
              forall j | i < j < |book.sheets| :: key !in SheetEntries(book, book.sheets[j].name)
  {
    MoistureIndexDomain(book, key);
    if key in MoistureIndex(book) {
      MoistureIndexLast(book, key);
    }
  }

  lemma MoistureIndexDomain(book: Book, key: string)
    ensures key in MoistureIndex(book) <==>
            exists i | 0 <= i < |book.sheets| :: key in SheetEntries(book, book.sheets[i].name)
  {
    var ms := AllSheetEntries(book);
    assert forall i | 0 <= i < |ms| :: ms[i] == SheetEntries(book, book.sheets[i].name);
    MergeDomain(ms, key);
  }

  lemma MoistureIndexLast(book: Book, key: string)
    requires key in MoistureIndex(book)
    ensures exists i | 0 <= i < |book.sheets| ::
              key in SheetEntries(book, book.sheets[i].name) &&
              MoistureIndex(book)[key] == SheetEntries(book, book.sheets[i].name)[key] &&
              forall j | i < j < |book.sheets| :: key !in SheetEntries(book, book.sheets[j].name)
  {
    var ms := AllSheetEntries(book);
    assert forall i | 0 <= i < |ms| :: ms[i] == SheetEntries(book, book.sheets[i].name);
    MergeLastWins(ms, key);
  }

  /** Every entry names a Moisture sheet and a column from B on. */
  lemma MoistureIndexValues(book: Book, key: string)
    requires key in MoistureIndex(book)
    ensures exists i, c | 0 <= i < |book.sheets| && 2 <= c ::
              IsMoistureSheet(book.sheets[i].name) &&
              MoistureIndex(book)[key] == Pair(book.sheets[i].name, Letters(c))
  {
    MoistureIndexLastWins(book, key);
    var i :| 0 <= i < |book.sheets| &&
             key in SheetEntries(book, book.sheets[i].name) &&
             MoistureIndex(book)[key] == SheetEntries(book, book.sheets[i].name)[key];
    var name := book.sheets[i].name;
    var rows := GetRows(book, name).value;
    var keys := ColumnKeys(rows[8], rows[9]);
    ColumnEntriesLastWins(name, keys, |keys|, key);
    var c :| 1 <= c < |keys| && ColumnEntries(name, keys, |keys|)[key] == Pair(name, Letters(c + 1));
    assert MoistureIndex(book)[key] == Pair(name, Letters(c + 1));
  }

  /** `GetSampleMapping`: the sheet and column of "boring|depth", or a miss. */
  function GetSampleMapping(index: map<string, string>, boring: string, depth: string): (r: (string, string, bool))
    ensures r.2 <==> Pair(boring, depth) in index && |Split(index[Pair(boring, depth)], '|')| == 2
    ensures r.2 ==> [r.0, r.1] == Split(index[Pair(boring, depth)], '|')
    ensures r.2 ==> Pair(r.0, r.1) == index[Pair(boring, depth)]
    ensures !r.2 ==> r.0 == "" && r.1 == ""
  {
    var key := Pair(boring, depth);
    if key !in index then ("", "", false)
    else
      var parts := Split(index[key], '|');
      if |parts| != 2 then ("", "", false)
      else
        PairOfSplit(index[key]);
        (parts[0], parts[1], true)
  }

  lemma NoBarInColumnName(s: string)
    requires IsColumnName(s)
    ensures '|' !in s
  {
  }

  /**
   * An entry of a sheet whose name has no bar in it is found again by
   * `GetSampleMapping`, split back into the sheet and the column letters.
   */
  lemma GetSampleMappingOfEntry(index: map<string, string>, boring: string, depth: string, sheet: string, c: nat)
    requires c >= 1 && '|' !in sheet
    requires Pair(boring, depth) in index && index[Pair(boring, depth)] == Pair(sheet, Letters(c))
    ensures GetSampleMapping(index, boring, depth) == (sheet, Letters(c), true)
  {
    NoBarInColumnName(Letters(c));
    SplitPair(sheet, Letters(c));
  }

  /** The cells a moisture sample fills in: rows 11 (can), 12 (wet weight and can) and 15 (can weight). */
  function MoistureCells(book: Book, sheet: string, col: string, canNo: string, wetWeight: string, canWeight: string): Book {
    var b1 := SetCellValue(book, sheet, col, "11", canNo);
    var b2 := SetCellValue(b1, sheet, col, "12", wetWeight);
    SetCellValue(b2, sheet, col, "15", canWeight)
  }

  lemma AddressOfRow(col: string, row: string, r: nat)
    requires IsColumnName(col) && ParseNat(row) == Some(r) && r >= 1
    ensures Address(col, row) == Some((r - 1, ColumnIndex(col) - 1))
  {
    LettersOfColumnIndex(col);
  }

  lemma RowAddresses(col: string)
    requires IsColumnName(col)
    ensures Address(col, "11") == Some((10, ColumnIndex(col) - 1))
    ensures Address(col, "12") == Some((11, ColumnIndex(col) - 1))
    ensures Address(col, "15") == Some((14, ColumnIndex(col) - 1))
  {
    ParseNatTwoDigits("11");
    AddressOfRow(col, "11", 11);
    ParseNatTwoDigits("12");
    AddressOfRow(col, "12", 12);
    ParseNatTwoDigits("15");
    AddressOfRow(col, "15", 15);
  }

  /**
   * Writing a moisture sample puts the can number in row 11, the wet weight in
   * row 12 and the can weight in row 15 of its column, and changes no other cell.
   */
  lemma MoistureCellsSpec(book: Book, sheet: string, col: string, canNo: string, wetWeight: string, canWeight: string,
                          sheet': string, col': string, row': string)
    requires FindSheet(book.sheets, sheet).Some? && IsColumnName(col)
    ensures GetCellValue(MoistureCells(book, sheet, col, canNo, wetWeight, canWeight), sheet', col', row') ==
            if sheet' == sheet && Address(col', row') == Address(col, "15") then canWeight
            else if sheet' == sheet && Address(col', row') == Address(col, "12") then wetWeight
            else if sheet' == sheet && Address(col', row') == Address(col, "11") then canNo
            else GetCellValue(book, sheet', col', row')
  {
    RowAddresses(col);
    var b1 := SetCellValue(book, sheet, col, "11", canNo);
    var b2 := SetCellValue(b1, sheet, col, "12", wetWeight);
    GetSetCellValue(book, sheet, col, "11", canNo, sheet', col', row');
    FindSheetSameNames(book.sheets, b1.sheets, sheet);
    GetSetCellValue(b1, sheet, col, "12", wetWeight, sheet', col', row');
    FindSheetSameNames(b1.sheets, b2.sheets, sheet);
    GetSetCellValue(b2, sheet, col, "15", canWeight, sheet', col', row');
  }

  /** One column of the inner loop: a column with both labels filled maps its key to its letter. */
  method AddColumnEntry(index: map<string, string>, sheetName: string, boringRow: Row, depthRow: Row, colIdx: nat)
    returns (index': map<string, string>)
    requires colIdx < |boringRow| && colIdx < |depthRow|
    ensures var key := ColumnKey(boringRow, depthRow, colIdx);
            index' == if key.Some? then index[key.value := Pair(sheetName, Letters(colIdx + 1))] else index
  {
    index' := index;
    var boring := TrimSpace(boringRow[colIdx]);
    var depth := TrimSpace(depthRow[colIdx]);
    if boring != "" && depth != "" {
      var colLetter := ColumnLetter(colIdx + 1);
      index' := index'[Pair(boring, depth) := Pair(sheetName, colLetter)];
    }
  }

  /** Taking one more column into the entries is `AddColumnEntry`'s update. */
  lemma ColumnEntriesSnoc(index: map<string, string>, sheetName: string, boringRow: Row, depthRow: Row, colIdx: nat)
    requires 1 <= colIdx < |boringRow| && colIdx < |depthRow|
    ensures var keys := ColumnKeys(boringRow, depthRow);
            var key := ColumnKey(boringRow, depthRow, colIdx);
            var m := index + ColumnEntries(sheetName, keys, colIdx);
            index + ColumnEntries(sheetName, keys, colIdx + 1) ==
            if key.Some? then m[key.value := Pair(sheetName, Letters(colIdx + 1))] else m
  {
    var keys := ColumnKeys(boringRow, depthRow);
    assert keys[colIdx] == ColumnKey(boringRow, depthRow, colIdx);
    ColumnEntriesStep(sheetName, keys, colIdx);
    if keys[colIdx].Some? {
      UnionUpdate(index, ColumnEntries(sheetName, keys, colIdx), keys[colIdx].value,
                  Pair(sheetName, Letters(colIdx + 1)));
    }
  }

  /** The inner loop of `InitMoistureTestFile`: the columns of one Moisture sheet. */
  method AddColumnEntries(index: map<string, string>, sheetName: string, boringRow: Row, depthRow: Row)
    returns (index': map<string, string>)
    ensures index' == index + ColumnEntries(sheetName, ColumnKeys(boringRow, depthRow), Min(|boringRow|, |depthRow|))
  {
    ghost var keys := ColumnKeys(boringRow, depthRow);
    index' := index;
    var colIdx := 1;
    while colIdx < |boringRow| && colIdx < |depthRow|
      invariant 1 <= colIdx
      invariant index' == index + ColumnEntries(sheetName, keys, Min(colIdx, |keys|))
      decreases |boringRow| - colIdx
    {
      ColumnEntriesSnoc(index, sheetName, boringRow, depthRow, colIdx);
      index' := AddColumnEntry(index', sheetName, boringRow, depthRow, colIdx);
      colIdx := colIdx + 1;
    }
  }

  /** The outer loop of `InitMoistureTestFile`: every Moisture sheet of the sheet list, in order. */
  method BuildMoistureIndex(book: Book) returns (index: map<string, string>)
    ensures index == MoistureIndex(book)
  {
    ghost var ms := AllSheetEntries(book);
    index := map[];
    var i := 0;
    while i < |book.sheets|
      invariant i <= |book.sheets|
      invariant index == Merge(ms[..i])
    {
      assert ms[..i + 1][..i] == ms[..i];
      var sheetName := book.sheets[i].name;
      if sheetName == "Moisture" || (HasPrefix(sheetName, "Moisture") && !Contains(sheetName, " ")) {
        var got := GetRows(book, sheetName);
        if got.Some? && |got.value| >= 10 {
          var rows := got.value;
          index := AddColumnEntries(index, sheetName, rows[8], rows[9]);
        }
      }
      i := i + 1;
    }
    assert ms[..i] == ms;
  }

  /** The Lab file of a job on disk: its read-only source and the working copy. */
  class MoistureTestWriter {
    const sampleColMap: map<string, string>
    const file: OpenBook

    constructor (file: OpenBook, index: map<string, string>)
      ensures this.file == file && sampleColMap == index
    {
      this.file := file;
      sampleColMap := index;
    }

    /**
     * `WriteMoistureSample`: an unmapped sample, or a mapping that does not
     * split into sheet and column, is an error that writes and saves nothing;
     * otherwise rows 11, 12 and 15 of the mapped column are written and the
     * workbook is saved (`saveOk` is whether that save succeeds).
     */
    method WriteMoistureSample(boring: string, depth: string, canNo: string, canWeight: string,
                               wetWeight: string, saveOk: bool) returns (err: Option<Error>)
      modifies file, file.disk
      ensures Pair(boring, depth) !in sampleColMap ==>
                err == Some(NoMapping(Pair(boring, depth))) &&
                file.book == old(file.book) && file.disk.contents == old(file.disk.contents)
      ensures Pair(boring, depth) in sampleColMap && |Split(sampleColMap[Pair(boring, depth)], '|')| != 2 ==>
                err == Some(InvalidMapping(Pair(boring, depth))) &&
                file.book == old(file.book) && file.disk.contents == old(file.disk.contents)
      ensures err.None? <==> GetSampleMapping(sampleColMap, boring, depth).2 && saveOk
      ensures GetSampleMapping(sampleColMap, boring, depth).2 ==>
                var (sheet, col, _) := GetSampleMapping(sampleColMap, boring, depth);
                file.book == MoistureCells(old(file.book), sheet, col, canNo, wetWeight, canWeight) &&
                err == (if saveOk then None else Some(IOFailure)) &&
                file.disk.contents == (if saveOk then Present(file.book) else old(file.disk.contents))
    {
      var key := Pair(boring, depth);
      if key !in sampleColMap {
        return Some(NoMapping(key));
      }
      var mapping := sampleColMap[key];
      var parts := Split(mapping, '|');
      if |parts| != 2 {
        return Some(InvalidMapping(key));
      }
      var sheetName := parts[0];
      var colLetter := parts[1];
      file.book := SetCellValue(file.book, sheetName, colLetter, "11", canNo);
      file.book := SetCellValue(file.book, sheetName, colLetter, "12", wetWeight);
      file.book := SetCellValue(file.book, sheetName, colLetter, "15", canWeight);
      err := file.Save(saveOk);
    }
  }

  /**
   * The working copy after `InitMoistureTestFile`'s copy step: a missing copy
   * becomes the lab file when that can be read and written (`copyOk`), and
   * stays missing otherwise; an existing copy is kept.
   */
  function WorkingCopy(dirOk: bool, source: FileState<Book>, working: FileState<Book>, copyOk: bool): FileState<Book> {
    if dirOk && working.Absent? then (if (source.Absent? || source.Unreadable?) || !copyOk then Absent else source)
    else working
  }

  /**
   * `InitMoistureTestFile`: make the job's working directory (`dirOk`), copy
   * the lab file into it when there is no working copy yet (`copyOk` is
   * whether writing the copy succeeds), open the working copy and index its
   * Moisture sheets.
   */
  method InitMoistureTestFile(dirOk: bool, source: FileState<Book>, working: BookFile, copyOk: bool)
    returns (r: Result<MoistureTestWriter>)
    modifies working
    ensures !dirOk ==> r == Err(IOFailure) && working.contents == old(working.contents)
    ensures dirOk && old(working.contents).Absent? ==>
              working.contents == (if (source.Absent? || source.Unreadable?) || !copyOk then Absent else source)
    ensures dirOk && !old(working.contents).Absent? ==> working.contents == old(working.contents)
    ensures r.Ok? <==> dirOk && working.contents.Present? &&
                       (old(working.contents).Absent? ==> copyOk && source.Present?)
    ensures working.contents == WorkingCopy(dirOk, source, old(working.contents), copyOk)
    ensures r.Ok? <==> dirOk && WorkingCopy(dirOk, source, old(working.contents), copyOk).Present?
    ensures r.Err? ==> r.error == IOFailure
    ensures r.Ok? ==> fresh(r.value) && fresh(r.value.file) &&
                      r.value.file.disk == working && r.value.file.book == working.contents.value &&
                      r.value.sampleColMap == MoistureIndex(working.contents.value)
  {
    if !dirOk {
      return Err(IOFailure);
    }
    if working.contents.Absent? {
      if source.Absent? || source.Unreadable? {
        return Err(IOFailure);
      }
      if !copyOk {
        return Err(IOFailure);
      }
      working.contents := source;
    }
    if !working.contents.Present? {
      return Err(IOFailure);
    }
    var book := working.contents.value;
    var file := new OpenBook(working, book);
    var index := BuildMoistureIndex(book);
    var writer := new MoistureTestWriter(file, index);
    return Ok(writer);
  }

  /** The four figures `WriteDryWeightToMoistureSheet` writes to rows 13, 14, 16 and 17. */
  datatype DryWeightCalc = DryWeightCalc(dryWtAndCan: real, wtOfWater: real, dryWtOfSoil: real, moistureContent: real)

  /**
   * The moisture figures from the wet weight with can, the can weight and the
   * dry weight with can: the water lost, the dry soil, and the water as a
   * percentage of the dry soil (0 when there is no dry soil).
   */
  function MoistureCalculation(wetWtAndCan: real, wtOfCan: real, dryWtAndCan: real): (c: DryWeightCalc)
    ensures c.dryWtAndCan == dryWtAndCan
    ensures c.wtOfWater + c.dryWtOfSoil == wetWtAndCan - wtOfCan
    ensures c.dryWtOfSoil + wtOfCan == dryWtAndCan
    ensures c.dryWtOfSoil > 0.0 ==> c.moistureContent * c.dryWtOfSoil == 100.0 * c.wtOfWater
    ensures c.dryWtOfSoil <= 0.0 ==> c.moistureContent == 0.0
  {
    var wtOfWater := wetWtAndCan - dryWtAndCan;
    var dryWtOfSoil := dryWtAndCan - wtOfCan;
    var moistureContent := if dryWtOfSoil > 0.0 then (wtOfWater / dryWtOfSoil) * 100.0 else 0.0;
    DryWeightCalc(dryWtAndCan, wtOfWater, dryWtOfSoil, moistureContent)
  }

  /**
   * A can that lost no weight below its dry weight, dried above its tare,
   * has a moisture content between 0 and the wet-to-dry excess over the dry
   * soil; in particular the content is never negative.
   */
  lemma MoistureContentNonNegative(wetWtAndCan: real, wtOfCan: real, dryWtAndCan: real)
    requires wtOfCan < dryWtAndCan <= wetWtAndCan
    ensures MoistureCalculation(wetWtAndCan, wtOfCan, dryWtAndCan).moistureContent >= 0.0
    ensures wetWtAndCan == dryWtAndCan ==> MoistureCalculation(wetWtAndCan, wtOfCan, dryWtAndCan).moistureContent == 0.0
  {
    var c := MoistureCalculation(wetWtAndCan, wtOfCan, dryWtAndCan);
    assert c.dryWtOfSoil > 0.0 && c.wtOfWater >= 0.0;
  }

  /** The dry-weight cells of a can's column: rows 13, 14, 16 and 17, each number shown by `show`. */
  function DryWeightCells(book: Book, sheet: string, col: string, c: DryWeightCalc, show: real -> string): Book {
    var b1 := SetCellValue(book, sheet, col, "13", show(c.dryWtAndCan));
    var b2 := SetCellValue(b1, sheet, col, "14", show(c.wtOfWater));
    var b3 := SetCellValue(b2, sheet, col, "16", show(c.dryWtOfSoil));
    SetCellValue(b3, sheet, col, "17", show(c.moistureContent))
  }

  /** The figures for a can of a lab book: rows 12 and 15 read back and scanned, and the entered dry weight. */
  function DryWeightFigures(book: Book, sheet: string, col: string, dryWeight: string, scan: string -> real)
    : DryWeightCalc
  {
    MoistureCalculation(scan(GetCellValue(book, sheet, col, "12")), scan(GetCellValue(book, sheet, col, "15")),
                        scan(dryWeight))
  }

  /**
   * `WriteDryWeightToMoistureSheet`: open the job's lab file (a file that is
   * not there or does not open is an error), read the wet weight with can
   * (row 12) and the can weight (row 15) of the can's column, compute the
   * figures with the entered dry weight and write them, then save
   * (`saveOk`). `scan` is what `fmt.Sscanf` with `%f` makes of a cell text
   * (0 when it does not scan) and `show` how a number is stored in a cell.
   */
  method WriteDryWeightToMoistureSheet(lab: BookFile, sheet: string, col: string, dryWeight: string,
                                       scan: string -> real, show: real -> string, saveOk: bool)
    returns (err: Option<Error>)
    modifies lab
    ensures !old(lab.contents).Present? ==> err == Some(IOFailure) && unchanged(lab)
    ensures err.Some? ==> unchanged(lab)
    ensures old(lab.contents).Present? ==>
              var book := old(lab.contents).value;
              err == (if saveOk then None else Some(IOFailure)) &&
              lab.contents == if saveOk
                              then Present(DryWeightCells(book, sheet, col,
                                                          DryWeightFigures(book, sheet, col, dryWeight, scan), show))
                              else old(lab.contents)
  {
    if !lab.contents.Present? {
      return Some(IOFailure);
    }
    var f := new OpenBook(lab, lab.contents.value);
    var wetWtAndCanStr := GetCellValue(f.book, sheet, col, "12");
    var wtOfCanStr := GetCellValue(f.book, sheet, col, "15");
    var c := MoistureCalculation(scan(wetWtAndCanStr), scan(wtOfCanStr), scan(dryWeight));
    f.book := SetCellValue(f.book, sheet, col, "13", show(c.dryWtAndCan));
    f.book := SetCellValue(f.book, sheet, col, "14", show(c.wtOfWater));
    f.book := SetCellValue(f.book, sheet, col, "16", show(c.dryWtOfSoil));
    f.book := SetCellValue(f.book, sheet, col, "17", show(c.moistureContent));
    err := f.Save(saveOk);
  }
}
