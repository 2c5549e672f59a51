# lms-tui: a verified model of sample capture and the lab workbooks

lms-tui is a terminal program that lab technicians use to record soil
samples for a job. This project models its core in Dafny and proves
properties of the model. The core covers:

- **Reading the job's lab file.** `ExcelToJSON` turns the first sheet of
  `Lab_<job>.xlsm` into the job header and its samples. Each sample has a
  boring, a depth and the tests marked with an "x". A continuation row
  inherits the nearest boring above it.
- **The working copy and its two indexes.** `InitMoistureTestFile` copies
  the lab file into the job's working directory. It then maps every
  "boring|depth" to a "sheet|column" of the Moisture sheets.
  `InitSoilSuctionFile` maps every "boring|depth" to a "sheet|row" of the
  Soil Suction sheets. It also opens or creates the soil suction export, a
  separate workbook whose pages hold 37 sample rows each.
- **The writers.**
  - `WriteMoistureSample` fills rows 11, 12 and 15 of the sample's Moisture
    column.
  - `WriteSoilSuctionSample` fills column D of the sample's Soil Suction
    row, then appends a row to the export and rolls over to a new page when
    the current one is full.
  - `WriteDryWeightToMoistureSheet` fills in rows 13, 14, 16 and 17 from
    the dry weight.
- **The JSON files.**
  - The per-job backup log (`backup.json`) gets one record per capture.
  - The progress file (`progress.json`) holds the index of the next
    sample.
  - The shared oven ledger (`oven_tracking.json`) lists the moisture cans
    drying overnight.
- **The screens.**
  - The pull sample screen is the capture session. It validates the fields,
    refuses duplicate cans, writes everywhere, advances and shows progress.
    It can also edit the last capture.
  - The morning count screen takes the dry weights of the cans in the oven.
  - The edit samples screen rewrites any record of the log.
  - The job detail screen filters empty rows and columns and shows the
    tests.

## How the model is organised

Each module models one component. A Go function that only computes becomes
a Dafny function, and the lemmas beside it state what its result means. Go
code that loops or updates state becomes a method with loop invariants,
proved against a specification function. Objects that the code mutates
become classes:

- the two workbook writers;
- an open workbook and its file;
- the capture session;
- the morning count screen;
- the edit samples screen.

A file on disk is an object whose `contents` is `Absent`, `Unreadable`,
`Corrupt` or `Present(value)`. Whether a write succeeds is a boolean
parameter. The clock (`time.Now`) and `$USER` are string parameters.

| file | module | models |
|---|---|---|
| wrappers.dfy | Wrappers | Option, Result, error kinds, stored JSON files |
| gostrings.dfy | GoStrings | `strings.TrimSpace`, `HasPrefix`, `Contains`, `Join`, `Split`, `%d` |
| columns.dfy | Columns | `getColumnLetter` and its inverse |
| workbook.dfy | Workbook | sheets, rows and cells; `GetRows`, `SetCellValue`, `GetCellValue`, `NewSheet`, `Save` |
| sheetindex.dfy | SheetIndex | maps merged in sheet order, a later sheet overriding |
| labsheet.dfy | LabSheet | `ExcelToJSON` |
| moisture.dfy | Moisture | the moisture writer and `WriteDryWeightToMoistureSheet` |
| suction.dfy | Suction | the soil suction writer and its export |
| oven.dfy | Oven | the oven ledger |
| persistence.dfy | Persistence | the backup log and the progress file |
| pullsample.dfy | PullSample | the pull sample screen |
| morningcount.dfy | MorningCount | the morning count screen |
| editsamples.dfy | EditSamples | the edit samples screen |
| jobdetail.dfy | JobDetail | the job detail screen's helpers |

## Model

| member | source | states |
|---|---|---|
| LabSheet.ExcelToJSON | pkg/file-management.go:37-144 | A lab file that cannot be opened, or whose first sheet cannot be read, is an error. Otherwise the result is the rows scanned and the borings filled (`Parse`). |
| LabSheet.ReadRows | pkg/file-management.go:57-122 | The row loop computes `Scan` of all the rows: the header fields and the samples in sheet order. |
| LabSheet.ReadRow | pkg/file-management.go:58-120 | One row sets the job number, the project name with the engineer and date, or the due date; or it adds a sample; or it adds nothing. This matches `Step`, with the same guards (`len(row) > 2`, `> 5`, `> 9`, `rowIdx > 6`). |
| LabSheet.Scan | pkg/file-management.go:57-122 | Every scanned sample has a non-empty depth, and its boring is either empty or starts with "B-". The sample count equals the number of samples. |
| LabSheet.ScanSamples | pkg/file-management.go:78-119 | The samples are exactly the sample rows that have a depth, in order, each read by `SampleOf`. |
| LabSheet.CollectTests | pkg/file-management.go:95-113 | The test loop returns `Tests(row)`: the names of the marked columns 2, 3, 4, 5, 6, 7 and 9. |
| LabSheet.TestsMarked | pkg/file-management.go:107-113 | A test name is listed if and only if its column holds "x" once trimmed. |
| LabSheet.TestsOrdered | pkg/file-management.go:107-113 | The listed tests appear at most once each, in the order of their columns. |
| LabSheet.FillBorings | pkg/file-management.go:124-132 | The in-place fill leaves the array equal to `Filled(old contents)`. |
| LabSheet.FilledSpec | pkg/file-management.go:124-132 | An explicit boring is kept. A blank boring gets the nearest explicit boring above it, or "" when there is none. The depth and tests are unchanged. |
| LabSheet.NearestBoringFilled | pkg/file-management.go:124-132 | The nearest explicit boring above a position is the same before and after filling. |
| LabSheet.FilledIdempotent | pkg/file-management.go:124-132 | Filling twice gives the same result as filling once. |
| Columns.ColumnLetter | pkg/file-management.go:347-355 | The loop returns `Letters(colIdx)`, the bijective base-26 name of the column, and "" for 0 or less. |
| Columns.ColumnIndexOfLetters | pkg/file-management.go:347-355 | Decoding the name of column n gives back n. |
| Columns.LettersOfColumnIndex | pkg/file-management.go:347-355 | Every non-empty capital-letter name is the name of the column it decodes to. |
| Columns.LettersInjective | pkg/file-management.go:347-355 | Distinct columns have distinct names. |
| Columns.LettersExamples | pkg/file-management.go:347-355 | 1 is "A", 2 is "B", 26 is "Z", 27 is "AA", 52 is "AZ", 702 is "ZZ" and 703 is "AAA". |
| GoStrings.TrimSpaceSpec | ui/pull-sample-screen.go:338-346 | A trimmed field is empty if and only if the raw field is all white space. A non-empty one neither starts nor ends with white space. |
| GoStrings.TrimSpaceExamples | ui/pull-sample-screen.go:338-346 | Trimming removes Unicode white space as well as ASCII: an ideographic space alone trims to "", and an em space and a no-break space around "B-1" go. Inner spaces stay. |
| Moisture.BuildMoistureIndex | pkg/file-management.go:312-340 | The sheet loop builds `MoistureIndex(book)`. Only Moisture sheets that can be read and have at least 10 rows contribute. |
| Moisture.AddColumnEntries | pkg/file-management.go:327-337 | The column loop adds `ColumnEntries` for every column from B that both label rows reach. |
| Moisture.AddColumnEntry | pkg/file-management.go:328-336 | A column whose boring and depth are both non-blank maps their key to the sheet and the column's letter. Any other column adds nothing. |
| Moisture.ColumnEntriesDomain | pkg/file-management.go:327-337 | A key is in a sheet's entries if and only if some column carries it. |
| Moisture.ColumnEntriesLastWins | pkg/file-management.go:327-337 | A key maps to the letter of the last column that carries it. |
| Moisture.MoistureIndexLastWins | pkg/file-management.go:312-340 | A key is in the index if and only if some sheet contributes it. It maps to the value from the last sheet that contributes it. |
| Moisture.MoistureIndexValues | pkg/file-management.go:315-334 | Every value of the index names a Moisture sheet and the letter of a column from B on. |
| Moisture.GetSampleMapping | pkg/file-management.go:410-423 | The sheet and column are found if and only if the key is mapped and its value splits into two parts at the bar. They are then those two parts, in order; on a miss both are empty. |
| Moisture.GetSampleMappingOfEntry | pkg/file-management.go:410-423 | An entry of a sheet whose name has no bar is found again, split back into that sheet and the column letters. |
| Moisture.MoistureCellsSpec | pkg/file-management.go:380-382 | Writing a sample puts the can number in row 11, the wet weight in row 12 and the can weight in row 15 of its column. It changes no other cell. |
| Moisture.MoistureTestWriter.WriteMoistureSample | pkg/file-management.go:358-394 | An unmapped sample, or a mapping without exactly one bar, is an error and nothing changes. Otherwise the three cells are written and the book saved. A failed save leaves the disk as it was. |
| Moisture.InitMoistureTestFile | pkg/file-management.go:267-344 | Each of these is an error: a failed mkdir, a missing working copy whose source cannot be read or copied, or a working copy that cannot be opened. Otherwise the writer holds the working copy and `MoistureIndex` of it. |
| Moisture.MoistureCalculation | pkg/file-management.go:1183-1189 | The water and the dry soil add up to wet minus can. The dry soil plus the can is the dry weight. The moisture content is 100 × water / dry soil, or 0 when there is no dry soil. |
| Moisture.MoistureContentNonNegative | pkg/file-management.go:1183-1189 | If the dry weight lies above the can weight and at or below the wet weight, the moisture content is never negative. It is 0 when nothing was lost. |
| Moisture.WriteDryWeightToMoistureSheet | pkg/file-management.go:1159-1210 | A lab file that is missing or does not open is an error and nothing changes. Otherwise rows 13, 14, 16 and 17 get the figures computed from rows 12 and 15 and the dry weight, and the book is saved. |
| Suction.BuildSuctionIndex | pkg/file-management.go:831-860 | The sheet loop builds `SuctionIndex(book)` from every Soil Suction sheet that can be read. |
| Suction.AddRowEntries | pkg/file-management.go:842-857 | The row loop maps every row from row 10 whose B and C are both non-blank to "sheet\|row number". |
| Suction.RowEntriesDomain | pkg/file-management.go:842-857 | A key is in a sheet's entries if and only if some row from row 10 on carries it. |
| Suction.RowEntriesLastWins | pkg/file-management.go:842-857 | A key maps to the number of the last row that carries it. |
| Suction.SuctionIndexLastWins | pkg/file-management.go:831-860 | A key is in the index if and only if some sheet contributes it. It maps to the value from the last sheet that contributes it. |
| Suction.SuctionIndexValues | pkg/file-management.go:834-853 | Every value of the index names a Soil Suction sheet and a row from 10 on. |
| Suction.RowMappingRoundTrip | pkg/file-management.go:869-881 | An entry of a sheet whose name has no bar splits back into that sheet and the row number, and the cell written is column D of that row. |
| Suction.WritePosition | pkg/file-management.go:898-953 | In a session where every save succeeds, write k (counting from 0) lands on page 1 + k / 37 at row 2 + k % 37. |
| Suction.FirstPages | pkg/file-management.go:898-953 | Writes 0 to 36 land on rows 2 to 38 of page 1. Write 37 lands on row 2 of page 2. |
| Suction.PageNameInjective | pkg/file-management.go:899-933 | Distinct page numbers give distinct page names. |
| Suction.NewPageHeaders | pkg/file-management.go:903-911 | A new page carries "Date", "Boring", "Depth", "Can No", "Top", "Bottom", "Top", "Bottom" in A1 to H1. |
| Suction.NewPageShape | pkg/file-management.go:898-925 | A new page with a name not yet used is one more sheet at the end, holding only its header row. |
| Suction.ExportRowCells | pkg/file-management.go:937-940 | The sample row sets columns A to D of its row and no other cell. |
| Suction.ExportWriteCells | pkg/file-management.go:896-953 | After a write, the date, boring, depth and can number read back from columns A to D of the row the write rolled to. |
| Suction.ExportWriteConsistent | pkg/file-management.go:896-953 | A write keeps the export consistent with the advanced cursor: pages named in order, and the cursor just past the rows of the last page. |
| Suction.FreshConsistent | pkg/file-management.go:760-802 | A freshly created export is consistent with the starting cursor (page 1, row 2). |
| Suction.ReopenMatchesSession | pkg/file-management.go:803-829 | Reopening an export gives the cursor that the writing session had, rolled over when full. |
| Suction.ReopenFullPageLosesRow | pkg/file-management.go:821-826 | See Findings. After reopening an export whose last page is full, the next write changes nothing. An uninterrupted session would have written the row on a new page. |
| Suction.FullFirstPage | pkg/file-management.go:821-826 | A one-page export holding its header and 37 samples is consistent with a full cursor, so the previous lemma applies to it. |
| Suction.ResumeRepairedMatchesSession | pkg/file-management.go:803-829 | With the corrected reopen, the export is consistent again. The next write leaves the same document and cursor as an uninterrupted session would. |
| Suction.SoilSuctionWriter.WriteSoilSuctionSample | pkg/file-management.go:867-963 | An unmapped sample, or a mapping without exactly one bar, is an error and nothing changes. Otherwise column D of the mapped row is written and the lab file saved. A failed save ends the call. Otherwise comes the export write (`ExportWrite`); the cursor advances only when the export is saved. |
| Suction.SoilSuctionWriter.WriteExport | pkg/file-management.go:896-953 | The export becomes `ExportWrite` of the old export and cursor. The disk is written only on a successful save. The cursor is advanced on success and rolled on failure. |
| Suction.InitSoilSuctionFile | pkg/file-management.go:744-864 | With no export on disk, one is created holding page 1 and its header; a failed create is an error. An export that cannot be read is an error. An existing export gets its cursor back (with the corrected reopen). The index is `SuctionIndex` of the shared lab book. |
| Suction.SuctionRewriteSpec | ui/pull-sample-screen.go:827-839 | A repeated suction write changes nothing when the export cannot be opened. Otherwise only column D of the sample's Soil Suction row changes in the lab workbook, and it then holds the can number. The lab file is saved exactly when the sample is mapped and that save succeeds. The export gets the row at the opened cursor exactly when both saves succeed. |
| Oven.SaveOvenTracking | pkg/file-management.go:1025-1043 | The ledger is stamped with the current time and written. A failed write leaves the file as it was. A successful one reads back, at any later time, as the same records and the same count. |
| Oven.AddCanToOven | pkg/file-management.go:1046-1080 | A ledger that does not load, or that already holds the can, is an error and nothing changes. Otherwise the stamped record is appended and the ledger saved. |
| Oven.AddedLedgerHolds | pkg/file-management.go:1046-1080 | When the ledger loads and the save succeeds, the added can is in the ledger afterwards, and a ledger without repeats stays without repeats. |
| Oven.AddKeepsUnique | pkg/file-management.go:1052-1071 | Appending a can that is not yet present keeps the can numbers unique. |
| Oven.Partition | pkg/file-management.go:1089-1098 | The loop of `RemoveCanFromOven` keeps `Without(cans, n)` and returns the last record carrying n. |
| Oven.RemoveCanFromOven | pkg/file-management.go:1083-1115 | A ledger that does not load, or that does not hold the can, is an error and nothing changes. Otherwise every record of the can is dropped, the others keep their order, and the ledger is saved. The dropped record is returned. |
| Oven.LastMatchSpec | pkg/file-management.go:1092-1103 | A record is returned if and only if the can is in the oven, and it is a record of that can. |
| Oven.WithoutMembers | pkg/file-management.go:1092-1098 | A record survives removal if and only if it was in the ledger and belongs to another can. |
| Oven.WithoutOrder | pkg/file-management.go:1092-1098 | Two surviving records keep their relative order. |
| Oven.RemovedLeavesNone | pkg/file-management.go:1092-1105 | After removal no record of the can remains, and the ledger is shorter. |
| Oven.RemoveCount | pkg/file-management.go:1092-1105 | In a ledger without repeats, removal shortens it by exactly one. |
| Oven.RemoveKeepsUnique | pkg/file-management.go:1092-1105 | Removal keeps the can numbers unique. |
| Oven.IsCanInOven | pkg/file-management.go:1126-1139 | The result is true if and only if the can is in the ledger. It comes with a record of that can. |
| Oven.AddThenQuery | pkg/file-management.go:1046-1148 | After an add, the can is reported in the oven with the added record, and the count has grown by one. |
| Oven.RemoveThenQuery | pkg/file-management.go:1083-1148 | After a removal from a ledger without repeats, the can is not reported, and the count has dropped by one. |
| Persistence.SaveSampleBackup | pkg/file-management.go:453-510 | A failed mkdir or a failed write is an error and leaves the file as it was. Otherwise the log (or a fresh one, if the stored log does not read or decode) gets the record appended, recounted and stamped. |
| Persistence.AppendedSpec | pkg/file-management.go:491-494 | Appending keeps every earlier record, puts the new one last, and makes the count equal the number of records. |
| Persistence.RestartedLog | pkg/file-management.go:462-477 | A missing, unreadable or corrupt log is replaced by a log holding only the new record. |
| Persistence.SaveProgress | pkg/file-management.go:513-540 | A failed mkdir or a failed write is an error. Otherwise the index is written with the user, and `LoadProgress` reads it back. |
| Persistence.FirstRecordSpec | ui/pull-sample-screen.go:794-804 | The first record of the boring and depth: none if and only if no record matches, otherwise a matching one with no match before it. |
| Persistence.EditAt | ui/edit-samples-screen.go:153-158 | Editing record i changes only record i, and only in its four measurement fields. |
| PullSample.ResumeAfterSave | ui/pull-sample-screen.go:52-58 | A session resumes at the index last saved. A job never started begins at 0. |
| PullSample.GetCurrentSampleInfo | ui/pull-sample-screen.go:81-98 | The method equals `CurrentSampleInfo`: the current sample's boring and depth with its two flags, or "-" past the end. |
| PullSample.ClassifyTests | ui/pull-sample-screen.go:87-94 | `hasSuction` holds if and only if some test contains "Soil Suction". `hasOtherTests` holds if and only if some test fails the code's two-part condition. |
| PullSample.CurrentSampleInfoSpec | ui/pull-sample-screen.go:81-98 | The flags mean that some test mentions "Soil Suction", and that some test mentions neither "Soil Suction" nor "Moisture". |
| PullSample.OtherTestMeans | ui/pull-sample-screen.go:90 | The "Moisture Content" half of the condition adds nothing, because such a name also contains "Moisture". |
| PullSample.ProgressBar | ui/pull-sample-screen.go:150-175 | The loop draws `ProgressBarText`: the bar with its percentage, or the full bar at 100% once every sample is done. |
| PullSample.DrawCells | ui/pull-sample-screen.go:162-168 | Twenty cells, of which the first `filledLength` are full. |
| PullSample.ProgressBounds | ui/pull-sample-screen.go:153-160 | While samples remain, the percentage is below 100, the cap never applies, and there is one full cell per 5 percent. |
| PullSample.ProgressMonotone | ui/pull-sample-screen.go:153-160 | The percentage and the filled cells never decrease as the cursor advances. |
| PullSample.CompleteBarIsFull | ui/pull-sample-screen.go:172-175 | The completion bar is twenty full cells followed by "100%". |
| PullSample.ValidateSpec | ui/pull-sample-screen.go:347-437 | A capture passes validation if and only if every required field is filled, both weights parse, and Go's `wet <= can` is false. With finite weights that means wet exceeds can, an accepted sample weighs at least 100 g, and a lighter one needs the override. A NaN or infinite weight that passes the comparison is accepted outright. |
| PullSample.ValidateOrder | ui/pull-sample-screen.go:347-369 | The first missing field is the one reported, in the order Can #, Can Weight, Wet Weight, Suction Can #. |
| PullSample.NaNWetWeightAccepted | ui/pull-sample-screen.go:372-395 | A wet weight typed as "NaN", with the other fields filled, passes every check and is accepted as a full-weight sample. |
| PullSample.DuplicateCheckSpec | ui/pull-sample-screen.go:229-251 | With checking on, a capture is refused if and only if the moisture can was used this session, or is in the oven, or the suction can was used. The checks run in that order. |
| PullSample.UsedCanRefused | ui/pull-sample-screen.go:229-260 | A can that was accepted once is refused the next time it is offered in the same session. |
| PullSample.StartSession | ui/pull-sample-screen.go:16-61 | The samples come from the lab file, or there are none if it does not load. The working copy is `WorkingCopy`. The moisture writer exists exactly when the copy opens, and the suction writer exactly when the export is present or can be created. The cursor is `ResumeIndex`. |
| PullSample.CaptureSession.SaveSample | ui/pull-sample-screen.go:332-440 | Once every sample is captured, nothing happens. A refusal or a cancelled override changes nothing. A valid entry, or an underweight entry with the override, goes on to `continueSaveSample` (`Continued`): the duplicate checks decide a refusal, and otherwise the entry is captured with all of `Commit`'s effects. A capture advances the cursor by one. |
| PullSample.CaptureSession.ContinueSaveSample | ui/pull-sample-screen.go:228-329 | `Continued`: a duplicate is refused and nothing changes. Otherwise the cans are marked used and the sample is recorded, along with the log record, the progress, the oven record (when the sample is mapped) and the cursor. |
| PullSample.CaptureSession.Commit | ui/pull-sample-screen.go:254-313 | The cursor advances and the capture is remembered, even when a writer fails. The log, the progress file and the ledger each hold their update exactly when their write succeeds. |
| PullSample.CaptureSession.RecordSample | ui/pull-sample-screen.go:278-296 | The log gets the record. The ledger gets the can only when the sample is mapped. |
| PullSample.CaptureSession.WriteWorkbooks | ui/pull-sample-screen.go:262-276 | Without a suction writer or a suction can, the export is untouched. |
| PullSample.EditedLastLogSpec | ui/pull-sample-screen.go:783-810 | The edit succeeds if and only if the log is stored and holds a record of the sample. Then only the first such record changes, and only in its measurements. |
| PullSample.UpdateFirstMatch | ui/pull-sample-screen.go:792-804 | The loop edits the first matching record, and reports whether there was one. |
| PullSample.CaptureSession.EditLast | ui/pull-sample-screen.go:760-848 | Blank fields are refused. A load, lookup or write failure of the log is reported and ends the action. The moisture cells are rewritten; with a suction can, the lab workbook, the lab file and the export then become `SuctionRewrite` of them. The remembered capture changes only when the whole edit succeeds. The cursor and the used cans never change. |
| PullSample.CaptureSession.RewriteLog | ui/pull-sample-screen.go:783-817 | The log becomes `EditedLastLog` when that succeeds and the write succeeds. Otherwise the first error is returned and the log is unchanged. |
| PullSample.CaptureSession.RewriteWorkbooks | ui/pull-sample-screen.go:819-839 | The edit succeeds if and only if the sample is mapped and the save succeeds; a failure leaves the export alone. On success without a suction can, the workbook and its file hold the three new moisture cells and the export is untouched. With one, the workbook, its file and the export are `SuctionRewrite` of the saved moisture cells and the old export. |
| Suction.RewriteSuctionSample | ui/pull-sample-screen.go:827-839 | The lab workbook, the lab file and the export become `SuctionRewrite` of their old values. When the export can neither be opened nor created, none of them changes. |
| MorningCount.MorningCountScreen.constructor | ui/morning-count-screen.go:16-21 | The list holds the ledger's cans, or none when the ledger does not load. The count starts at 0. |
| MorningCount.FindCan | ui/morning-count-screen.go:113-125 | The loop finds `FirstMatch`, the first listed record of the can. |
| MorningCount.KeepOtherCans | ui/morning-count-screen.go:142-149 | The loop keeps `Without(cans, n)`: the other cans, in order. |
| MorningCount.MorningCountScreen.SaveDryWeight | ui/morning-count-screen.go:96-163 | Error checks come in order: missing Can #, missing dry weight, a can not on the list, a failed lab write. Each leaves the list, the count, the ledger and every lab file unchanged. On success: the first listed record's column gets the dry-weight figures, no other job's lab file changes, the can leaves the ledger and the list, and the count rises by one. |
| MorningCount.MorningCountScreen.Complete | ui/morning-count-screen.go:134-158 | After a successful write: the ledger becomes `RemovedLedger` of the can, the list becomes `Without` the can, and the count rises by one. |
| MorningCount.SavedCanLeavesList | ui/morning-count-screen.go:113-149 | The saved record carries the number. Afterwards no record of it is listed, and the list is shorter. |
| MorningCount.RepeatedCanGoesWhole | ui/morning-count-screen.go:113-149 | With a can number listed twice, the dry weight goes to the first record only, yet every record of it leaves the list. |
| EditSamples.OpenEditSamples | ui/edit-samples-screen.go:18-43 | A log that does not load, or that holds no record, shows a message. Otherwise the screen opens on the loaded log. |
| EditSamples.SelectedIndex | ui/edit-samples-screen.go:93-98 | Row 0 is the header. Row k selects record k - 1 when that record exists. |
| EditSamples.EditSamplesScreen.SaveEdit | ui/edit-samples-screen.go:133-215 | Blank fields are refused and nothing changes. Otherwise the edit is applied in memory first, then written to the log and the working copy. The first failure ends the action, and success requires all of these. On success the working copy holds the new moisture cells; with a suction can, the working copy and the export are `SuctionRewrite` of them. |
| EditSamples.RewriteLabFiles | ui/edit-samples-screen.go:167-195 | The moisture half succeeds if and only if the working copy opens, the sample is mapped and the save succeeds; a failure leaves the export alone. On success without a suction can, the copy holds the three new cells. With one, the copy and the export are `SuctionRewrite` of the saved cells and the old export. |
| EditSamples.SavedEditReloads | ui/edit-samples-screen.go:153-165 | A saved edit reads back with the new measurements in that record and every other record unchanged. |
| JobDetail.FindNonEmptyColumns | ui/job-detail-screen.go:15-43 | The method computes `ContentColumns` up to the longest row's length. |
| JobDetail.LongestRow | ui/job-detail-screen.go:20-26 | The loop finds the length of the longest row. |
| JobDetail.ColumnScan | ui/job-detail-screen.go:31-37 | The result is true if and only if some row has a non-blank cell in the column. |
| JobDetail.NonEmptyColumnsSpec | ui/job-detail-screen.go:15-43 | The columns are strictly increasing and below the longest row's length. A column is listed if and only if some row has a non-blank cell in it. |
| JobDetail.FilterEmptyRows | ui/job-detail-screen.go:46-61 | The loop computes `ContentRows`. |
| JobDetail.RowScan | ui/job-detail-screen.go:49-55 | The result is true if and only if the row has a non-blank cell. |
| JobDetail.ContentRowsSpec | ui/job-detail-screen.go:46-61 | A row is kept if and only if it has a non-blank cell, and the result is no longer than the input. |
| JobDetail.ContentRowsAppend | ui/job-detail-screen.go:46-61 | Filtering works row by row, so kept rows stay in their order. |
| JobDetail.ContentRowsIdempotent | ui/job-detail-screen.go:46-61 | Filtering twice gives the same result as filtering once. |
| JobDetail.TestsDisplayDash | ui/job-detail-screen.go:111-115 | A sample without tests shows "-". Otherwise it shows the tests joined by ", ". |

## Where the model follows the code over its documented behaviour

The model does what the code does. It differs from the program's written
description in these places:

- **Malformed oven ledger.** A ledger file that does not decode is an
  error for every oven operation. It is not reset.
- **Editing the last capture.** The edit rewrites the first record in the
  log with that boring and depth, not the most recent one.
- **Failed writes during a capture.** The cursor, the progress file and the
  used-can sets move on even when a writer fails. Those errors are only
  logged.
- **`RemoveCanFromOven`.** It returns the last matching record.
- **Reopening the export.** When the last page cannot be read, it counts as
  having no rows. The next write then lands in row 1, over the header.
- **Failed edit on the edit samples screen.** The edit stays in memory when
  a later write fails.
- **Weights that are not numbers.** `strconv.ParseFloat` accepts "NaN",
  "Inf" and "Infinity". A NaN wet weight passes the `<=` check, and the
  sample weight NaN is not below 100, so the capture is accepted
  (`PullSample.NaNWetWeightAccepted`).
- **Repeated suction rows.** Editing the last capture with a suction can, or
  editing a record with one, appends another row to the soil suction
  export.

## Left out

- Rendering, colours, layout, key bindings and modal navigation of every
  screen. The sample timer of the pull sample screen, and the
  time formats, are left out as well.
- Floating point. `strconv.ParseFloat` results are `Option<Float64>`
  parameters of the validation. A `Float64` is a finite value, NaN or an
  infinity, with Go's comparisons and subtraction on the specials. Finite
  values are exact reals, so rounding and overflow to infinity are not
  modelled. `fmt.Sscanf` and the formatting of the dry weight figures are
  `scan`/`show` parameters, and that arithmetic is exact as well.
- File system, JSON encoding and excelize:
  - A file is a value with four states, and each write's success is a
    boolean parameter.
  - Styles and column widths of the export are not modelled.
  - `SetCellValue` writes text.
  - The order of `GetSheetList` is the order of the sheet list.
- `Close`, `GetFile`, `GetProjectPath`, `GetExcelFile`, `LogExcelData`,
  `DiscoverJobs`, `extractJobInfoFromExcel`, `parseExcelDate` and
  `GetOvenTrackingFilePath` are outside the modelled core. They are I/O
  helpers and job discovery.
- `LoadBackupData` and `SaveBackupDataToFile` are called by the screens but
  defined in a file that is not part of this model. They are modelled as
  "a present log loads, any other state is an error" and as a plain write.
- The completion screen's menu (ui/pull-sample-screen.go:905) is not
  modelled. Its print items are placeholders.
- Inputs that are parameters:
  - `pkg.CheckDuplicateCans` (configuration) is the `checkDuplicates`
    parameter.
  - The clock is the `now`/`date` string parameters.
  - `$USER` is the `user` parameter.
  - `SaveSampleBackup` reads the clock twice (record stamp and log stamp);
    the model uses one `now` for both.
- The lab files of the morning count screen are a map from job number to
  file. A job without an entry stands for a lab file that is not there.
- `InitMoistureTestFile` is declared with one parameter
  (pkg/file-management.go:267). The screens call it with two. The model
  follows the declaration: the source lab file is always
  `projects/<job>/Lab_<job>.xlsm`.
- Moisture.InitMoistureTestFile and Suction.InitSoilSuctionFile do not
  model a sheet whose `GetRows` fails. Such a sheet contributes nothing to
  the index (`readable` false), which is what the `continue` does.
- Oven.RemoveCanFromOven: returns the last matching record. This assumes
  Go 1.22 or later, where `&can` in the loop points to a fresh variable on
  each iteration. Under older Go it would point to the last record of the
  ledger, whatever its number. The screens ignore the returned record.
- PullSample.CaptureSession.EditLast: requires a moisture writer. The
  source would dereference a nil writer there.
- PullSample.CaptureSession.RewriteWorkbooks and EditSamples.RewriteLabFiles:
  with a suction can, they state the workbook as `SuctionRewrite` of the
  moisture cells, not the three cells one by one. By
  `Suction.SuctionRewriteSpec` only column D of the sample's Soil Suction
  row changes, so the three cells keep their new values unless that cell
  is one of them. The model does not rule that out, since a sheet could be
  both a Moisture sheet and a Soil Suction sheet.
- PullSample.CaptureSession.WriteWorkbooks: states only that the export is
  untouched without a suction write. The moisture and suction writes it
  makes are those of the two writers' methods, and their errors are
  dropped.
- Suction.InitSoilSuctionFile: uses the corrected reopen
  (`Suction.ReopenRepaired`, see Findings). The code as written is
  `Suction.ReopenCursor`.

## Findings

| source | as written | input that shows it | evidently intended | confidence | as-written member | corrected member |
|---|---|---|---|---|---|---|
| pkg/file-management.go:821-826 | Reopening an export whose last page holds 38 rows moves the cursor to page n + 1 at row 2, but does not create that page. The write's own rollover only runs for `separateNextRow > 38` (pkg/file-management.go:898-926), so it does not create the page either, and `SetCellValue` on the missing sheet fails silently. | An export with one sheet "Soil Suction" of 38 rows (header plus 37 samples), reopened, then one suction write. Nothing is written, and the cursor still moves on. | The page that the cursor points to exists, so the next sample is written there, as in a session that was never interrupted. | not executed | Suction.ReopenFullPageLosesRow (with Suction.FullFirstPage) | Suction.ResumeRepairedMatchesSession (on Suction.ReopenRepaired) |
