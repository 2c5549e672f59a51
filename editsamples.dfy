/**
 * The edit samples screen: every record of a job's backup log in a table,
 * and a form that rewrites the measurements of the selected record in the
 * log, in the lab file's moisture cells and, with a suction can, in the
 * suction columns and the export.
 */
module EditSamples {
  import opened Wrappers
  import opened GoStrings
  import opened Workbook
  import opened Moisture
  import opened Suction
  import opened Persistence

  /** The record a table row selects: row 0 is the header, row `k` the record `k - 1`. */
  function SelectedIndex(row: int, n: nat): (r: Option<nat>)
    ensures r.Some? <==> 1 <= row <= n
    ensures r.Some? ==> r.value == row - 1 && r.value < n
  {
    if row == 0 then None
    else if 0 <= row - 1 < n then Some(row - 1)
    else None
  }

  /** What saving the edit form did. */
  datatype SampleEditOutcome =
    | Rejected                 // Can #, Can Weight or Wet Weight is blank
    | SaveFailed(error: Error) // the first failing step, which ended the action
    | Updated                  // the log and the moisture cells were written

  /**
   * The lab files one edit opens: the lab file the working copy is made from
   * when it is missing, the working copy, and the soil suction export.
   */
  datatype LabIo = LabIo(
    dirOk: bool,            // creating the job's working directory
    copyOk: bool,           // writing a missing working copy from the lab file
    moistureSaveOk: bool,   // saving the working copy after the moisture cells
    exportCreateOk: bool,   // creating a soil suction export that does not exist yet
    suctionLabSaveOk: bool, // saving the working copy after the suction can number
    exportSaveOk: bool,     // saving the soil suction export
    date: string)           // the day of the suction write

  /** The moisture mapping of a sample in a working copy that opens, or a miss. */
  function MappingIn(copy: FileState<Book>, boring: string, depth: string): (string, string, bool) {
    if copy.Present? then GetSampleMapping(MoistureIndex(copy.value), boring, depth) else ("", "", false)
  }

  /**
   * The spreadsheet half of saving an edit: open the working copy with a
   * fresh moisture writer and rewrite the sample's moisture cells (either
   * failure is returned); then, with a suction can, a fresh suction writer
   * on the same workbook writes the can again, its errors only logged.
   */
  method RewriteLabFiles(source: FileState<Book>, working: BookFile, exportDisk: BookFile, boring: string,
                         depth: string, canNo: string, canWeight: string, wetWeight: string, suctionCanNo: string,
                         io: LabIo)
    returns (err: Option<Error>)
    requires working != exportDisk
    modifies working, exportDisk
    ensures var copy := WorkingCopy(io.dirOk, source, old(working.contents), io.copyOk);
            err.None? <==> io.dirOk && MappingIn(copy, boring, depth).2 && io.moistureSaveOk
    ensures var copy := WorkingCopy(io.dirOk, source, old(working.contents), io.copyOk);
            !(io.dirOk && copy.Present?) ==> err == Some(IOFailure) && working.contents == copy &&
                                             unchanged(exportDisk)
    ensures var copy := WorkingCopy(io.dirOk, source, old(working.contents), io.copyOk);
            var mapped := MappingIn(copy, boring, depth);
            err.None? ==>
              var cells := MoistureCells(copy.value, mapped.0, mapped.1, canNo, wetWeight, canWeight);
              (suctionCanNo == "" ==> working.contents == Present(cells) && unchanged(exportDisk)) &&
              (suctionCanNo != "" ==>
                 var (_, labFile, exportFile) := SuctionRewrite(cells, Present(cells), old(exportDisk.contents),
                                                            io.exportCreateOk, boring, depth, suctionCanNo, io.date,
                                                            io.suctionLabSaveOk, io.exportSaveOk);
                 working.contents == labFile && exportDisk.contents == exportFile)
    ensures err.Some? ==> unchanged(exportDisk)
  {
    var init := InitMoistureTestFile(io.dirOk, source, working, io.copyOk);
    if init.Err? {
      return Some(init.error);
    }
    var moistureWriter := init.value;
    err := moistureWriter.WriteMoistureSample(boring, depth, canNo, canWeight, wetWeight, io.moistureSaveOk);
    if err.Some? {
      return;
    }
    if suctionCanNo != "" {
      RewriteSuctionSample(exportDisk, io.exportCreateOk, moistureWriter.file, boring, depth, suctionCanNo, io.date,
                           io.suctionLabSaveOk, io.exportSaveOk);
    }
  }

  /**
   * The screen over one job: the log as loaded (the table and the forms
   * share it, so edits change it in memory), the log file, the lab file the
   * working copy comes from, the working copy and the soil suction export.
   */
  class EditSamplesScreen {
    var backupData: BackupData
    const backup: StoredFile<BackupData>
    const working: BookFile
    const exportDisk: BookFile

    constructor (backupData: BackupData, backup: StoredFile<BackupData>, working: BookFile, exportDisk: BookFile)
      requires working != exportDisk
      ensures this.backupData == backupData && this.backup == backup
      ensures this.working == working && this.exportDisk == exportDisk
    {
      this.backupData := backupData;
      this.backup := backup;
      this.working := working;
      this.exportDisk := exportDisk;
    }

    ghost predicate Valid() {
      working != exportDisk
    }

    /**
     * The edit form's Save Changes for record `index`: the trimmed Can #,
     * Can Weight and Wet Weight are required; the record's four measurements
     * change in memory, and then the log is written, the moisture cells
     * rewritten and, with a suction can, the suction writes repeated; the
     * first failure ends the action, leaving the edit in memory.
     */
    method SaveEdit(index: nat, canRaw: string, canWeightRaw: string, wetWeightRaw: string, suctionRaw: string,
                    source: FileState<Book>, backupWriteOk: bool, io: LabIo)
      returns (outcome: SampleEditOutcome)
      requires Valid() && index < |backupData.samples|
      modifies this, backup, working, exportDisk
      ensures Valid() && |backupData.samples| == |old(backupData.samples)|
      ensures var canNo, canWeight, wetWeight := TrimSpace(canRaw), TrimSpace(canWeightRaw), TrimSpace(wetWeightRaw);
              canNo == "" || canWeight == "" || wetWeight == "" ==>
                outcome == Rejected && unchanged(this) && unchanged(backup) && unchanged(working) &&
                unchanged(exportDisk)
      ensures var canNo, canWeight, wetWeight := TrimSpace(canRaw), TrimSpace(canWeightRaw), TrimSpace(wetWeightRaw);
              !(canNo == "" || canWeight == "" || wetWeight == "") ==>
                backupData == old(backupData).(samples := EditAt(old(backupData.samples), index, canNo, canWeight,
                                                                 wetWeight, TrimSpace(suctionRaw))) &&
                backup.contents == (if backupWriteOk then Present(backupData) else old(backup.contents))
      ensures !backupWriteOk && outcome != Rejected ==>
                outcome == SaveFailed(IOFailure) && unchanged(working) && unchanged(exportDisk)
      ensures var copy := WorkingCopy(io.dirOk, source, old(working.contents), io.copyOk);
              var s := old(backupData.samples)[index];
              outcome == Updated <==>
                !(TrimSpace(canRaw) == "" || TrimSpace(canWeightRaw) == "" || TrimSpace(wetWeightRaw) == "") &&
                backupWriteOk && io.dirOk && MappingIn(copy, s.boringNumber, s.depth).2 && io.moistureSaveOk
      ensures var copy := WorkingCopy(io.dirOk, source, old(working.contents), io.copyOk);
              var s := old(backupData.samples)[index];
              var mapped := MappingIn(copy, s.boringNumber, s.depth);
              outcome == Updated ==>
                var cells := MoistureCells(copy.value, mapped.0, mapped.1, TrimSpace(canRaw), TrimSpace(wetWeightRaw),
                                           TrimSpace(canWeightRaw));
                (TrimSpace(suctionRaw) == "" ==> working.contents == Present(cells) && unchanged(exportDisk)) &&
                (TrimSpace(suctionRaw) != "" ==>
                   var (_, labFile, exportFile) := SuctionRewrite(cells, Present(cells), old(exportDisk.contents),
                                                              io.exportCreateOk, s.boringNumber, s.depth,
                                                              TrimSpace(suctionRaw), io.date, io.suctionLabSaveOk,
                                                              io.exportSaveOk);
                   working.contents == labFile && exportDisk.contents == exportFile)
    {
      var sample := backupData.samples[index];
      var newCanNo := TrimSpace(canRaw);
      var newCanWeight := TrimSpace(canWeightRaw);
      var newWetWeight := TrimSpace(wetWeightRaw);
      var newSuctionCanNo := TrimSpace(suctionRaw);
      if newCanNo == "" || newCanWeight == "" || newWetWeight == "" {
        return Rejected;
      }
      backupData := backupData.(samples := EditAt(backupData.samples, index, newCanNo, newCanWeight, newWetWeight,
                                                  newSuctionCanNo));
      var err := backup.Write(backupData, backupWriteOk);
      if err.Some? {
        return SaveFailed(err.value);
      }
      err := RewriteLabFiles(source, working, exportDisk, sample.boringNumber, sample.depth, newCanNo, newCanWeight,
                             newWetWeight, newSuctionCanNo, io);
      if err.Some? {
        return SaveFailed(err.value);
      }
      outcome := Updated;
    }
  }

  /** What opening the screen shows. */
  datatype Opening =
    | LoadFailed(error: Error)        // the log could not be loaded
    | NothingToEdit                   // the log holds no record
    | Opened(screen: EditSamplesScreen)

  /** `NewEditSamplesScreen`: load the log; an error or an empty log shows a message instead of the table. */
  method OpenEditSamples(backup: StoredFile<BackupData>, working: BookFile, exportDisk: BookFile)
    returns (r: Opening)
    requires working != exportDisk
    ensures LoadBackupData(backup.contents).Err? ==> r == LoadFailed(LoadBackupData(backup.contents).error)
    ensures backup.contents.Present? && |backup.contents.value.samples| == 0 ==> r == NothingToEdit
    ensures r.Opened? <==> backup.contents.Present? && |backup.contents.value.samples| > 0
    ensures r.Opened? ==>
              fresh(r.screen) && r.screen.backupData == backup.contents.value && r.screen.backup == backup &&
              r.screen.working == working && r.screen.exportDisk == exportDisk && r.screen.Valid()
  {
    var loaded := LoadBackupData(backup.contents);
    if loaded.Err? {
      return LoadFailed(loaded.error);
    }
    if |loaded.value.samples| == 0 {
      return NothingToEdit;
    }
    var screen := new EditSamplesScreen(loaded.value, backup, working, exportDisk);
    return Opened(screen);
  }

  /**
   * A saved edit reads back from the log: the same job, stamp, count and
   * number of records, the edited record with the new measurements and its
   * boring and depth, and every other record as it was.
   */
  lemma SavedEditReloads(data: BackupData, index: nat, canNo: string, canWeight: string, wetWeight: string,
                         suctionCanNo: string)
    requires index < |data.samples|
    ensures var edited := data.(samples := EditAt(data.samples, index, canNo, canWeight, wetWeight, suctionCanNo));
            var r := LoadBackupData(Present(edited));
            r.Ok? && r.value.jobNumber == data.jobNumber && r.value.lastUpdated == data.lastUpdated &&
            r.value.totalSamples == data.totalSamples && |r.value.samples| == |data.samples| &&
            r.value.samples[index].boringNumber == data.samples[index].boringNumber &&
            r.value.samples[index].depth == data.samples[index].depth &&
            r.value.samples[index].canNumber == canNo && r.value.samples[index].canWeight == canWeight &&
            r.value.samples[index].wetWeight == wetWeight && r.value.samples[index].suctionCanNo == suctionCanNo &&
            forall k | 0 <= k < |data.samples| && k != index :: r.value.samples[k] == data.samples[k]
  {
    WithMeasurementsKeeps(data.samples[index], canNo, canWeight, wetWeight, suctionCanNo);
  }
}
