/**
 * The pull-sample screen: the capture session that walks through a job's
 * samples, validates what the technician types, writes each sample to the
 * lab workbook, the soil suction export, the backup log and the oven ledger,
 * and remembers where it got to.
 */
module PullSample {
  import opened Wrappers
  import opened GoStrings
  import opened Workbook
  import opened LabSheet
  import opened Moisture
  import opened Suction
  import opened Oven
  import opened Persistence

  // ---------------------------------------------------------------------
  // Resuming

  /** The sample a session starts at: the saved index when it loads and is positive, else 0. */
  function ResumeIndex(saved: Result<int>): (i: nat)
    ensures saved.Ok? && saved.value > 0 ==> i == saved.value
    ensures !(saved.Ok? && saved.value > 0) ==> i == 0
  {
    if saved.Ok? && saved.value > 0 then saved.value else 0
  }

  /** A session resumes where the last saved progress left it, and a job never started begins at 0. */
  lemma ResumeAfterSave(jobNumber: string, index: nat, user: string)
    ensures ResumeIndex(LoadProgress(Present(ProgressData(jobNumber, index, user)))) == index
    ensures ResumeIndex(LoadProgress(Absent)) == 0
  {
  }

  // ---------------------------------------------------------------------
  // The current sample

  /** A test the code counts as suction. */
  predicate SuctionTest(test: string) {
    Contains(test, "Soil Suction")
  }

  /** A test the code counts as other than moisture and suction, as its condition is written. */
  predicate OtherTest(test: string) {
    !Contains(test, "Soil Suction") && !Contains(test, "Moisture Content") && !Contains(test, "Moisture")
  }

  /** The "Moisture Content" half of the condition adds nothing: any such name also contains "Moisture". */
  lemma OtherTestMeans(test: string)
    ensures OtherTest(test) <==> !Contains(test, "Soil Suction") && !Contains(test, "Moisture")
  {
    if Contains(test, "Moisture Content") {
      ContainsPrefixOf(test, "Moisture Content", "Moisture");
    }
  }

  /** What the screen shows of the sample under the cursor. */
  datatype SampleInfo = SampleInfo(boringNumber: string, depth: string, tests: string,
                                   hasSuction: bool, hasOtherTests: bool)

  /** Past the last sample every field shows "-" and no test is required. */
  const NoSample := SampleInfo("-", "-", "-", false, false)

  /** The information of sample `idx`, with the flags as the loop over its tests sets them. */
  function CurrentSampleInfo(samples: seq<SampleData>, idx: nat): SampleInfo {
    if idx < |samples| then
      var s := samples[idx];
      SampleInfo(s.boringNumber, s.depth, Join(s.tests, ", "),
                 exists k | 0 <= k < |s.tests| :: SuctionTest(s.tests[k]),
                 exists k | 0 <= k < |s.tests| :: OtherTest(s.tests[k]))
    else NoSample
  }

  /**
   * `getCurrentSampleInfo`'s promise: suction is required exactly when some
   * test mentions "Soil Suction", other tests exactly when some test mentions
   * neither "Soil Suction" nor "Moisture", and past the end nothing is.
   */
  lemma CurrentSampleInfoSpec(samples: seq<SampleData>, idx: nat)
    ensures idx >= |samples| ==> CurrentSampleInfo(samples, idx) == NoSample
    ensures idx < |samples| ==>
              var info := CurrentSampleInfo(samples, idx);
              var tests := samples[idx].tests;
              info.boringNumber == samples[idx].boringNumber && info.depth == samples[idx].depth &&
              (info.hasSuction <==> exists k | 0 <= k < |tests| :: Contains(tests[k], "Soil Suction")) &&
              (info.hasOtherTests <==>
                 exists k | 0 <= k < |tests| :: !Contains(tests[k], "Soil Suction") && !Contains(tests[k], "Moisture"))
  {
    if idx < |samples| {
      var tests := samples[idx].tests;
      forall k | 0 <= k < |tests| ensures OtherTest(tests[k]) <==> !Contains(tests[k], "Soil Suction") && !Contains(tests[k], "Moisture") {
        OtherTestMeans(tests[k]);
      }
    }
  }

  /** The loop of `getCurrentSampleInfo` over the tests of a sample. */
  method ClassifyTests(tests: seq<string>) returns (hasSuction: bool, hasOtherTests: bool)
    ensures hasSuction <==> exists k | 0 <= k < |tests| :: SuctionTest(tests[k])
    ensures hasOtherTests <==> exists k | 0 <= k < |tests| :: OtherTest(tests[k])
  {
    hasSuction := false;
    hasOtherTests := false;
    var i := 0;
    while i < |tests|
      invariant i <= |tests|
      invariant hasSuction <==> exists k | 0 <= k < i :: SuctionTest(tests[k])
      invariant hasOtherTests <==> exists k | 0 <= k < i :: OtherTest(tests[k])
    {
      var test := tests[i];
      if Contains(test, "Soil Suction") {
        hasSuction := true;
      } else if !Contains(test, "Moisture Content") && !Contains(test, "Moisture") {
        hasOtherTests := true;
      }
      i := i + 1;
    }
  }

  /** `getCurrentSampleInfo`. */
  method GetCurrentSampleInfo(samples: seq<SampleData>, idx: nat) returns (info: SampleInfo)
    ensures info == CurrentSampleInfo(samples, idx)
  {
    if idx < |samples| {
      var sample := samples[idx];
      var hasSuction, hasOtherTests := ClassifyTests(sample.tests);
      return SampleInfo(sample.boringNumber, sample.depth, Join(sample.tests, ", "), hasSuction, hasOtherTests);
    }
    return NoSample;
  }

  // ---------------------------------------------------------------------
  // Progress display

  const BarLength: nat := 20
  const Full: char := '█'
  const Empty: char := '░'

  /** The percentage shown: `idx*100/total`, 0 for a job without samples. */
  function Percentage(idx: nat, total: nat): nat {
    if total > 0 then (idx * 100) / total else 0
  }

  /** The filled cells of the bar: `idx*20/total` capped at 20, 0 for a job without samples. */
  function Filled(idx: nat, total: nat): (f: nat)
    ensures f <= BarLength
  {
    if total > 0 then
      var f := (idx * BarLength) / total;
      if f > BarLength then BarLength else f
    else 0
  }

  /** Twenty cells, the first `filled` of them full. */
  function Cells(filled: nat): (cells: string)
    ensures |cells| == BarLength
    ensures forall i | 0 <= i < BarLength :: cells[i] == (if i < filled then Full else Empty)
  {
    seq(BarLength, i => if i < filled then Full else Empty)
  }

  /** The bar shown once the cursor is past the last sample. */
  const CompleteBar: string := "[████████████████████] 100%"

  /** The progress line of `updateJobInfo`. */
  function ProgressBarText(idx: nat, total: nat): string {
    if idx >= total then CompleteBar
    else "[" + Cells(Filled(idx, total)) + "] " + NatToString(Percentage(idx, total)) + "%"
  }

  /** The "n of m" line of `updateJobInfo`. */
  function SampleProgressText(idx: nat, total: nat): string {
    if idx >= total then "COMPLETE" else NatToString(idx + 1) + " of " + NatToString(total)
  }

  /**
   * While samples remain, the percentage is below 100, the cap on the bar
   * never applies, and the bar shows one full cell per five percent.
   */
  lemma ProgressBounds(idx: nat, total: nat)
    requires idx < total
    ensures Percentage(idx, total) < 100
    ensures Filled(idx, total) < BarLength
    ensures Filled(idx, total) == Percentage(idx, total) / 5
  {
    var q := (idx * 20) / total;
    var r := (idx * 20) % total;
    assert q < 20;
    var s := (5 * r) / total;
    var t := (5 * r) % total;
    assert s < 5;
    assert idx * 100 == (5 * q + s) * total + t;
    DivUnique(idx * 100, total, 5 * q + s, t);
    DivUnique(5 * q + s, 5, q, s);
  }

  lemma MulBound(k: int, d: int)
    requires d > 0 && -d < k * d < d
    ensures k == 0
  {
  }

  lemma DivUnique(a: int, d: int, q: int, r: int)
    requires d > 0 && 0 <= r < d && a == q * d + r
    ensures a / d == q
  {
    var k := a / d - q;
    assert k * d == r - a % d;
    MulBound(k, d);
  }

  /** The progress never moves backwards as the cursor advances. */
  lemma ProgressMonotone(idx: nat, total: nat)
    ensures Percentage(idx, total) <= Percentage(idx + 1, total)
    ensures Filled(idx, total) <= Filled(idx + 1, total)
  {
    if total > 0 {
      DivMonotone(idx * 100, idx * 100 + 100, total);
      DivMonotone(idx * 20, idx * 20 + 20, total);
    }
  }

  lemma DivMonotone(a: nat, b: nat, d: nat)
    requires a <= b && d > 0
    ensures a / d <= b / d
  {
    assert (a / d) * d <= a <= b < (b / d + 1) * d;
    MulLtCancel(a / d, b / d + 1, d);
  }

  lemma MulLtCancel(x: int, y: int, d: int)
    requires d > 0 && x * d < y * d
    ensures x < y
  {
  }

  /** The bar shown when the job is complete is the full bar at 100 percent. */
  lemma CompleteBarIsFull()
    ensures CompleteBar == "[" + Cells(BarLength) + "] " + NatToString(100) + "%"
  {
    assert NatToString(100) == NatToString(10) + "0";
    assert NatToString(10) == "10";
  }

  /** The loop of `updateJobInfo` that draws the bar's cells. */
  method DrawCells(filledLength: nat) returns (cells: string)
    ensures cells == Cells(filledLength)
  {
    cells := [];
    var i := 0;
    while i < BarLength
      invariant i <= BarLength
      invariant cells == Cells(filledLength)[..i]
    {
      if i < filledLength {
        cells := cells + [Full];
      } else {
        cells := cells + [Empty];
      }
      assert Cells(filledLength)[..i + 1] == Cells(filledLength)[..i] + [Cells(filledLength)[i]];
      i := i + 1;
    }
    assert Cells(filledLength)[..i] == Cells(filledLength);
  }

  /** The progress line of `updateJobInfo`. */
  method ProgressBar(idx: nat, total: nat) returns (progressBar: string)
    ensures progressBar == ProgressBarText(idx, total)
  {
    progressBar := "";
    var percentage := 0;
    if total > 0 {
      percentage := (idx * 100) / total;
      var filledLength := (idx * BarLength) / total;
      if filledLength > BarLength {
        filledLength := BarLength;
      }
      assert percentage == Percentage(idx, total) && filledLength == Filled(idx, total);
      var cells := DrawCells(filledLength);
      progressBar := "[" + cells + "] " + NatToString(percentage) + "%";
    }
    if idx >= total {
      progressBar := CompleteBar;
    }
  }

  // ---------------------------------------------------------------------
  // Validation

  /** Why a capture is refused. */
  datatype Rejection =
    | MissingCan
    | MissingCanWeight
    | MissingWetWeight
    | MissingSuctionCan
    | BadCanWeight
    | BadWetWeight
    | NotHeavier             // the wet weight is not above the can weight
    | MoistureCanUsed        // the moisture can was already used in this session
    | MoistureCanInOven      // the moisture can is already in the oven
    | SuctionCanUsed         // the suction can was already used in this session

  /**
   * A float64 as `strconv.ParseFloat` returns it: a finite value (taken
   * exactly), or one of the specials it also accepts, "NaN", "Inf" and
   * "Infinity" with an optional sign, in any letter case.
   */
  datatype Float64 = Finite(value: real) | NaN | PosInf | NegInf

  /** Go's `<=` on float64: false whenever a side is NaN. */
  predicate FloatLessEq(a: Float64, b: Float64) {
    if a.NaN? || b.NaN? then false
    else if a.NegInf? || b.PosInf? then true
    else if a.PosInf? || b.NegInf? then false
    else a.value <= b.value
  }

  /** Go's `<` on float64: false whenever a side is NaN. */
  predicate FloatLess(a: Float64, b: Float64) {
    if a.NaN? || b.NaN? then false
    else if a.Finite? && b.Finite? then a.value < b.value
    else a != b && (a.NegInf? || b.PosInf?)
  }

  /** Go's `-` on float64: NaN in, NaN out, and an infinity minus itself is NaN. */
  function FloatSub(a: Float64, b: Float64): Float64 {
    if a.NaN? || b.NaN? then NaN
    else if a.Finite? && b.Finite? then Finite(a.value - b.value)
    else if a == b then NaN
    else if a.PosInf? || b.NegInf? then PosInf
    else NegInf
  }

  /** What `saveSample` decides about the typed fields. */
  datatype Verdict = Refuse(why: Rejection) | Underweight(sampleWeight: Float64) | Accept

  /**
   * `saveSample`'s checks on the trimmed fields, in the order the code makes
   * them. `canW` and `wetW` are what `strconv.ParseFloat` makes of the two
   * weights (None when they do not parse).
   */
  function Validate(canNum: string, canWeight: string, wetWeight: string, suctionNum: string, hasSuction: bool,
                    canW: Option<Float64>, wetW: Option<Float64>): Verdict {
    if canNum == "" then Refuse(MissingCan)
    else if canWeight == "" then Refuse(MissingCanWeight)
    else if wetWeight == "" then Refuse(MissingWetWeight)
    else if hasSuction && suctionNum == "" then Refuse(MissingSuctionCan)
    else if canW.None? then Refuse(BadCanWeight)
    else if wetW.None? then Refuse(BadWetWeight)
    else if FloatLessEq(wetW.value, canW.value) then Refuse(NotHeavier)
    else
      var sampleWeight := FloatSub(wetW.value, canW.value);
      if FloatLess(sampleWeight, Finite(100.0)) then Underweight(sampleWeight)
      else Accept
  }

  /** Both weights parsed to finite numbers. */
  predicate FiniteWeights(canW: Option<Float64>, wetW: Option<Float64>) {
    canW.Some? && canW.value.Finite? && wetW.Some? && wetW.value.Finite?
  }

  /**
   * What passes validation: every required field is filled in, both weights
   * parse, and the wet weight is not at or below the can weight. With
   * finite weights that means the wet weight is above the can weight, a
   * sample of 100 g or more is accepted and a lighter one is only let
   * through as needing an override; a NaN or infinite weight that gets past
   * the comparison is accepted outright.
   */
  lemma ValidateSpec(canNum: string, canWeight: string, wetWeight: string, suctionNum: string, hasSuction: bool,
                     canW: Option<Float64>, wetW: Option<Float64>)
    ensures var v := Validate(canNum, canWeight, wetWeight, suctionNum, hasSuction, canW, wetW);
            (!v.Refuse? <==>
               canNum != "" && canWeight != "" && wetWeight != "" && (hasSuction ==> suctionNum != "") &&
               canW.Some? && wetW.Some? && !FloatLessEq(wetW.value, canW.value)) &&
            (!v.Refuse? && FiniteWeights(canW, wetW) ==> wetW.value.value > canW.value.value) &&
            (v.Accept? && FiniteWeights(canW, wetW) ==> wetW.value.value - canW.value.value >= 100.0) &&
            (v.Underweight? ==>
               FiniteWeights(canW, wetW) && v.sampleWeight == Finite(wetW.value.value - canW.value.value) &&
               0.0 < v.sampleWeight.value < 100.0) &&
            (!v.Refuse? && !FiniteWeights(canW, wetW) ==> v == Accept)
  {
  }

  /** A wet weight typed as "NaN" passes every check and is captured as a full-weight sample. */
  lemma NaNWetWeightAccepted(canNum: string, canWeight: string, suctionNum: string, hasSuction: bool, canW: real)
    requires canNum != "" && canWeight != "" && (hasSuction ==> suctionNum != "")
    ensures Validate(canNum, canWeight, "NaN", suctionNum, hasSuction, Some(Finite(canW)), Some(NaN)) == Accept
  {
  }

  /** The first missing field is reported: Can # before Can Weight before Wet Weight before Suction Can #. */
  lemma ValidateOrder(canNum: string, canWeight: string, wetWeight: string, suctionNum: string, hasSuction: bool,
                      canW: Option<Float64>, wetW: Option<Float64>)
    ensures var v := Validate(canNum, canWeight, wetWeight, suctionNum, hasSuction, canW, wetW);
            (canNum == "" ==> v == Refuse(MissingCan)) &&
            (canNum != "" && canWeight == "" ==> v == Refuse(MissingCanWeight)) &&
            (canNum != "" && canWeight != "" && wetWeight == "" ==> v == Refuse(MissingWetWeight)) &&
            (canNum != "" && canWeight != "" && wetWeight != "" && hasSuction && suctionNum == "" ==>
               v == Refuse(MissingSuctionCan))
  {
  }

  /**
   * `continueSaveSample`'s duplicate checks, made only when duplicate
   * checking is configured: a moisture can used in this session, then one in
   * the oven, then (for a suction sample) a suction can used in this session.
   */
  function DuplicateCheck(checkDuplicates: bool, usedMoisture: set<string>, inOven: bool, hasSuction: bool,
                          usedSuction: set<string>, canNum: string, suctionNum: string): (r: Option<Rejection>)
  {
    if !checkDuplicates then None
    else if canNum in usedMoisture then Some(MoistureCanUsed)
    else if inOven then Some(MoistureCanInOven)
    else if hasSuction && suctionNum in usedSuction then Some(SuctionCanUsed)
    else None
  }

  /** With checking on, a capture is refused exactly for a reused moisture can, a can in the oven or a reused suction can. */
  lemma DuplicateCheckSpec(checkDuplicates: bool, usedMoisture: set<string>, inOven: bool, hasSuction: bool,
                           usedSuction: set<string>, canNum: string, suctionNum: string)
    ensures var r := DuplicateCheck(checkDuplicates, usedMoisture, inOven, hasSuction, usedSuction, canNum, suctionNum);
            (r.Some? <==> checkDuplicates &&
                          (canNum in usedMoisture || inOven || (hasSuction && suctionNum in usedSuction))) &&
            (r == Some(MoistureCanInOven) ==> canNum !in usedMoisture)
  {
  }

  /** The cans a session has used, after an accepted capture. */
  function MarkUsed(checkDuplicates: bool, used: set<string>, can: string): (r: set<string>)
    ensures checkDuplicates && can != "" ==> r == used + {can}
    ensures !(checkDuplicates && can != "") ==> r == used
  {
    if checkDuplicates && can != "" then used + {can} else used
  }

  /** A can accepted once is refused the next time it is offered in the same session. */
  lemma UsedCanRefused(usedMoisture: set<string>, inOven: bool, hasSuction: bool, usedSuction: set<string>,
                       canNum: string, suctionNum: string, inOven': bool, canNum': string, suctionNum': string)
    requires canNum != ""
    ensures canNum' == canNum ==>
              DuplicateCheck(true, MarkUsed(true, usedMoisture, canNum), inOven', hasSuction,
                             MarkUsed(true, usedSuction, suctionNum), canNum', suctionNum') == Some(MoistureCanUsed)
    ensures canNum' !in MarkUsed(true, usedMoisture, canNum) && !inOven' && hasSuction && suctionNum != "" &&
            suctionNum' == suctionNum ==>
              DuplicateCheck(true, MarkUsed(true, usedMoisture, canNum), inOven', hasSuction,
                             MarkUsed(true, usedSuction, suctionNum), canNum', suctionNum') == Some(SuctionCanUsed)
  {
  }

  // ---------------------------------------------------------------------
  // The capture session

  /**
   * The outcomes of the file operations a screen action performs, with the
   * clock, the day and the user name it stamps records with.
   */
  datatype Io = Io(
    now: string,
    date: string,
    user: string,
    moistureSaveOk: bool,    // saving the lab workbook after the moisture cells
    suctionLabSaveOk: bool,  // saving the lab workbook after the suction can number
    exportCreateOk: bool,    // creating a soil suction export that does not exist yet
    exportSaveOk: bool,      // saving the soil suction export
    dirOk: bool,             // creating the job's backup directory
    backupWriteOk: bool,     // writing the backup log
    ovenSaveOk: bool,        // writing the oven ledger
    progressWriteOk: bool)   // writing the progress file

  /** The sample captured last, which "edit last sample" changes. */
  datatype LastSample = LastSample(
    boringNumber: string,
    depth: string,
    canNumber: string,
    canWeight: string,
    wetWeight: string,
    suctionCanNo: string,
    sampleIndex: nat)

  /** What pressing Save did. */
  datatype SaveOutcome =
    | Idle                    // every sample was already captured
    | Refused(why: Rejection) // a check failed; nothing was written
    | Cancelled               // an underweight sample was not overridden
    | Captured                // the sample was written and the cursor moved on

  /** What saving the edit-last-sample form did. */
  datatype EditOutcome = EditRejected | EditFailed(error: Error) | Edited

  /** Replacing the four measurements of every record of `boring`/`depth` up to and including the first. */
  method UpdateFirstMatch(samples: seq<SampleBackup>, boring: string, depth: string, canNo: string,
                          canWeight: string, wetWeight: string, suctionCanNo: string)
    returns (updated: seq<SampleBackup>, found: bool)
    ensures found <==> FirstRecord(samples, boring, depth).Some?
    ensures found ==> updated == EditAt(samples, FirstRecord(samples, boring, depth).value,
                                        canNo, canWeight, wetWeight, suctionCanNo)
    ensures !found ==> updated == samples
  {
    FirstRecordSpec(samples, boring, depth);
    updated := samples;
    found := false;
    var i := 0;
    while i < |updated|
      invariant i <= |samples| && updated == samples
      invariant forall k | 0 <= k < i :: !(samples[k].boringNumber == boring && samples[k].depth == depth)
    {
      if updated[i].boringNumber == boring && updated[i].depth == depth {
        updated := updated[i := WithMeasurements(updated[i], canNo, canWeight, wetWeight, suctionCanNo)];
        found := true;
        assert FirstRecord(samples, boring, depth) == Some(i);
        break;
      }
      i := i + 1;
    }
  }

  /** The edit form's Suction Can # entry, trimmed; the field exists only when the capture had a suction can. */
  function SuctionField(l: LastSample, suctionRaw: string): string {
    if l.suctionCanNo != "" then TrimSpace(suctionRaw) else ""
  }

  /** One of the three required edit fields is blank once trimmed. */
  predicate MissingMeasurement(canRaw: string, canWeightRaw: string, wetWeightRaw: string) {
    TrimSpace(canRaw) == "" || TrimSpace(canWeightRaw) == "" || TrimSpace(wetWeightRaw) == ""
  }

  /**
   * The backup log as editing the last capture rewrites it: the stored log
   * with the first record of `boring`/`depth` given the new measurements; an
   * error when the log cannot be loaded or has no such record.
   */
  function EditedLastLog(file: FileState<BackupData>, boring: string, depth: string, canNo: string,
                         canWeight: string, wetWeight: string, suctionCanNo: string): Result<BackupData>
  {
    var loaded := LoadBackupData(file);
    if loaded.Err? then Err(loaded.error)
    else match FirstRecord(loaded.value.samples, boring, depth)
      case None => Err(NotFound)
      case Some(i) => Ok(loaded.value.(samples := EditAt(loaded.value.samples, i, canNo, canWeight, wetWeight,
                                                         suctionCanNo)))
  }

  /**
   * Editing succeeds exactly when the log is stored and holds a record of the
   * sample; then only the first such record changes, and only in its four
   * measurements, while the count, job and stamp of the log stay as stored.
   */
  lemma EditedLastLogSpec(file: FileState<BackupData>, boring: string, depth: string, canNo: string,
                          canWeight: string, wetWeight: string, suctionCanNo: string)
    ensures var r := EditedLastLog(file, boring, depth, canNo, canWeight, wetWeight, suctionCanNo);
            (r.Ok? <==> file.Present? &&
                        exists k | 0 <= k < |file.value.samples| ::
                          file.value.samples[k].boringNumber == boring && file.value.samples[k].depth == depth) &&
            (file.Present? && r.Err? ==> r.error == NotFound) &&
            (r.Ok? ==>
               var old_ := file.value.samples;
               var new_ := r.value.samples;
               r.value.jobNumber == file.value.jobNumber && r.value.lastUpdated == file.value.lastUpdated &&
               r.value.totalSamples == file.value.totalSamples && |new_| == |old_| &&
               exists i | 0 <= i < |old_| ::
                 old_[i].boringNumber == boring && old_[i].depth == depth &&
                 (forall k | 0 <= k < i :: !(old_[k].boringNumber == boring && old_[k].depth == depth)) &&
                 new_[i] == WithMeasurements(old_[i], canNo, canWeight, wetWeight, suctionCanNo) &&
                 forall k | 0 <= k < |old_| && k != i :: new_[k] == old_[k])
  {
    if file.Present? {
      FirstRecordSpec(file.value.samples, boring, depth);
      var f := FirstRecord(file.value.samples, boring, depth);
      if f.Some? {
        var i := f.value;
        assert file.value.samples[i].boringNumber == boring && file.value.samples[i].depth == depth;
      }
    }
  }

  /**
   * A capture session: the job's samples, the writers it opened, the JSON
   * files it keeps, the cursor, the cans used so far and the last capture.
   */
  class CaptureSession {
    const jobNumber: string
    const samples: seq<SampleData>
    const checkDuplicates: bool
    const moisture: MoistureTestWriter?
    const suction: SoilSuctionWriter?
    const exportDisk: BookFile
    const backup: StoredFile<BackupData>
    const oven: StoredFile<OvenTracking>
    const progress: StoredFile<ProgressData>
    var cursor: nat
    var usedMoisture: set<string>
    var usedSuction: set<string>
    var last: Option<LastSample>

    /** The suction writer shares the moisture writer's workbook and writes to the export file. */
    ghost predicate Valid() {
      (suction != null ==>
         moisture != null && suction.file == moisture.file && suction.separate.disk == exportDisk &&
         suction.file != suction.separate) &&
      (moisture != null ==> moisture.file.disk != exportDisk) &&
      backup as object != oven && backup as object != progress && oven as object != progress &&
      backup !in Writers() && oven !in Writers() && progress !in Writers() && this !in Writers()
    }

    /** The workbook objects the session writes through. */
    ghost function Writers(): set<object> {
      {exportDisk} +
      (if moisture != null then {moisture.file, moisture.file.disk} else {}) +
      (if suction != null then {suction, suction.separate} else {})
    }

    /** Nothing the session may write has changed. */
    twostate predicate Untouched()
      reads this, backup, oven, progress, Writers()
    {
      unchanged(this) && unchanged(backup) && unchanged(oven) && unchanged(progress) && unchanged(Writers())
    }

    constructor (jobNumber: string, samples: seq<SampleData>, checkDuplicates: bool,
                 moisture: MoistureTestWriter?, suction: SoilSuctionWriter?, exportDisk: BookFile,
                 backup: StoredFile<BackupData>, oven: StoredFile<OvenTracking>,
                 progress: StoredFile<ProgressData>)
      requires suction != null ==>
                 moisture != null && suction.file == moisture.file && suction.separate.disk == exportDisk &&
                 suction.file != suction.separate
      requires moisture != null ==> moisture.file.disk != exportDisk
      requires backup as object != oven && backup as object != progress && oven as object != progress
      ensures Valid()
      ensures this.jobNumber == jobNumber && this.samples == samples && this.checkDuplicates == checkDuplicates
      ensures this.moisture == moisture && this.suction == suction && this.exportDisk == exportDisk
      ensures this.backup == backup && this.oven == oven && this.progress == progress
      ensures cursor == ResumeIndex(LoadProgress(progress.contents))
      ensures usedMoisture == {} && usedSuction == {} && last == None
    {
      this.jobNumber := jobNumber;
      this.samples := samples;
      this.checkDuplicates := checkDuplicates;
      this.moisture := moisture;
      this.suction := suction;
      this.exportDisk := exportDisk;
      this.backup := backup;
      this.oven := oven;
      this.progress := progress;
      var savedIndex := LoadProgress(progress.contents);
      cursor := 0;
      if savedIndex.Ok? && savedIndex.value > 0 {
        cursor := savedIndex.value;
      }
      usedMoisture := {};
      usedSuction := {};
      last := None;
    }

    /**
     * `saveSample`: nothing happens once every sample is captured; otherwise
     * the trimmed fields are validated (the Suction Can # field exists only
     * for a suction sample), an underweight sample goes on only if the
     * override is chosen, and the capture continues. `canW` and `wetW` are
     * what `strconv.ParseFloat` makes of the trimmed weights.
     */
    method SaveSample(canRaw: string, canWeightRaw: string, wetWeightRaw: string, suctionRaw: string,
                      canW: Option<Float64>, wetW: Option<Float64>, overrideChosen: bool, io: Io)
      returns (outcome: SaveOutcome)
      requires Valid()
      modifies this, backup, oven, progress, Writers()
      ensures Valid()
      ensures old(cursor) >= |samples| ==> outcome == Idle && Untouched()
      ensures old(cursor) < |samples| ==>
                var info := CurrentSampleInfo(samples, old(cursor));
                var suctionNum := if info.hasSuction then TrimSpace(suctionRaw) else "";
                var v := Validate(TrimSpace(canRaw), TrimSpace(canWeightRaw), TrimSpace(wetWeightRaw), suctionNum,
                                  info.hasSuction, canW, wetW);
                (v.Refuse? ==> outcome == Refused(v.why) && Untouched()) &&
                (v.Underweight? && !overrideChosen ==> outcome == Cancelled && Untouched()) &&
                (v.Accept? || (v.Underweight? && overrideChosen) ==>
                   Continued(TrimSpace(canRaw), TrimSpace(canWeightRaw), TrimSpace(wetWeightRaw), suctionNum, io,
                             outcome)) &&
                (outcome == Captured ==> v.Accept? || (v.Underweight? && overrideChosen))
      ensures outcome == Captured ==> cursor == old(cursor) + 1
      ensures outcome != Captured ==> cursor == old(cursor)
    {
      if cursor >= |samples| {
        return Idle;
      }
      var canNum := TrimSpace(canRaw);
      var canWeight := TrimSpace(canWeightRaw);
      var wetWeight := TrimSpace(wetWeightRaw);
      var info := CurrentSampleInfo(samples, cursor);
      var suctionNum := "";
      if info.hasSuction {
        suctionNum := TrimSpace(suctionRaw);
      }
      var v := Validate(canNum, canWeight, wetWeight, suctionNum, info.hasSuction, canW, wetW);
      if v.Refuse? {
        return Refused(v.why);
      }
      if v.Underweight? && !overrideChosen {
        return Cancelled;
      }
      outcome := ContinueSaveSample(canNum, canWeight, wetWeight, suctionNum, io);
    }

    /**
     * What `continueSaveSample` does with a trimmed entry: the duplicate
     * checks decide, and a refusal changes nothing; otherwise the entry is
     * captured, with `Commit`'s effects on the cursor, the used cans, the
     * last capture, the backup log, the progress file and the oven ledger.
     */
    twostate predicate Continued(canNum: string, canWeight: string, wetWeight: string, suctionNum: string, io: Io,
                                 outcome: SaveOutcome)
      reads this, backup, oven, progress, Writers()
    {
      var info := CurrentSampleInfo(samples, old(cursor));
      var inOven := var q := IsCanInOven(old(oven.contents), canNum, io.now); q.Ok? && q.value.0;
      var dup := DuplicateCheck(checkDuplicates, old(usedMoisture), inOven, info.hasSuction,
                                old(usedSuction), canNum, suctionNum);
      (dup.Some? ==> outcome == Refused(dup.value) && Untouched()) &&
      (dup.None? ==>
         outcome == Captured &&
         cursor == old(cursor) + 1 &&
         usedMoisture == (if checkDuplicates then old(usedMoisture) + {canNum} else old(usedMoisture)) &&
         usedSuction == MarkUsed(checkDuplicates, old(usedSuction), suctionNum) &&
         last == Some(LastSample(info.boringNumber, info.depth, canNum, canWeight, wetWeight, suctionNum,
                                 old(cursor))) &&
         backup.contents ==
           (if io.dirOk && io.backupWriteOk
            then Present(Appended(BackupBase(old(backup.contents), jobNumber),
                                  SampleBackup(jobNumber, info.boringNumber, info.depth, canNum, canWeight,
                                               wetWeight, suctionNum, io.now), io.now))
            else old(backup.contents)) &&
         progress.contents ==
           (if io.dirOk && io.progressWriteOk
            then Present(ProgressData(jobNumber, old(cursor) + 1, io.user))
            else old(progress.contents)) &&
         oven.contents ==
           (if moisture != null && GetSampleMapping(moisture.sampleColMap, info.boringNumber, info.depth).2
            then AddedLedger(old(oven.contents),
                             OvenCan(canNum, jobNumber, info.boringNumber, info.depth, io.now,
                                     GetSampleMapping(moisture.sampleColMap, info.boringNumber, info.depth).0,
                                     GetSampleMapping(moisture.sampleColMap, info.boringNumber, info.depth).1),
                             io.now, io.ovenSaveOk)
            else old(oven.contents)))
    }

    /**
     * `continueSaveSample`: the duplicate checks; then the cans are marked
     * used, the sample goes to the moisture and suction writers, the backup
     * log and the oven ledger, and the cursor moves on and is saved. The
     * writers' errors are ignored: whatever they return, the capture counts.
     */
    method ContinueSaveSample(canNum: string, canWeight: string, wetWeight: string, suctionNum: string, io: Io)
      returns (outcome: SaveOutcome)
      requires Valid()
      modifies this, backup, oven, progress, Writers()
      ensures Valid()
      ensures Continued(canNum, canWeight, wetWeight, suctionNum, io, outcome)
    {
      var info := GetCurrentSampleInfo(samples, cursor);
      var boringNumber, depth := info.boringNumber, info.depth;
      var q := IsCanInOven(oven.contents, canNum, io.now);
      var inOven := q.Ok? && q.value.0;
      var dup := DuplicateCheck(checkDuplicates, usedMoisture, inOven, info.hasSuction, usedSuction, canNum, suctionNum);
      if dup.Some? {
        return Refused(dup.value);
      }
      Commit(boringNumber, depth, canNum, canWeight, wetWeight, suctionNum, io);
      outcome := Captured;
    }

    /**
     * An accepted capture of `continueSaveSample`: the cans are marked used,
     * the spreadsheets and JSON files are written (their errors only logged),
     * the capture is remembered, and the cursor moves on and is saved.
     */
    method Commit(boringNumber: string, depth: string, canNum: string, canWeight: string, wetWeight: string,
                  suctionNum: string, io: Io)
      requires Valid()
      modifies this, backup, oven, progress, Writers()
      ensures cursor == old(cursor) + 1
      ensures usedMoisture == (if checkDuplicates then old(usedMoisture) + {canNum} else old(usedMoisture))
      ensures usedSuction == MarkUsed(checkDuplicates, old(usedSuction), suctionNum)
      ensures last == Some(LastSample(boringNumber, depth, canNum, canWeight, wetWeight, suctionNum, old(cursor)))
      ensures backup.contents ==
                (if io.dirOk && io.backupWriteOk
                 then Present(Appended(BackupBase(old(backup.contents), jobNumber),
                                       SampleBackup(jobNumber, boringNumber, depth, canNum, canWeight, wetWeight,
                                                    suctionNum, io.now), io.now))
                 else old(backup.contents))
      ensures oven.contents ==
                if moisture != null && GetSampleMapping(moisture.sampleColMap, boringNumber, depth).2
                then AddedLedger(old(oven.contents),
                                 OvenCan(canNum, jobNumber, boringNumber, depth, io.now,
                                         GetSampleMapping(moisture.sampleColMap, boringNumber, depth).0,
                                         GetSampleMapping(moisture.sampleColMap, boringNumber, depth).1),
                                 io.now, io.ovenSaveOk)
                else old(oven.contents)
      ensures progress.contents ==
                if io.dirOk && io.progressWriteOk
                then Present(ProgressData(jobNumber, old(cursor) + 1, io.user))
                else old(progress.contents)
    {
      if checkDuplicates {
        usedMoisture := usedMoisture + {canNum};
        if suctionNum != "" {
          usedSuction := usedSuction + {suctionNum};
        }
      }
      WriteWorkbooks(boringNumber, depth, canNum, canWeight, wetWeight, suctionNum, io);
      RecordSample(boringNumber, depth, canNum, canWeight, wetWeight, suctionNum, io);
      last := Some(LastSample(boringNumber, depth, canNum, canWeight, wetWeight, suctionNum, cursor));
      cursor := cursor + 1;
      var _ := SaveProgress(io.dirOk, progress, jobNumber, cursor, io.user, io.progressWriteOk);
    }

    /**
     * The edit-last-sample form's Save: the trimmed Can #, Can Weight and
     * Wet Weight are required (the Suction Can # field exists only when the
     * last capture had a suction can); the backup log's first record of the
     * sample gets the new measurements and is written back; the moisture
     * cells are rewritten; with a suction can, a fresh suction writer on the
     * shared lab file writes it again, its errors only logged; and the last
     * capture takes the new values. The first failure ends the action.
     */
    method EditLast(canRaw: string, canWeightRaw: string, wetWeightRaw: string, suctionRaw: string, io: Io)
      returns (outcome: EditOutcome)
      requires Valid() && last.Some? && moisture != null
      modifies this, backup, Writers()
      ensures Valid()
      ensures cursor == old(cursor) && usedMoisture == old(usedMoisture) && usedSuction == old(usedSuction)
      ensures MissingMeasurement(canRaw, canWeightRaw, wetWeightRaw) ==> outcome == EditRejected && Untouched()
      ensures var log := EditedLastLog(old(backup.contents), old(last).value.boringNumber, old(last).value.depth,
                                       TrimSpace(canRaw), TrimSpace(canWeightRaw), TrimSpace(wetWeightRaw),
                                       SuctionField(old(last).value, suctionRaw));
              !MissingMeasurement(canRaw, canWeightRaw, wetWeightRaw) ==>
                (log.Err? ==> outcome == EditFailed(log.error) && Untouched()) &&
                (log.Ok? ==> backup.contents == if io.backupWriteOk then Present(log.value) else old(backup.contents)) &&
                (log.Ok? && !io.backupWriteOk ==> outcome == EditFailed(IOFailure) && unchanged(Writers()))
      ensures outcome == Edited <==>
                !MissingMeasurement(canRaw, canWeightRaw, wetWeightRaw) &&
                EditedLastLog(old(backup.contents), old(last).value.boringNumber, old(last).value.depth,
                              TrimSpace(canRaw), TrimSpace(canWeightRaw), TrimSpace(wetWeightRaw),
                              SuctionField(old(last).value, suctionRaw)).Ok? &&
                io.backupWriteOk && io.moistureSaveOk &&
                GetSampleMapping(moisture.sampleColMap, old(last).value.boringNumber, old(last).value.depth).2
      ensures outcome == Edited ==>
                last == Some(old(last).value.(canNumber := TrimSpace(canRaw), canWeight := TrimSpace(canWeightRaw),
                                              wetWeight := TrimSpace(wetWeightRaw),
                                              suctionCanNo := SuctionField(old(last).value, suctionRaw)))
      ensures outcome != Edited ==> last == old(last)
      ensures outcome == Edited ==>
                var l := old(last).value;
                var suctionCanNo := SuctionField(l, suctionRaw);
                var mapped := GetSampleMapping(moisture.sampleColMap, l.boringNumber, l.depth);
                var cells := MoistureCells(old(moisture.file.book), mapped.0, mapped.1, TrimSpace(canRaw),
                                           TrimSpace(wetWeightRaw), TrimSpace(canWeightRaw));
                (suctionCanNo == "" ==>
                   moisture.file.book == cells && moisture.file.disk.contents == Present(cells) &&
                   unchanged(exportDisk)) &&
                (suctionCanNo != "" ==>
                   (moisture.file.book, moisture.file.disk.contents, exportDisk.contents) ==
                     SuctionRewrite(cells, Present(cells), old(exportDisk.contents), io.exportCreateOk, l.boringNumber,
                                    l.depth, suctionCanNo, io.date, io.suctionLabSaveOk, io.exportSaveOk))
    {
      var l := last.value;
      var canNo := TrimSpace(canRaw);
      var canWeight := TrimSpace(canWeightRaw);
      var wetWeight := TrimSpace(wetWeightRaw);
      var suctionCanNo := "";
      if l.suctionCanNo != "" {
        suctionCanNo := TrimSpace(suctionRaw);
      }
      if canNo == "" || canWeight == "" || wetWeight == "" {
        return EditRejected;
      }
      outcome := ApplyEdit(canNo, canWeight, wetWeight, suctionCanNo, io);
    }

    /** The part of `EditLast` after the required fields were found filled in, on the trimmed values. */
    method ApplyEdit(canNo: string, canWeight: string, wetWeight: string, suctionCanNo: string, io: Io)
      returns (outcome: EditOutcome)
      requires Valid() && last.Some? && moisture != null
      modifies this, backup, Writers()
      ensures Valid()
      ensures cursor == old(cursor) && usedMoisture == old(usedMoisture) && usedSuction == old(usedSuction)
      ensures var log := EditedLastLog(old(backup.contents), old(last).value.boringNumber, old(last).value.depth,
                                       canNo, canWeight, wetWeight, suctionCanNo);
              (log.Err? ==> outcome == EditFailed(log.error) && Untouched()) &&
              (log.Ok? ==> backup.contents == if io.backupWriteOk then Present(log.value) else old(backup.contents)) &&
              (log.Ok? && !io.backupWriteOk ==> outcome == EditFailed(IOFailure) && unchanged(Writers()))
      ensures outcome == Edited <==>
                EditedLastLog(old(backup.contents), old(last).value.boringNumber, old(last).value.depth,
                              canNo, canWeight, wetWeight, suctionCanNo).Ok? &&
                io.backupWriteOk && io.moistureSaveOk &&
                GetSampleMapping(moisture.sampleColMap, old(last).value.boringNumber, old(last).value.depth).2
      ensures outcome == Edited ==>
                last == Some(old(last).value.(canNumber := canNo, canWeight := canWeight, wetWeight := wetWeight,
                                              suctionCanNo := suctionCanNo))
      ensures outcome != Edited ==> last == old(last)
      ensures outcome == Edited ==>
                var l := old(last).value;
                var mapped := GetSampleMapping(moisture.sampleColMap, l.boringNumber, l.depth);
                var cells := MoistureCells(old(moisture.file.book), mapped.0, mapped.1, canNo, wetWeight, canWeight);
                (suctionCanNo == "" ==>
                   moisture.file.book == cells && moisture.file.disk.contents == Present(cells) &&
                   unchanged(exportDisk)) &&
                (suctionCanNo != "" ==>
                   (moisture.file.book, moisture.file.disk.contents, exportDisk.contents) ==
                     SuctionRewrite(cells, Present(cells), old(exportDisk.contents), io.exportCreateOk, l.boringNumber,
                                    l.depth, suctionCanNo, io.date, io.suctionLabSaveOk, io.exportSaveOk))
    {
      var l := last.value;
      var err := RewriteLog(l.boringNumber, l.depth, canNo, canWeight, wetWeight, suctionCanNo, io.backupWriteOk);
      if err.Some? {
        return EditFailed(err.value);
      }
      err := RewriteWorkbooks(l.boringNumber, l.depth, canNo, canWeight, wetWeight, suctionCanNo, io);
      if err.Some? {
        return EditFailed(err.value);
      }
      last := Some(l.(canNumber := canNo, canWeight := canWeight, wetWeight := wetWeight,
                      suctionCanNo := suctionCanNo));
      outcome := Edited;
    }

    /**
     * The backup half of editing the last capture: load the log, give its
     * first record of the sample the new measurements and write it back
     * (`writeOk`). A load, lookup or write failure is returned.
     */
    method RewriteLog(boring: string, depth: string, canNo: string, canWeight: string, wetWeight: string,
                      suctionCanNo: string, writeOk: bool)
      returns (err: Option<Error>)
      modifies backup
      ensures var log := EditedLastLog(old(backup.contents), boring, depth, canNo, canWeight, wetWeight, suctionCanNo);
              err == (if log.Err? then Some(log.error) else if writeOk then None else Some(IOFailure)) &&
              backup.contents == if log.Ok? && writeOk then Present(log.value) else old(backup.contents)
      ensures err.Some? ==> unchanged(backup)
    {
      var loaded := LoadBackupData(backup.contents);
      if loaded.Err? {
        return Some(loaded.error);
      }
      var data := loaded.value;
      var updated, found := UpdateFirstMatch(data.samples, boring, depth, canNo, canWeight, wetWeight, suctionCanNo);
      if !found {
        return Some(NotFound);
      }
      err := backup.Write(data.(samples := updated), writeOk);
    }

    /**
     * The spreadsheet half of editing the last capture: the moisture cells
     * are rewritten, and a failure there is returned; then, with a suction
     * can, the suction write is repeated through a fresh writer
     * (`RewriteSuctionSample`), its errors only logged.
     */
    method RewriteWorkbooks(boring: string, depth: string, canNo: string, canWeight: string, wetWeight: string,
                            suctionCanNo: string, io: Io)
      returns (err: Option<Error>)
      requires Valid() && moisture != null
      modifies Writers()
      ensures err.None? <==> GetSampleMapping(moisture.sampleColMap, boring, depth).2 && io.moistureSaveOk
      ensures err.Some? ==> unchanged(exportDisk)
      ensures err.None? ==>
                var mapped := GetSampleMapping(moisture.sampleColMap, boring, depth);
                var cells := MoistureCells(old(moisture.file.book), mapped.0, mapped.1, canNo, wetWeight, canWeight);
                (suctionCanNo == "" ==>
                   moisture.file.book == cells && moisture.file.disk.contents == Present(cells) &&
                   unchanged(exportDisk)) &&
                (suctionCanNo != "" ==>
                   (moisture.file.book, moisture.file.disk.contents, exportDisk.contents) ==
                     SuctionRewrite(cells, Present(cells), old(exportDisk.contents), io.exportCreateOk, boring, depth,
                                    suctionCanNo, io.date, io.suctionLabSaveOk, io.exportSaveOk))
    {
      err := moisture.WriteMoistureSample(boring, depth, canNo, canWeight, wetWeight, io.moistureSaveOk);
      if err.Some? {
        return;
      }
      if suctionCanNo != "" {
        RewriteSuctionSample(exportDisk, io.exportCreateOk, moisture.file, boring, depth, suctionCanNo, io.date,
                             io.suctionLabSaveOk, io.exportSaveOk);
      }
    }

    /**
     * The two spreadsheet writes of `continueSaveSample`, whose errors are
     * only logged: the moisture cells when there is a moisture writer, the
     * suction can when there is a suction writer and a suction can number.
     */
    method WriteWorkbooks(boringNumber: string, depth: string, canNum: string, canWeight: string, wetWeight: string,
                          suctionNum: string, io: Io)
      requires Valid()
      modifies Writers()
      ensures suction == null || suctionNum == "" ==> unchanged(exportDisk)
    {
      if moisture != null {
        var _ := moisture.WriteMoistureSample(boringNumber, depth, canNum, canWeight, wetWeight, io.moistureSaveOk);
      }
      if suction != null && suctionNum != "" {
        var _ := suction.WriteSoilSuctionSample(boringNumber, depth, suctionNum, io.date, io.suctionLabSaveOk,
                                                io.exportSaveOk);
      }
    }

    /**
     * The JSON half of `continueSaveSample`, whose errors are only logged:
     * the backup log gets the record, and the oven ledger the moisture can
     * when the moisture writer knows where the sample's column is.
     */
    method RecordSample(boringNumber: string, depth: string, canNum: string, canWeight: string, wetWeight: string,
                        suctionNum: string, io: Io)
      modifies backup, oven
      ensures backup.contents ==
                (if io.dirOk && io.backupWriteOk
                 then Present(Appended(BackupBase(old(backup.contents), jobNumber),
                                       SampleBackup(jobNumber, boringNumber, depth, canNum, canWeight, wetWeight,
                                                    suctionNum, io.now), io.now))
                 else old(backup.contents))
      ensures oven.contents ==
                if moisture != null && GetSampleMapping(moisture.sampleColMap, boringNumber, depth).2
                then AddedLedger(old(oven.contents),
                                 OvenCan(canNum, jobNumber, boringNumber, depth, io.now,
                                         GetSampleMapping(moisture.sampleColMap, boringNumber, depth).0,
                                         GetSampleMapping(moisture.sampleColMap, boringNumber, depth).1),
                                 io.now, io.ovenSaveOk)
                else old(oven.contents)
    {
      var _ := SaveSampleBackup(io.dirOk, backup, jobNumber, boringNumber, depth, canNum, canWeight, wetWeight,
                                suctionNum, io.now, io.backupWriteOk);
      if moisture != null {
        var (moistureSheet, moistureColumn, found) := GetSampleMapping(moisture.sampleColMap, boringNumber, depth);
        if found {
          var _ := AddCanToOven(oven, canNum, jobNumber, boringNumber, depth, moistureSheet, moistureColumn,
                                io.now, io.ovenSaveOk);
        }
      }
    }
  }

  /** The samples a session walks through: the lab file's, or none when it does not load. */
  function SessionSamples(labFile: FileState<Book>): seq<SampleData> {
    if labFile.Present? && |labFile.value.sheets| > 0 && labFile.value.sheets[0].readable
    then Parse(labFile.value.sheets[0].rows).samples
    else []
  }

  /**
   * `NewPullSampleScreen`'s setup: read the job's samples from the lab file
   * (a failure leaves none), open the moisture writer on the working copy,
   * and, when that opens, the suction writer on the same workbook and the
   * export; either failure only leaves that writer out. The session then
   * resumes from the saved progress.
   */
  method StartSession(jobNumber: string, labFile: FileState<Book>, checkDuplicates: bool, dirOk: bool,
                      working: BookFile, copyOk: bool, exportDisk: BookFile, exportCreateOk: bool,
                      backup: StoredFile<BackupData>, oven: StoredFile<OvenTracking>,
                      progress: StoredFile<ProgressData>)
    returns (session: CaptureSession)
    requires working != exportDisk
    requires backup as object != oven && backup as object != progress && oven as object != progress
    modifies working, exportDisk
    ensures fresh(session) && session.Valid()
    ensures session.jobNumber == jobNumber && session.samples == SessionSamples(labFile)
    ensures session.checkDuplicates == checkDuplicates && session.exportDisk == exportDisk
    ensures session.backup == backup && session.oven == oven && session.progress == progress
    ensures working.contents == WorkingCopy(dirOk, labFile, old(working.contents), copyOk)
    ensures session.moisture != null <==> dirOk && working.contents.Present?
    ensures session.moisture != null ==>
              session.moisture.file.disk == working && session.moisture.file.book == working.contents.value &&
              session.moisture.sampleColMap == MoistureIndex(working.contents.value)
    ensures session.suction != null <==>
              session.moisture != null &&
              (old(exportDisk.contents).Present? || (old(exportDisk.contents).Absent? && exportCreateOk))
    ensures session.cursor == ResumeIndex(LoadProgress(progress.contents))
    ensures session.usedMoisture == {} && session.usedSuction == {} && session.last == None
  {
    var jobData := ExcelToJSON(labFile);
    var samples: seq<SampleData> := [];
    if jobData.Ok? {
      samples := jobData.value.samples;
    }
    var init := InitMoistureTestFile(dirOk, labFile, working, copyOk);
    var moistureWriter: MoistureTestWriter? := null;
    var suctionWriter: SoilSuctionWriter? := null;
    if init.Ok? {
      moistureWriter := init.value;
      var w := InitSoilSuctionFile(exportDisk, exportCreateOk, moistureWriter.file);
      if w.Ok? {
        suctionWriter := w.value;
      }
    }
    session := new CaptureSession(jobNumber, samples, checkDuplicates, moistureWriter, suctionWriter, exportDisk,
                                  backup, oven, progress);
  }
}
