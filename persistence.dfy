/**
 * The per-job JSON files of a capture session: the backup log, which gets
 * one record per captured sample, and the progress file, which holds the
 * index of the next sample to capture.
 */
module Persistence {
  import opened Wrappers

  /** One captured sample as the backup log records it. */
  datatype SampleBackup = SampleBackup(
    jobNumber: string,
    boringNumber: string,
    depth: string,
    canNumber: string,
    canWeight: string,
    wetWeight: string,
    suctionCanNo: string,
    timestamp: string)

  /** The backup log of a job. */
  datatype BackupData = BackupData(
    jobNumber: string,
    lastUpdated: string,
    totalSamples: int,
    samples: seq<SampleBackup>)

  /** The progress file of a job. */
  datatype ProgressData = ProgressData(jobNumber: string, currentSampleIndex: int, lastSaved: string)

  /** An empty log for the job, as `SaveSampleBackup` starts one. */
  function EmptyBackup(jobNumber: string): BackupData {
    BackupData(jobNumber, "", 0, [])
  }

  /**
   * The log `SaveSampleBackup` appends to: the stored one when the file reads
   * and decodes, a fresh empty one for the job otherwise.
   */
  function BackupBase(file: FileState<BackupData>, jobNumber: string): (b: BackupData)
    ensures file.Present? ==> b == file.value
    ensures !file.Present? ==> b == EmptyBackup(jobNumber)
  {
    if file.Present? then file.value else EmptyBackup(jobNumber)
  }

  /** A log with one more record at the end, recounted and stamped `now`. */
  function Appended(backup: BackupData, record: SampleBackup, now: string): BackupData {
    var samples := backup.samples + [record];
    backup.(samples := samples, totalSamples := |samples|, lastUpdated := now)
  }

  /**
   * Appending keeps every earlier record in place, puts the new one last and
   * makes the count agree with the records, whatever the stored count was.
   */
  lemma AppendedSpec(backup: BackupData, record: SampleBackup, now: string)
    ensures var b := Appended(backup, record, now);
            |b.samples| == |backup.samples| + 1 &&
            b.samples[..|backup.samples|] == backup.samples &&
            b.samples[|backup.samples|] == record &&
            b.totalSamples == |b.samples| &&
            b.jobNumber == backup.jobNumber && b.lastUpdated == now
  {
    var b := Appended(backup, record, now);
    assert b.samples[..|backup.samples|] == backup.samples;
  }

  /** A missing, unreadable or undecodable log restarts with just the new record. */
  lemma RestartedLog(file: FileState<BackupData>, jobNumber: string, record: SampleBackup, now: string)
    requires !file.Present?
    ensures Appended(BackupBase(file, jobNumber), record, now) == BackupData(jobNumber, now, 1, [record])
  {
  }

  /**
   * `SaveSampleBackup`: create the job directory (`dirOk`), append the record
   * stamped `now` to the log and write it (`writeOk`). A failure is returned
   * and leaves the file as it was.
   */
  method SaveSampleBackup(dirOk: bool, file: StoredFile<BackupData>, jobNumber: string, boringNumber: string,
                          depth: string, canNo: string, canWeight: string, wetWeight: string,
                          suctionCanNo: string, now: string, writeOk: bool)
    returns (err: Option<Error>)
    modifies file
    ensures err == (if dirOk && writeOk then None else Some(IOFailure))
    ensures file.contents ==
              if dirOk && writeOk
              then Present(Appended(BackupBase(old(file.contents), jobNumber),
                                    SampleBackup(jobNumber, boringNumber, depth, canNo, canWeight, wetWeight,
                                                 suctionCanNo, now), now))
              else old(file.contents)
  {
    if !dirOk {
      return Some(IOFailure);
    }
    var backup := BackupBase(file.contents, jobNumber);
    var newSample := SampleBackup(jobNumber, boringNumber, depth, canNo, canWeight, wetWeight, suctionCanNo, now);
    backup := backup.(samples := backup.samples + [newSample]);
    backup := backup.(totalSamples := |backup.samples|);
    backup := backup.(lastUpdated := now);
    err := file.Write(backup, writeOk);
  }

  /**
   * `SaveProgress`: create the job directory (`dirOk`) and write the index
   * with the user name (`writeOk`).
   */
  method SaveProgress(dirOk: bool, file: StoredFile<ProgressData>, jobNumber: string, currentSampleIndex: int,
                      user: string, writeOk: bool)
    returns (err: Option<Error>)
    modifies file
    ensures err == (if dirOk && writeOk then None else Some(IOFailure))
    ensures file.contents ==
              if dirOk && writeOk then Present(ProgressData(jobNumber, currentSampleIndex, user))
              else old(file.contents)
    ensures dirOk && writeOk ==> LoadProgress(file.contents) == Ok(currentSampleIndex)
  {
    if !dirOk {
      return Some(IOFailure);
    }
    err := file.Write(ProgressData(jobNumber, currentSampleIndex, user), writeOk);
  }

  /**
   * `LoadProgress`: no progress file means start at 0; a file that cannot be
   * read or decoded is an error; otherwise the stored index.
   */
  function LoadProgress(file: FileState<ProgressData>): (r: Result<int>)
    ensures file.Absent? ==> r == Ok(0)
    ensures file.Present? ==> r == Ok(file.value.currentSampleIndex)
    ensures r.Err? <==> file.Unreadable? || file.Corrupt?
    ensures file.Unreadable? ==> r == Err(IOFailure)
    ensures file.Corrupt? ==> r == Err(Malformed)
  {
    match file
    case Absent => Ok(0)
    case Unreadable => Err(IOFailure)
    case Corrupt => Err(Malformed)
    case Present(p) => Ok(p.currentSampleIndex)
  }

  /**
   * Loading the backup log for editing (`LoadBackupData`, defined outside the
   * files modelled here): the stored log, or an error when there is none or it
   * cannot be read or decoded.
   */
  function LoadBackupData(file: FileState<BackupData>): (r: Result<BackupData>)
    ensures r.Ok? <==> file.Present?
    ensures file.Present? ==> r.value == file.value
    ensures file.Corrupt? ==> r == Err(Malformed)
  {
    match file
    case Present(b) => Ok(b)
    case Corrupt => Err(Malformed)
    case _ => Err(IOFailure)
  }

  /** A record with its four measurement fields replaced. */
  function WithMeasurements(s: SampleBackup, canNo: string, canWeight: string, wetWeight: string,
                            suctionCanNo: string): SampleBackup {
    s.(canNumber := canNo, canWeight := canWeight, wetWeight := wetWeight, suctionCanNo := suctionCanNo)
  }

  /** A record keeps its job, boring, depth and timestamp when its measurements are edited. */
  lemma WithMeasurementsKeeps(s: SampleBackup, canNo: string, canWeight: string, wetWeight: string,
                              suctionCanNo: string)
    ensures var e := WithMeasurements(s, canNo, canWeight, wetWeight, suctionCanNo);
            e.jobNumber == s.jobNumber && e.boringNumber == s.boringNumber && e.depth == s.depth &&
            e.timestamp == s.timestamp &&
            e.canNumber == canNo && e.canWeight == canWeight && e.wetWeight == wetWeight &&
            e.suctionCanNo == suctionCanNo
  {
  }

  /** The log with the measurements of record `i` edited. */
  function EditAt(samples: seq<SampleBackup>, i: nat, canNo: string, canWeight: string, wetWeight: string,
                  suctionCanNo: string): (r: seq<SampleBackup>)
    requires i < |samples|
    ensures |r| == |samples|
    ensures forall k | 0 <= k < |r| && k != i :: r[k] == samples[k]
    ensures r[i] == WithMeasurements(samples[i], canNo, canWeight, wetWeight, suctionCanNo)
  {
    samples[i := WithMeasurements(samples[i], canNo, canWeight, wetWeight, suctionCanNo)]
  }

  /** The position of the first record of the sample at `boring`/`depth`, in log order. */
  function FirstRecord(samples: seq<SampleBackup>, boring: string, depth: string): (r: Option<nat>)
    ensures r.Some? ==> r.value < |samples|
    decreases |samples|
  {
    if |samples| == 0 then None
    else if samples[0].boringNumber == boring && samples[0].depth == depth then Some(0)
    else match FirstRecord(samples[1..], boring, depth)
      case None => None
      case Some(i) => Some(i + 1)
  }

  lemma {:induction false} FirstRecordSpec(samples: seq<SampleBackup>, boring: string, depth: string)
    ensures var r := FirstRecord(samples, boring, depth);
            (r.None? <==> forall k | 0 <= k < |samples| ::
                            !(samples[k].boringNumber == boring && samples[k].depth == depth)) &&
            (r.Some? ==> r.value < |samples| &&
                         samples[r.value].boringNumber == boring && samples[r.value].depth == depth &&
                         forall k | 0 <= k < r.value ::
                           !(samples[k].boringNumber == boring && samples[k].depth == depth))
    decreases |samples|
  {
    if |samples| > 0 && !(samples[0].boringNumber == boring && samples[0].depth == depth) {
      FirstRecordSpec(samples[1..], boring, depth);
      assert forall k | 1 <= k < |samples| :: samples[k] == samples[1..][k - 1];
    }
  }
}
