/**
 * The morning count screen: the cans that were in the oven when the screen
 * opened, and the dry weights entered for them one at a time. A saved dry
 * weight goes to the can's column of its job's lab file, and the can leaves
 * the oven ledger and the list.
 */
module MorningCount {
  import opened Wrappers
  import opened GoStrings
  import opened Workbook
  import opened Moisture
  import opened Oven

  /** What pressing Save did. */
  datatype CountOutcome =
    | MissingCan                 // the trimmed Can # is empty
    | MissingDryWeight           // the trimmed Dry Weight is empty
    | NotListed(number: string)  // no can of the list carries the number
    | WriteFailed(error: Error)  // the lab file could not be opened or saved
    | Saved(record: OvenCan)     // the dry weight was written for this record

  /** The list loop of `saveDryWeight`: the position of the first can carrying the number. */
  method FindCan(cans: seq<OvenCan>, canNum: string) returns (found: Option<nat>)
    ensures found == FirstMatch(cans, canNum)
  {
    found := None;
    var i := 0;
    while i < |cans|
      invariant i <= |cans|
      invariant forall k | 0 <= k < i :: cans[k].canNumber != canNum
    {
      if cans[i].canNumber == canNum {
        found := Some(i);
        break;
      }
      i := i + 1;
    }
    if found.None? {
      assert !InOven(cans, canNum);
    }
  }

  /** The rebuilding loop of `saveDryWeight`: the cans of other numbers, in order. */
  method KeepOtherCans(cans: seq<OvenCan>, canNum: string) returns (newCans: seq<OvenCan>)
    ensures newCans == Without(cans, canNum)
  {
    newCans := [];
    var i := 0;
    while i < |cans|
      invariant i <= |cans|
      invariant newCans == Without(cans[..i], canNum)
    {
      assert cans[..i + 1][..i] == cans[..i];
      if cans[i].canNumber != canNum {
        newCans := newCans + [cans[i]];
      }
      i := i + 1;
    }
    assert cans[..i] == cans;
  }

  /**
   * The screen's state: the listed cans, how many dry weights were saved,
   * the oven ledger, and each job's lab file by job number (a job without
   * an entry has no lab file to open).
   */
  class MorningCountScreen {
    var cansInOven: seq<OvenCan>
    var completedCount: nat
    const oven: StoredFile<OvenTracking>
    const labs: map<string, BookFile>

    /** Opening the screen lists the ledger's cans, or none when the ledger does not load. */
    constructor (oven: StoredFile<OvenTracking>, labs: map<string, BookFile>, now: string)
      ensures this.oven == oven && this.labs == labs
      ensures GetCansInOven(oven.contents, now).Ok? ==> cansInOven == GetCansInOven(oven.contents, now).value
      ensures GetCansInOven(oven.contents, now).Err? ==> cansInOven == []
      ensures completedCount == 0
    {
      this.oven := oven;
      this.labs := labs;
      var loaded := GetCansInOven(oven.contents, now);
      if loaded.Err? {
        cansInOven := [];
      } else {
        cansInOven := loaded.value;
      }
      completedCount := 0;
    }

    /**
     * `saveDryWeight`: the trimmed Can # and then the trimmed Dry Weight are
     * required; the can must be on the list, and its first record says
     * where the dry weight goes; a failed lab write ends the action with
     * nothing else changed; otherwise the can is removed from the ledger
     * (that failure is only logged), every record of it leaves the list and
     * the count goes up. `scan` and `show` are as for the lab write,
     * `labSaveOk` and `ovenSaveOk` whether the two saves succeed.
     */
    method SaveDryWeight(canRaw: string, dryRaw: string, scan: string -> real, show: real -> string,
                         labSaveOk: bool, now: string, ovenSaveOk: bool)
      returns (outcome: CountOutcome)
      modifies this, oven, labs.Values
      ensures var canNum, dryWeight := TrimSpace(canRaw), TrimSpace(dryRaw);
              var listed := FirstMatch(old(cansInOven), canNum);
              (canNum == "" ==> outcome == MissingCan) &&
              (canNum != "" && dryWeight == "" ==> outcome == MissingDryWeight) &&
              (canNum != "" && dryWeight != "" && listed.None? ==> outcome == NotListed(canNum)) &&
              (canNum != "" && dryWeight != "" && listed.Some? ==>
                 var can := old(cansInOven)[listed.value];
                 outcome == (if can.jobNumber in labs && old(labs[can.jobNumber].contents).Present? && labSaveOk
                             then Saved(can) else WriteFailed(IOFailure)))
      ensures !outcome.Saved? ==> unchanged(this) && unchanged(oven)
      ensures !outcome.Saved? ==> unchanged(labs.Values)
      ensures outcome.Saved? ==>
                forall j | j in labs && labs[j] != labs[outcome.record.jobNumber] :: unchanged(labs[j])
      ensures outcome.Saved? ==>
                var canNum := TrimSpace(canRaw);
                cansInOven == Without(old(cansInOven), canNum) &&
                completedCount == old(completedCount) + 1 &&
                oven.contents == RemovedLedger(old(oven.contents), canNum, now, ovenSaveOk)
      ensures outcome.Saved? ==>
                var can := outcome.record;
                var book := old(labs[can.jobNumber].contents).value;
                labs[can.jobNumber].contents ==
                  Present(DryWeightCells(book, can.moistureSheet, can.moistureColumn,
                                         DryWeightFigures(book, can.moistureSheet, can.moistureColumn,
                                                          TrimSpace(dryRaw), scan),
                                         show))
    {
      var canNum := TrimSpace(canRaw);
      var dryWeight := TrimSpace(dryRaw);
      if canNum == "" {
        return MissingCan;
      }
      if dryWeight == "" {
        return MissingDryWeight;
      }
      var found := FindCan(cansInOven, canNum);
      if found.None? {
        return NotListed(canNum);
      }
      var foundCan := cansInOven[found.value];
      if foundCan.jobNumber !in labs {
        return WriteFailed(IOFailure);
      }
      var err := WriteDryWeightToMoistureSheet(labs[foundCan.jobNumber], foundCan.moistureSheet,
                                               foundCan.moistureColumn, dryWeight, scan, show, labSaveOk);
      if err.Some? {
        return WriteFailed(err.value);
      }
      Complete(canNum, now, ovenSaveOk);
      outcome := Saved(foundCan);
    }

    /**
     * After the dry weight is written: the can leaves the ledger (a failure
     * there is only logged), every record of it leaves the list and the
     * count goes up.
     */
    method Complete(canNum: string, now: string, ovenSaveOk: bool)
      modifies this, oven
      ensures cansInOven == Without(old(cansInOven), canNum)
      ensures completedCount == old(completedCount) + 1
      ensures oven.contents == RemovedLedger(old(oven.contents), canNum, now, ovenSaveOk)
    {
      var _ := RemoveCanFromOven(oven, canNum, now, ovenSaveOk);
      var newCans := KeepOtherCans(cansInOven, canNum);
      cansInOven := newCans;
      completedCount := completedCount + 1;
    }
  }

  /**
   * A saved can is the first listed record of the entered number, and
   * afterwards no record of that number is listed and the list is shorter.
   */
  lemma SavedCanLeavesList(cans: seq<OvenCan>, canNum: string)
    requires FirstMatch(cans, canNum).Some?
    ensures cans[FirstMatch(cans, canNum).value].canNumber == canNum
    ensures !InOven(Without(cans, canNum), canNum)
    ensures |Without(cans, canNum)| < |cans|
  {
    RemovedLeavesNone(cans, canNum);
  }

  /** A can whose number repeats in the list is written once, for its first record, and then every record of it goes. */
  lemma RepeatedCanGoesWhole(cans: seq<OvenCan>, canNum: string, k: nat)
    requires k < |cans| && cans[k].canNumber == canNum
    ensures FirstMatch(cans, canNum).Some? && FirstMatch(cans, canNum).value <= k
    ensures cans[k] !in Without(cans, canNum)
  {
    WithoutMembers(cans, canNum, cans[k]);
  }
}
