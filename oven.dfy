/**
 * The oven ledger: the moisture cans currently drying, kept in one JSON file
 * shared by every job. Can numbers in it are meant to be unique.
 */
module Oven {
  import opened Wrappers

  /** One can in the oven and where its dry weight is to be written. */
  datatype OvenCan = OvenCan(
    canNumber: string,
    jobNumber: string,
    boringNumber: string,
    depth: string,
    timeIn: string,
    moistureSheet: string,
    moistureColumn: string)

  datatype OvenTracking = OvenTracking(cans: seq<OvenCan>, lastUpdated: string)

  /** Some record of the ledger carries the can number. */
  predicate InOven(cans: seq<OvenCan>, canNumber: string) {
    exists i | 0 <= i < |cans| :: cans[i].canNumber == canNumber
  }

  /** No two records carry the same can number. */
  predicate Unique(cans: seq<OvenCan>) {
    forall i, j | 0 <= i < j < |cans| :: cans[i].canNumber != cans[j].canNumber
  }

  /**
   * `LoadOvenTracking`: a missing file is an empty ledger stamped `now`; a
   * file that cannot be read or decoded is an error.
   */
  function LoadOvenTracking(file: FileState<OvenTracking>, now: string): (r: Result<OvenTracking>)
    ensures r.Ok? <==> file.Absent? || file.Present?
    ensures file.Absent? ==> r == Ok(OvenTracking([], now))
    ensures file.Present? ==> r == Ok(file.value)
    ensures file.Unreadable? ==> r == Err(IOFailure)
    ensures file.Corrupt? ==> r == Err(Malformed)
  {
    match file
    case Absent => Ok(OvenTracking([], now))
    case Unreadable => Err(IOFailure)
    case Corrupt => Err(Malformed)
    case Present(t) => Ok(t)
  }

  /** The position of the first record carrying the can number. */
  function FirstMatch(cans: seq<OvenCan>, canNumber: string): (r: Option<nat>)
    ensures r.None? <==> !InOven(cans, canNumber)
    ensures r.Some? ==> r.value < |cans| && cans[r.value].canNumber == canNumber &&
                        forall i | 0 <= i < r.value :: cans[i].canNumber != canNumber
    decreases |cans|
  {
    if |cans| == 0 then None
    else if cans[0].canNumber == canNumber then Some(0)
    else
      var r := FirstMatch(cans[1..], canNumber);
      assert forall i | 1 <= i < |cans| :: cans[i] == cans[1..][i - 1];
      if r.None? then None else Some(r.value + 1)
  }

  /** The ledger with every record of the can number dropped, the others in order. */
  function Without(cans: seq<OvenCan>, canNumber: string): seq<OvenCan>
    decreases |cans|
  {
    if |cans| == 0 then []
    else Without(cans[..|cans| - 1], canNumber) +
         (if cans[|cans| - 1].canNumber == canNumber then [] else [cans[|cans| - 1]])
  }

  /** The record `RemoveCanFromOven` returns: the last one carrying the can number. */
  function LastMatch(cans: seq<OvenCan>, canNumber: string): Option<OvenCan>
    decreases |cans|
  {
    if |cans| == 0 then None
    else if cans[|cans| - 1].canNumber == canNumber then Some(cans[|cans| - 1])
    else LastMatch(cans[..|cans| - 1], canNumber)
  }

  /** What `Without` keeps: exactly the records of other cans. */
  lemma {:induction false} WithoutMembers(cans: seq<OvenCan>, canNumber: string, c: OvenCan)
    ensures c in Without(cans, canNumber) <==> c in cans && c.canNumber != canNumber
    ensures |Without(cans, canNumber)| <= |cans|
    decreases |cans|
  {
    if |cans| > 0 {
      WithoutMembers(cans[..|cans| - 1], canNumber, c);
      assert cans == cans[..|cans| - 1] + [cans[|cans| - 1]];
    }
  }

  /** `Without` works record by record, so it keeps the order of the ledger. */
  lemma {:induction false} WithoutAppend(a: seq<OvenCan>, b: seq<OvenCan>, canNumber: string)
    ensures Without(a + b, canNumber) == Without(a, canNumber) + Without(b, canNumber)
    decreases |b|
  {
    if |b| > 0 {
      assert (a + b)[..|a + b| - 1] == a + b[..|b| - 1];
      WithoutAppend(a, b[..|b| - 1], canNumber);
    } else {
      assert a + b == a;
    }
  }

  /** The returned record exists exactly when the can is in the oven, and carries its number. */
  lemma {:induction false} LastMatchSpec(cans: seq<OvenCan>, canNumber: string)
    ensures LastMatch(cans, canNumber).Some? <==> InOven(cans, canNumber)
    ensures LastMatch(cans, canNumber).Some? ==>
              LastMatch(cans, canNumber).value in cans && LastMatch(cans, canNumber).value.canNumber == canNumber
    decreases |cans|
  {
    if |cans| > 0 {
      var init := cans[..|cans| - 1];
      LastMatchSpec(init, canNumber);
      if InOven(init, canNumber) {
        var i :| 0 <= i < |init| && init[i].canNumber == canNumber;
        assert cans[i] == init[i];
      }
      if InOven(cans, canNumber) && cans[|cans| - 1].canNumber != canNumber {
        var i :| 0 <= i < |cans| && cans[i].canNumber == canNumber;
        assert init[i] == cans[i];
      }
    }
  }

  /** In a ledger without repeats the returned record is the only one of its can. */
  lemma UniqueLastIsFirst(cans: seq<OvenCan>, canNumber: string)
    requires Unique(cans) && InOven(cans, canNumber)
    ensures LastMatch(cans, canNumber) == Some(cans[FirstMatch(cans, canNumber).value])
  {
    LastMatchSpec(cans, canNumber);
    var c := LastMatch(cans, canNumber).value;
    var k :| 0 <= k < |cans| && cans[k] == c;
    var f := FirstMatch(cans, canNumber).value;
    assert k == f;
  }

  /** Adding a can that is not in the oven keeps the numbers unique. */
  lemma AddKeepsUnique(cans: seq<OvenCan>, c: OvenCan)
    requires Unique(cans) && !InOven(cans, c.canNumber)
    ensures Unique(cans + [c]) && InOven(cans + [c], c.canNumber)
  {
    assert (cans + [c])[|cans|] == c;
  }

  /** Removing keeps the numbers unique, and the can is then no longer in the oven. */
  lemma RemoveKeepsUnique(cans: seq<OvenCan>, canNumber: string)
    requires Unique(cans)
    ensures Unique(Without(cans, canNumber)) && !InOven(Without(cans, canNumber), canNumber)
  {
    var w := Without(cans, canNumber);
    forall i, j | 0 <= i < j < |w| ensures w[i].canNumber != w[j].canNumber {
      WithoutOrder(cans, canNumber, i, j);
    }
    if InOven(w, canNumber) {
      var i :| 0 <= i < |w| && w[i].canNumber == canNumber;
      WithoutMembers(cans, canNumber, w[i]);
    }
  }

  /** Two kept records come from two records in the same order. */
  lemma {:induction false} WithoutOrder(cans: seq<OvenCan>, canNumber: string, i: nat, j: nat)
    requires i < j < |Without(cans, canNumber)|
    ensures exists i', j' | 0 <= i' < j' < |cans| ::
              Without(cans, canNumber)[i] == cans[i'] && Without(cans, canNumber)[j] == cans[j']
    decreases |cans|
  {
    var init := cans[..|cans| - 1];
    var w0 := Without(init, canNumber);
    var w := Without(cans, canNumber);
    WithoutMembers(init, canNumber, w[i]);
    if j < |w0| {
      WithoutOrder(init, canNumber, i, j);
      var i', j' :| 0 <= i' < j' < |init| && w0[i] == init[i'] && w0[j] == init[j'];
      assert cans[i'] == init[i'] && cans[j'] == init[j'];
    } else {
      assert w[j] == cans[|cans| - 1];
      assert w[i] == w0[i] && w0[i] in init;
      var i' :| 0 <= i' < |init| && init[i'] == w0[i];
      assert cans[i'] == init[i'];
    }
  }

  /** In a ledger without repeats, removing a can in the oven shortens it by exactly one. */
  lemma {:induction false} RemoveCount(cans: seq<OvenCan>, canNumber: string)
    requires Unique(cans) && InOven(cans, canNumber)
    ensures |Without(cans, canNumber)| == |cans| - 1
    decreases |cans|
  {
    var init := cans[..|cans| - 1];
    assert Unique(init);
    if cans[|cans| - 1].canNumber == canNumber {
      assert !InOven(init, canNumber);
      WithoutNone(init, canNumber);
    } else {
      var i :| 0 <= i < |cans| && cans[i].canNumber == canNumber;
      assert init[i] == cans[i];
      RemoveCount(init, canNumber);
    }
  }

  /** Removing a can that is not in the oven changes nothing. */
  lemma {:induction false} WithoutNone(cans: seq<OvenCan>, canNumber: string)
    requires !InOven(cans, canNumber)
    ensures Without(cans, canNumber) == cans
    decreases |cans|
  {
    if |cans| > 0 {
      var init := cans[..|cans| - 1];
      assert !InOven(init, canNumber) by {
        forall i | 0 <= i < |init| ensures init[i].canNumber != canNumber {
          assert init[i] == cans[i];
        }
      }
      WithoutNone(init, canNumber);
      assert cans == init + [cans[|cans| - 1]];
    }
  }

  /** The loop of `RemoveCanFromOven`: the records kept, and the last record of the can. */
  method Partition(cans: seq<OvenCan>, canNumber: string) returns (newCans: seq<OvenCan>, removed: Option<OvenCan>)
    ensures newCans == Without(cans, canNumber)
    ensures removed == LastMatch(cans, canNumber)
  {
    newCans := [];
    removed := None;
    var i := 0;
    while i < |cans|
      invariant i <= |cans|
      invariant newCans == Without(cans[..i], canNumber)
      invariant removed == LastMatch(cans[..i], canNumber)
    {
      assert cans[..i + 1][..i] == cans[..i];
      if cans[i].canNumber == canNumber {
        removed := Some(cans[i]);
      } else {
        newCans := newCans + [cans[i]];
      }
      i := i + 1;
    }
    assert cans[..i] == cans;
  }

  /**
   * `SaveOvenTracking`: stamp the ledger with `now` and write it (`ok` is
   * whether the write succeeds).
   */
  method SaveOvenTracking(file: StoredFile<OvenTracking>, tracking: OvenTracking, now: string, ok: bool)
    returns (err: Option<Error>)
    modifies file
    ensures err == (if ok then None else Some(IOFailure))
    ensures file.contents == if ok then Present(tracking.(lastUpdated := now)) else old(file.contents)
    ensures ok ==> forall later :: GetCansInOven(file.contents, later) == Ok(tracking.cans) &&
                                   GetOvenCanCount(file.contents, later) == Ok(|tracking.cans|)
  {
    err := file.Write(tracking.(lastUpdated := now), ok);
  }

  /**
   * The ledger file after adding the can: unchanged when the ledger does not
   * load, already holds the can number or cannot be written; otherwise the
   * loaded ledger with the record appended, stamped `now`.
   */
  function AddedLedger(file: FileState<OvenTracking>, c: OvenCan, now: string, saveOk: bool): FileState<OvenTracking> {
    var loaded := LoadOvenTracking(file, now);
    if loaded.Ok? && !InOven(loaded.value.cans, c.canNumber) && saveOk
    then Present(OvenTracking(loaded.value.cans + [c], now))
    else file
  }

  /** An added can is in the ledger afterwards, unless the ledger could not be loaded or written. */
  lemma AddedLedgerHolds(file: FileState<OvenTracking>, c: OvenCan, now: string, saveOk: bool)
    requires LoadOvenTracking(file, now).Ok? && saveOk
    ensures var after := AddedLedger(file, c, now, saveOk);
            after.Present? && InOven(after.value.cans, c.canNumber) &&
            (Unique(LoadOvenTracking(file, now).value.cans) ==> Unique(after.value.cans))
  {
    var cans := LoadOvenTracking(file, now).value.cans;
    if !InOven(cans, c.canNumber) {
      assert (cans + [c])[|cans|] == c;
    } else {
      var i :| 0 <= i < |cans| && cans[i].canNumber == c.canNumber;
      assert file.value.cans[i] == cans[i];
    }
  }

  /**
   * `AddCanToOven`: a ledger that does not load, or one that already holds the
   * can number, is an error that changes nothing; otherwise one record,
   * stamped `now`, is appended and the ledger saved (`saveOk`).
   */
  method AddCanToOven(file: StoredFile<OvenTracking>, canNumber: string, jobNumber: string, boringNumber: string,
                      depth: string, moistureSheet: string, moistureColumn: string, now: string, saveOk: bool)
    returns (err: Option<Error>)
    modifies file
    ensures LoadOvenTracking(old(file.contents), now).Err? ==>
              err == Some(LoadOvenTracking(old(file.contents), now).error) && file.contents == old(file.contents)
    ensures LoadOvenTracking(old(file.contents), now).Ok? ==>
              var cans := LoadOvenTracking(old(file.contents), now).value.cans;
              (InOven(cans, canNumber) ==>
                 err == Some(AlreadyInOven(canNumber)) && file.contents == old(file.contents)) &&
              (!InOven(cans, canNumber) ==>
                 var c := OvenCan(canNumber, jobNumber, boringNumber, depth, now, moistureSheet, moistureColumn);
                 err == (if saveOk then None else Some(IOFailure)) &&
                 file.contents == if saveOk then Present(OvenTracking(cans + [c], now)) else old(file.contents))
    ensures file.contents ==
              AddedLedger(old(file.contents), OvenCan(canNumber, jobNumber, boringNumber, depth, now, moistureSheet, moistureColumn),
                          now, saveOk)
  {
    var loaded := LoadOvenTracking(file.contents, now);
    if loaded.Err? {
      return Some(loaded.error);
    }
    var tracking := loaded.value;
    if FirstMatch(tracking.cans, canNumber).Some? {
      return Some(AlreadyInOven(canNumber));
    }
    var newCan := OvenCan(canNumber, jobNumber, boringNumber, depth, now, moistureSheet, moistureColumn);
    tracking := tracking.(cans := tracking.cans + [newCan]);
    err := SaveOvenTracking(file, tracking, now, saveOk);
  }

  /**
   * The ledger file after removing the can: unchanged when the ledger does
   * not load, does not hold the can number or cannot be written; otherwise
   * the loaded ledger without the can's records, stamped `now`.
   */
  function RemovedLedger(file: FileState<OvenTracking>, canNumber: string, now: string, saveOk: bool)
    : FileState<OvenTracking>
  {
    var loaded := LoadOvenTracking(file, now);
    if loaded.Ok? && InOven(loaded.value.cans, canNumber) && saveOk
    then Present(OvenTracking(Without(loaded.value.cans, canNumber), now))
    else file
  }

  /** Removing a can that is in the oven leaves no record of it and a shorter ledger. */
  lemma {:induction false} RemovedLeavesNone(cans: seq<OvenCan>, canNumber: string)
    requires InOven(cans, canNumber)
    ensures !InOven(Without(cans, canNumber), canNumber)
    ensures |Without(cans, canNumber)| < |cans|
    decreases |cans|
  {
    var w := Without(cans, canNumber);
    if InOven(w, canNumber) {
      var i :| 0 <= i < |w| && w[i].canNumber == canNumber;
      WithoutMembers(cans, canNumber, w[i]);
    }
    var init := cans[..|cans| - 1];
    WithoutMembers(init, canNumber, cans[0]);
    if cans[|cans| - 1].canNumber != canNumber {
      var i :| 0 <= i < |cans| && cans[i].canNumber == canNumber;
      assert init[i] == cans[i];
      RemovedLeavesNone(init, canNumber);
    }
  }

  /**
   * `RemoveCanFromOven`: a ledger that does not load, or one without the can
   * number, is an error that changes nothing; otherwise every record of the
   * can is dropped, the rest kept in order, the ledger saved (`saveOk`) and
   * the last dropped record returned.
   */
  method RemoveCanFromOven(file: StoredFile<OvenTracking>, canNumber: string, now: string, saveOk: bool)
    returns (r: Result<OvenCan>)
    modifies file
    ensures LoadOvenTracking(old(file.contents), now).Err? ==>
              r == Err(LoadOvenTracking(old(file.contents), now).error) && file.contents == old(file.contents)
    ensures LoadOvenTracking(old(file.contents), now).Ok? ==>
              var cans := LoadOvenTracking(old(file.contents), now).value.cans;
              (!InOven(cans, canNumber) ==>
                 r == Err(NotInOven(canNumber)) && file.contents == old(file.contents)) &&
              (InOven(cans, canNumber) ==>
                 (saveOk ==> LastMatch(cans, canNumber).Some? && r == Ok(LastMatch(cans, canNumber).value)) &&
                 (!saveOk ==> r == Err(IOFailure)) &&
                 file.contents == if saveOk then Present(OvenTracking(Without(cans, canNumber), now)) else old(file.contents))
    ensures file.contents == RemovedLedger(old(file.contents), canNumber, now, saveOk)
  {
    var loaded := LoadOvenTracking(file.contents, now);
    if loaded.Err? {
      return Err(loaded.error);
    }
    var tracking := loaded.value;
    var newCans, removed := Partition(tracking.cans, canNumber);
    LastMatchSpec(tracking.cans, canNumber);
    if removed.None? {
      return Err(NotInOven(canNumber));
    }
    tracking := tracking.(cans := newCans);
    var err := SaveOvenTracking(file, tracking, now, saveOk);
    if err.Some? {
      return Err(err.value);
    }
    return Ok(removed.value);
  }

  /** `GetCansInOven`: the records of the ledger. */
  function GetCansInOven(file: FileState<OvenTracking>, now: string): (r: Result<seq<OvenCan>>)
    ensures r.Ok? <==> LoadOvenTracking(file, now).Ok?
    ensures r.Ok? ==> r.value == LoadOvenTracking(file, now).value.cans
  {
    match LoadOvenTracking(file, now)
    case Err(e) => Err(e)
    case Ok(t) => Ok(t.cans)
  }

  /** `IsCanInOven`: whether the can is in the oven, and its first record when it is. */
  function IsCanInOven(file: FileState<OvenTracking>, canNumber: string, now: string): (r: Result<(bool, Option<OvenCan>)>)
    ensures r.Ok? <==> LoadOvenTracking(file, now).Ok?
    ensures r.Ok? ==> (r.value.0 <==> InOven(LoadOvenTracking(file, now).value.cans, canNumber))
    ensures r.Ok? ==> (r.value.1.Some? <==> r.value.0)
    ensures r.Ok? && r.value.1.Some? ==>
              r.value.1.value.canNumber == canNumber && r.value.1.value in LoadOvenTracking(file, now).value.cans
  {
    match LoadOvenTracking(file, now)
    case Err(e) => Err(e)
    case Ok(t) =>
      match FirstMatch(t.cans, canNumber)
      case None => Ok((false, None))
      case Some(i) => Ok((true, Some(t.cans[i])))
  }

  /** `GetOvenCanCount`: how many records the ledger holds. */
  function GetOvenCanCount(file: FileState<OvenTracking>, now: string): (r: Result<nat>)
    ensures r.Ok? <==> LoadOvenTracking(file, now).Ok?
    ensures r.Ok? ==> r.value == |LoadOvenTracking(file, now).value.cans|
    ensures file.Absent? ==> r == Ok(0)
  {
    match LoadOvenTracking(file, now)
    case Err(e) => Err(e)
    case Ok(t) => Ok(|t.cans|)
  }

  /** Once a can is added it is reported in the oven, with the added record, and the count has grown by one. */
  lemma AddThenQuery(cans: seq<OvenCan>, c: OvenCan, now: string)
    requires !InOven(cans, c.canNumber)
    ensures IsCanInOven(Present(OvenTracking(cans + [c], now)), c.canNumber, now) == Ok((true, Some(c)))
    ensures GetOvenCanCount(Present(OvenTracking(cans + [c], now)), now) == Ok(|cans| + 1)
  {
    assert (cans + [c])[|cans|] == c;
  }

  /** Once a can is removed from a ledger without repeats, it is not in the oven and the count has dropped by one. */
  lemma RemoveThenQuery(cans: seq<OvenCan>, canNumber: string, now: string)
    requires Unique(cans) && InOven(cans, canNumber)
    ensures IsCanInOven(Present(OvenTracking(Without(cans, canNumber), now)), canNumber, now) == Ok((false, None))
    ensures GetOvenCanCount(Present(OvenTracking(Without(cans, canNumber), now)), now) == Ok(|cans| - 1)
  {
    RemoveKeepsUnique(cans, canNumber);
    RemoveCount(cans, canNumber);
  }
}
