/** Small result types shared by every component of the model. */
module Wrappers {

  datatype Option<+T> = None | Some(value: T)

  /** The error conditions the core reports to its callers. */
  datatype Error =
    | NoMapping(key: string)       // no sheet location is indexed for "boring|depth"
    | InvalidMapping(key: string)  // the indexed location does not split into two parts
    | IOFailure                    // reading, creating or writing a file failed
    | Malformed                    // a stored file exists but cannot be decoded
    | AlreadyInOven(can: string)   // the can number is already in the oven ledger
    | NotInOven(can: string)       // the can number is not in the oven ledger
    | NotFound                     // no backup record matches boring and depth

  datatype Result<+T> = Ok(value: T) | Err(error: Error)

  /**
   * What a read of a stored file finds: nothing at that path, a read failure,
   * bytes that do not decode, or a decoded value.
   */
  datatype FileState<+T> = Absent | Unreadable | Corrupt | Present(value: T)

  /** A JSON file on disk, holding a value of type `T` once decoded. */
  class StoredFile<T> {
    var contents: FileState<T>

    constructor (contents: FileState<T>)
      ensures this.contents == contents
    {
      this.contents := contents;
    }

    /** Encode and write `v`; `ok` is whether the write succeeds. */
    method Write(v: T, ok: bool) returns (err: Option<Error>)
      modifies this
      ensures err == (if ok then None else Some(IOFailure))
      ensures contents == if ok then Present(v) else old(contents)
      ensures !ok ==> unchanged(this)
    {
      if ok {
        contents := Present(v);
        err := None;
      } else {
        err := Some(IOFailure);
      }
    }
  }
}
