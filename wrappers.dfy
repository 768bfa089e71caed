/** Failure-carrying values: an absent field or null reference, and the outcome
    of an asynchronous browser API call, which either resolves or rejects. */
module Wrappers {

  /** A value that may be missing: `undefined` or `null` in the source. */
  datatype Option<+T> = None | Some(value: T)

  /** A call that resolves with a value or rejects with an error. */
  datatype Result<+T> = Ok(value: T) | Err(error: string)

  /** A call that resolves with nothing of interest or rejects with an error. */
  datatype Outcome = Pass | Fail(error: string)
}
