/** Optional values and results with an error message, as the actions use
    them: a missing document is `None`, a thrown error is `Failure`. */
module Wrappers {

  datatype Option<+T> = None | Some(value: T)

  datatype Result<+T> = Success(value: T) | Failure(error: string)

  /** An operation that returns nothing on success. */
  datatype Outcome = Pass | Fail(error: string)
}
