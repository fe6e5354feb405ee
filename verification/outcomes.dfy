/** Failure-carrying wrappers shared by the modules of this model. */
module Outcomes {

  /** A value that may be absent: JavaScript's `null`/`undefined` or a missing field. */
  datatype Option<+T> = None | Some(value: T)

  /** Either a value or the reason it could not be produced. */
  datatype Result<+T, +E> = Success(value: T) | Failure(error: E)
}
