/** Failure-compatible wrappers shared by every module of the model. */
module Common {

  /** A value that may be absent (JavaScript `undefined`/`null` where the source
      treats them alike). */
  datatype Option<+T> = None | Some(value: T)

  /** The outcome of an operation that the source may abort by throwing. */
  datatype Result<+T, +E> = Success(value: T) | Failure(error: E)
}
