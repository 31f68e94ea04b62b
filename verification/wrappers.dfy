/** Small value wrappers shared by every module of the model. */
module Wrappers {

  /** A value that may be absent (JavaScript's `null` for a lookup). */
  datatype Option<+T> = None | Some(value: T)

  /** A result or an error, for a call whose failure the caller sees. */
  datatype Result<+T, +E> = Success(value: T) | Failure(error: E)

  /** The outcome of a JavaScript call that may throw: it returned `value`, or it threw. */
  datatype Attempt<+T> = Returned(value: T) | Threw
}
