/** Optional values and success/failure results shared by the whole model. */
module Outcomes {

  /** A value that may be absent: JavaScript's `undefined`/`null` on one side, a value on the other. */
  datatype Option<+T> = None | Some(value: T)

  /** The outcome of an operation that may throw: either its value or the thrown message. */
  datatype Result<+T> = Success(value: T) | Failure(error: string)
}
