/** Option, Result and Outcome: the null-or-value and value-or-thrown-error shapes of the source. */
module Wrappers {

  /** A value that may be absent (`null` or `undefined` in the source). */
  datatype Option<+T> = None | Some(value: T)

  /** A call that either returns a value or throws an error. */
  datatype Result<+R, +E> = Success(value: R) | Failure(error: E)

  /** A call whose only successful reply is `{ success: true }`, or that throws. */
  datatype Outcome<+E> = Pass | Fail(error: E)
}
