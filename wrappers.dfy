/** Java's nullable references and the result of a call that may throw. */
module Wrappers {

  /** A Java reference that may be `null`. */
  datatype Nullable<+T> = Null | NonNull(value: T)

  /** Success value or failure value, for helpers that throw instead of returning. */
  datatype Result<+T, +E> = Success(value: T) | Failure(error: E)
}
