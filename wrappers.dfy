/** Optional values and failure-carrying results used across the model. */
module Wrappers {

  /** A Java reference that may be null, or a lookup that may find nothing. */
  datatype Option<+T> = None | Some(value: T)

  /** The value a Java method returns, or the ApiException it throws instead. */
  datatype Result<+T, +E> = Success(value: T) | Failure(error: E)

  /** The completion of a void Java method: it returns, or throws an ApiException. */
  datatype Outcome<+E> = Pass | Fail(error: E)
}
