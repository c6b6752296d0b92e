/** Optional values and success-or-failure results, used for nullable
    columns and rejected requests. */
module Wrappers {

  /** A nullable value: `None` stands for Kotlin's `null`. */
  datatype Option<+T> = None | Some(value: T)

  /** The outcome of an operation that may be rejected. */
  datatype Result<+R, +E> = Success(value: R) | Failure(error: E)
}
