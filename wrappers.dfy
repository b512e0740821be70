/** Optional values and results with an error, for Go's nil pointers and panics. */
module Wrappers {

  /** A value that may be absent: Go's nil pointer (`*string`, `*int`). */
  datatype Option<+T> = None | Some(value: T)

  /** A computation that either produced a value or stopped with an error. */
  datatype Result<+R, +E> = Success(value: R) | Failure(error: E)
}
