/** Failure-carrying values used for the Go `(value, error)` returns. */
module Wrappers {

  /** `None` stands for a Go `nil` error or pointer. */
  datatype Option<+T> = None | Some(value: T)

  /** Either a value or a failure; used where Go returns a nil pointer on error. */
  datatype Result<+R, +E> = Success(value: R) | Failure(error: E)
}
