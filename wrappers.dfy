/** Failure-carrying results. Errors are the text of the Go `error` they model. */
module Wrappers {

  datatype Option<+T> = None | Some(value: T)

  /** A Go `(value, error)` pair where exactly one side is meaningful. */
  datatype Result<+T> = Success(value: T) | Failure(error: string)
}
