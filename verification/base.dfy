/** Failure-carrying wrappers shared by every module of the model. */
module Base {

  /** A value that may be absent: Go's nil pointer, TypeScript's null/undefined. */
  datatype Option<+T> = None | Some(value: T)

  /** The (value, error) pair a Go function returns, with exactly one side set. */
  datatype Result<+T, +E> = Success(value: T) | Failure(error: E)
}
