/** Optional values and error-carrying results, standing in for Go's nil pointers and (value, error) pairs. */
module Wrappers {

  /** A value that may be absent (a nil pointer or a failed lookup in the source). */
  datatype Option<+T> = None | Some(value: T)

  /** A value or an error, as a Go function returning `(T, error)` does. */
  datatype Result<+T, +E> = Ok(value: T) | Err(error: E)

  /** Success or an error, as a Go function returning only `error` does. */
  datatype Outcome<+E> = Pass | Fail(error: E)
}
