/** Small shared types: optional values, results with an error, and bytes. */
module Common {

  /** A value that may be absent (a Go nil, a failed parse). */
  datatype Option<+T> = None | Some(value: T)

  /** A value or the error that prevented it (Go's `(T, error)` pair). */
  datatype Result<+T, +E> = Ok(value: T) | Err(error: E)

  /** An 8-bit byte, the element type of Go's `[]byte`. */
  newtype byte = x: int | 0 <= x < 256
}
