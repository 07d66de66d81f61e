/** Failure-carrying values used wherever the Go code returns `(T, error)`,
    `error` alone, or a nil pointer. */
module Results {

  /** A value that may be missing: a nil pointer, an unset variable, a panic. */
  datatype Option<+T> = None | Some(value: T)

  /** The Go pair `(value, err)`: exactly one of the two is meaningful. */
  datatype Result<+T, +E> = Ok(value: T) | Err(error: E)

  /** An `error` return on its own: nil, or the error. */
  datatype Outcome<+E> = Pass | Fail(error: E)
}
