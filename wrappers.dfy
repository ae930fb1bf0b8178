/** Failure-compatible wrappers shared by every module of the model. */
module Wrappers {

  /** A value that may be absent. */
  datatype Option<+T> = None | Some(value: T)

  /** The Go convention `(value, error)`: exactly one of the two is meaningful. */
  datatype Result<+T, +E> = Ok(value: T) | Err(error: E)

  /** What a call that may panic does: it returns normally, or the goroutine panics
      (a nil dereference or a failed type assertion). Only the as-written variants of
      the three defective paths use it. */
  datatype MayPanic<+T> = Returned(value: T) | Panicked
}
