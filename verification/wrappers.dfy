/** Option and Result, the shapes the model uses for Rust's `Option` and for
    operations that either return a value or panic. */
module Wrappers {

  datatype Option<+T> = None | Some(value: T)

  /** `Failure` carries the reason a Rust call would have panicked. */
  datatype Result<+R, +E> = Success(value: R) | Failure(error: E)
}
