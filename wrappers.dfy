/** Option and Result values, standing in for Rust's `Option<T>` and for
    operations that either succeed or fail with an error kind. */
module Wrappers {

  datatype Option<+T> = None | Some(value: T)

  datatype Result<+R, +E> = Success(value: R) | Failure(error: E)
}
