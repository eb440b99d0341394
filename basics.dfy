/** Option and Result: the shapes Go's nil pointers and (value, error) pairs take in this model. */
module Basics {

  /** A value that may be absent; `None` stands for Go's `nil`. */
  datatype Option<+T> = None | Some(value: T)

  /** The outcome of a Go call returning `(value, error)`: exactly one of the two is present. */
  datatype Result<+T, +E> = Ok(value: T) | Err(error: E)
}
