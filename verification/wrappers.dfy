/** Failure-carrying values used throughout the model: Go's `(value, error)`
    pairs become `Result`, a nil pointer becomes `None`. */
module Wrappers {

  datatype Option<+T> = None | Some(value: T)

  datatype Result<+T, +E> = Ok(value: T) | Err(error: E)
}
