/** Failure-carrying values used by the parser: the conversion of a field to a
    number may fail, and constructing a prompt may fail. */
module Wrappers {

  datatype Option<+T> = None | Some(value: T)

  datatype Result<+R, +E> = Ok(value: R) | Err(error: E)
}
