/** Small generic result types shared by every layer of the model. */
module Wrappers {
  /** A value that may be absent: the C code's NULL pointer return. */
  datatype Option<T> = None | Some(value: T)

  /** An operation that either succeeds or reports an error of type E. */
  datatype Result<T, E> = Ok(value: T) | Err(error: E)
  {
    predicate IsFailure() { Err? }
  }
}
