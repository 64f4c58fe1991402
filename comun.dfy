/** Failure-carrying wrappers shared by the apportionment modules. */
module Comun {

  /** A value that may be absent (Python's `None`). */
  datatype Option<T> = None | Some(value: T)

  /** The outcome of an operation that can raise an error. */
  datatype Result<T, E> = Ok(value: T) | Err(error: E)
}
