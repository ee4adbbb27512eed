/** Failure-compatible wrappers shared by the neuron model. */
module Wrappers {

  /** A value that may be absent: an unset dictionary entry, a missing fault. */
  datatype Option<T> = None | Some(value: T)

  /** The outcome of an operation that either yields a value or throws. */
  datatype Result<T, E> = Ok(value: T) | Err(error: E)
}
