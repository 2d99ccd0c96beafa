/** Failure-carrying values used across the model: a lookup that may miss,
    and a computation that may raise. */
module Wrappers {

  datatype Option<T> = None | Some(value: T)
}
