/** Failure-carrying results shared by the modules of this model. */
module Wrappers {

  /** A value that may be absent: Python's `None` versus an object. */
  datatype Option<+T> = None | Some(value: T)

  /** The outcome of an operation that the source may abort with an exception. */
  datatype Result<+R, +E> = Ok(value: R) | Err(error: E)
}
