/** Small failure-carrying datatypes shared by the host and device models. */
module Wrappers {

  /** A value that may be absent: Python's `None`, C#'s `null`. */
  datatype Option<+T> = None | Some(value: T)

  /** The outcome of a Python call that either returns a value or lets an exception escape. */
  datatype Py<+T> = Returned(value: T) | Raised

  /** An operation that fails with a message, such as a `raise RuntimeError(...)`. */
  datatype Result<+T> = Ok(value: T) | Err(message: string)
}
