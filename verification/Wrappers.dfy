/** Failure-carrying results shared by every component. */
module Wrappers {

  /** A value that may be absent (`null` in the browser code, `None` on the server). */
  datatype Option<+T> = None | Some(value: T)

  /** A call that either returns or raises. */
  datatype Result<+T, +E> = Ok(value: T) | Err(error: E)
}
