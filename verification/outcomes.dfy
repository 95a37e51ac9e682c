/** Failure-aware result values returned by the order engine instead of message strings. */
module Outcomes {

  /** Either the value an operation produced or the error kind that stopped it. */
  datatype Result<+T, +E> = Ok(value: T) | Err(error: E)

  /** A value that may be absent, such as a row a lookup did not find. */
  datatype Option<+T> = None | Some(value: T)
}
