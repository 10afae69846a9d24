/** Option and Result for the lookups and parses of the notifier that can fail. */
module Wrappers {

  /** A value that may be absent: a missing key, a JSON `null`. */
  datatype Option<+T> = None | Some(value: T)

  /** The value of an operation, or the error that stopped it. */
  datatype Result<+T, +E> = Ok(value: T) | Err(error: E)
}
