/** Option and Result: Java's `null` and thrown exceptions as values. */
module Wrappers {

  /** A possibly-null Java reference. */
  datatype Option<+T> = None | Some(value: T)

  /** A normal return (`Ok`) or an exception that escaped the call (`Err`). */
  datatype Result<+T, +E> = Ok(value: T) | Err(error: E)
}
