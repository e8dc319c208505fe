/** Failure-carrying values used across the model. */
module Wrappers {

  /** A Java reference that may be null. */
  datatype Option<+T> = None | Some(value: T)

  /** A computation that either returns a value or raises an exception. */
  datatype Result<+T, +E> = Ok(value: T) | Err(error: E)

  /**
   * The unchecked exceptions the modelled Java code can raise and does not
   * catch: a dereferenced null, Integer.parseInt on text that is not a
   * 32-bit decimal, and an index past the end of an array or list.
   */
  datatype JavaException = NullPointer | NumberFormat | IndexOutOfBounds
}
