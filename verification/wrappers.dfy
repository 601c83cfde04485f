/** Option and Result: the model's stand-ins for Java's null and for thrown
    exceptions / raised errors. */
module Wrappers {

  /** `None` plays the part of a Java `null` or a Python `None`. */
  datatype Option<+T> = None | Some(value: T) {
    function GetOr(default: T): T {
      match this
      case Some(v) => v
      case None => default
    }
  }

  /** `Err` carries the message of the exception the source raises. */
  datatype Result<+R, +E> = Ok(value: R) | Err(error: E)
}
