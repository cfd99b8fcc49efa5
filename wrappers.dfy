/** Failure-carrying datatypes used for the Java code's nulls and exceptions. */
module Wrappers {

  /** A possibly-absent value: Java's `null` becomes `None`. */
  datatype Option<+T> = None | Some(value: T) {
    function GetOr(default: T): T {
      match this
      case Some(v) => v
      case None => default
    }
  }

  /** The outcome of an operation that may throw: `Failure` carries the exception message. */
  datatype Result<+R> = Success(value: R) | Failure(error: string)
}
