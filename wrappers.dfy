/** Option, Result and the failure kinds the expense core signals. */
module Wrappers {

  /** A Java reference that may be null. */
  datatype Option<+T> = None | Some(value: T) {
    function GetOr(default: T): T {
      match this
      case Some(v) => v
      case None => default
    }
  }

  /** The outcome of an operation that may throw. */
  datatype Result<+R, +E> = Success(value: R) | Failure(error: E)

  /** The exceptions the core raises, by kind and message. */
  datatype Error =
    | NotFound(message: string)          // jakarta.persistence.EntityNotFoundException
    | IllegalArgument(message: string)   // java.lang.IllegalArgumentException
    | DateTimeParse(text: string)        // java.time.format.DateTimeParseException
    | StorageFailure                     // a row the store refuses to persist
}
