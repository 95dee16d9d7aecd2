/**
 * Shared vocabulary of the ShareIt backend model: the exception classes the
 * services throw, as an error datatype, and the Result/Outcome wrappers that
 * replace throwing.
 */
module Common {

  /** Identifiers are Java `Long`/`int` values; generated ones start at 1. */
  type Id = int

  /** Timestamps (`LocalDateTime`) are modelled as integers; larger is later. */
  type Timestamp = int

  datatype Option<T> = None | Some(value: T)

  /** One constructor per exception class the core throws. */
  datatype Error =
    | NotFound             // EntityNotFoundException
    | ForbiddenAccess      // ForbiddenAccessException
    | IllegalEntityAccess  // IllegalEntityAccessException
    | Unavailable          // EntityAvailabilityException
    | Validation           // ValidationException
    | IllegalArgument      // IllegalArgumentException
    | UnsupportedState     // UnsupportedStateException
    | AlreadyExists        // EntityAlreadyExistsException

  /** A value, or the exception that aborted the operation. */
  datatype Result<T> = Ok(value: T) | Err(error: Error)

  /** The outcome of a `void` operation. */
  datatype Outcome = Pass | Fail(error: Error)
}
