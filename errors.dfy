/** Error codes and result wrappers of the booking service.
    A Java `PreconditionException(ErrorCode.X)` becomes a `Failure(X)` / `Fail(X)` value. */
module Errors {

  /** The error codes this service raises. */
  datatype ErrorCode =
    | InvalidBranchCode
    | InvalidVaccineCode
    | InvalidPaymentMethod
    | InvalidTimeslotId
    | TimeslotUnavailable
    | InvalidSchedule
    | InternalServerError

  /** A repository `Optional`. */
  datatype Option<T> = None | Some(value: T)

  /** The outcome of an operation that returns a value or throws a precondition failure. */
  datatype Result<T> = Success(value: T) | Failure(error: ErrorCode)

  /** The outcome of a `void` operation that may throw a precondition failure. */
  datatype Outcome = Pass | Fail(error: ErrorCode)
}
