/**
 * The errors the verification service surfaces: a kind plus the HTTP code the
 * route layer answers with, and the outcomes of calls into sibling services.
 */
module Errors {

  /** The sibling HTTP services the core calls. */
  datatype Dependency = AccountApi | UlapdApi | MetricApi

  /** How a call into a sibling service can fail (the clients translate each into an error). */
  datatype Failure = HttpError | ConnectionError | Timeout

  datatype ErrorKind =
    | CaseNotFound
    | LockingError
    | VerificationError
    | SqlAlchemyError
    | DependencyFailure(dependency: Dependency, failure: Failure)

  /** An `ApplicationError`: its catalogue entry (the kind) and its `http_code`. */
  datatype AppError = AppError(kind: ErrorKind, httpCode: int)

  datatype Result<T> = Ok(value: T) | Err(error: AppError)

  /** The http_code an `ApplicationError` carries when none is passed. */
  const DEFAULT_HTTP_CODE: int := 500

  /** The error a dependency client raises: it passes no http_code, so the default applies. */
  function DependencyError(dependency: Dependency, failure: Failure): (e: AppError)
    ensures e.kind.DependencyFailure? && e.kind.dependency == dependency && e.kind.failure == failure
    ensures e.httpCode == DEFAULT_HTTP_CODE
  {
    AppError(DependencyFailure(dependency, failure), DEFAULT_HTTP_CODE)
  }

  /** An acknowledgement-only call: it either succeeds or fails. */
  datatype Ack = Acked | Refused(failure: Failure)

  /** A call that answers with a value, or fails. */
  datatype Reply<T> = Answered(value: T) | Unavailable(failure: Failure)

  /** What escapes the body of a service operation. */
  datatype Raised = StorageFailure | Application(error: AppError)

  /**
   * The `handle_errors` decorator: a storage failure is rewrapped as a
   * SQLALCHEMY_ERROR with code 500 on read operations and 422 on write
   * operations; an application error passes through untouched.
   */
  function HandleErrors(isGet: bool, raised: Raised): (e: AppError)
    ensures raised.Application? ==> e == raised.error
    ensures raised.StorageFailure? ==> e.kind == SqlAlchemyError
    ensures raised.StorageFailure? ==> (e.httpCode == 500 <==> isGet) && (e.httpCode == 422 <==> !isGet)
  {
    match raised
    case StorageFailure => AppError(SqlAlchemyError, if isGet then 500 else 422)
    case Application(error) => error
  }
}
