/** Shared vocabulary of the backend: document ids, the error value every handler
    throws (status code, message, optional field errors), and the project roles. */
module Common {

  /** Mongo ObjectIds, one space per collection. */
  type UserId = nat
  type ProjectId = nat

  datatype Option<T> = None | Some(value: T)

  /** One `{ [path]: msg }` entry of a 422 payload. */
  datatype ErrorEntry = ErrorEntry(path: string, msg: string)

  /** The thrown `ApiError(statusCode, message, errors)`. */
  datatype ApiError = ApiError(status: nat, message: string, errors: seq<ErrorEntry>)

  function Error(status: nat, message: string): ApiError
  {
    ApiError(status, message, [])
  }

  /** What Express's default error handler answers for an exception that is not an
      ApiError (a TypeError, say). */
  const InternalError := Error(500, "Internal Server Error")

  /** A handler either responds with a value or throws an ApiError. */
  datatype Result<T> = Ok(value: T) | Err(error: ApiError)

  /** A middleware either calls `next()` or throws. */
  datatype Outcome = Next | Fail(error: ApiError)

  /** `UserRolesEnum` and `AvailableUserRole` (utils/constant.js). */
  const ADMIN := "admin"
  const PROJECT_ADMIN := "project_admin"
  const MEMBER := "member"
  const AvailableUserRole: seq<string> := [ADMIN, PROJECT_ADMIN, MEMBER]
}
