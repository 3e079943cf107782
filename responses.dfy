/**
 * The JSON replies of the route actions and the `catch` block they share,
 * which tells exception classes apart by `error.constructor`.
 */
module Responses {
  import opened Wrappers
  import opened PrismaErrors

  /** The exception classes the `catch` blocks distinguish; `Unexpected` is every other class. */
  datatype Failure =
    | KnownRequest(code: string)
    | UnknownRequest
    | RustPanic
    | Initialization
    | Validation
    | Unexpected

  /**
   * What an action answers: `Response.json(body, {status})` (status 200 when
   * none is given), or a redirect, which may clear the session cookie.
   */
  datatype Reply =
    | Json(success: bool, error: Option<string>, status: int)
    | Redirect(location: string, clearsCookie: bool)

  /** The reply of the `catch` block for a thrown failure. */
  function FailureReply(f: Failure): (r: Reply)
    ensures r.Json? && !r.success && r.error.Some?
    ensures r.status in {400, 404, 409, 500}
    ensures r.status == 400 <==> f.Validation? || (f.KnownRequest? && f.code in BadRequestCodes)
    ensures !f.KnownRequest? && !f.Validation? ==> r.status == 500
    ensures f.KnownRequest? ==>
      r.error == Some(KnownRequestError(f.code).message) && r.status == KnownRequestError(f.code).status
  {
    match f
    case KnownRequest(code) =>
      var info := KnownRequestError(code);
      StatusClasses(code);
      Json(false, Some(info.message), info.status)
    case UnknownRequest => Json(false, Some("Unknown error occurred."), 500)
    case RustPanic => Json(false, Some("Database engine crashed."), 500)
    case Initialization => Json(false, Some("Failed to initialize database connection."), 500)
    case Validation => Json(false, Some("Validation error in Prisma schema."), 400)
    case Unexpected => Json(false, Some("An unexpected error occurred."), 500)
  }
}
