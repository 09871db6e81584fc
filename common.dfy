/** Values shared by every handler: optional values, results, the JSON responses
    the route handlers build, and the session the identity provider supplies. */
module Common {

  datatype Option<+T> = None | Some(value: T) {
    /** `x || d` for a possibly absent value. */
    function GetOr(default: T): T {
      match this
      case Some(v) => v
      case None => default
    }
  }

  datatype Result<+T, +E> = Success(value: T) | Failure(error: E)

  /** A JSON response: its HTTP status and the optional `success`, `data` and
      `error` members of its body (a member that is absent is `None`). */
  datatype Response<T> = Response(status: int, success: Option<bool>, data: Option<T>, error: Option<string>)

  /** What a server action returns: `{ success: true, message }` or
      `{ success: false, error }`. */
  datatype ActionResult = Added(message: string) | Refused(error: string)

  /** The body `{ success: false, error }` with the given status. */
  function Refusal<T>(status: int, error: string): Response<T> {
    Response(status, Some(false), None, Some(error))
  }

  /** The session's user id; the handlers test it with `!userId`, so an empty
      id counts as signed out too. */
  predicate SignedIn(session: Option<string>) {
    session.Some? && session.value != ""
  }
}
