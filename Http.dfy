/** Route outcomes and the session check shared by the API routes. */
module Http {
  import opened Wrappers

  /** The response statuses the routes return. */
  datatype Status = Ok | BadRequest | Unauthorized | NotFound | InternalError

  /** The numeric HTTP status code of each outcome. */
  function Code(s: Status): (code: int)
    ensures 200 <= code < 600
    ensures (code == 200) <==> s == Ok
  {
    match s
    case Ok => 200
    case BadRequest => 400
    case Unauthorized => 401
    case NotFound => 404
    case InternalError => 500
  }

  /** `session?.user?.id` is truthy: a session exists and its user id is a non-empty string. */
  predicate SignedIn(session: Option<string>) {
    session.Some? && session.value != ""
  }

  /** A JavaScript string value is truthy when it is present and non-empty. */
  predicate Truthy(s: Option<string>) {
    s.Some? && s.value != ""
  }
}
