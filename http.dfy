/** The JSON responses the route handlers build with `NextResponse.json`. */
module Http {

  import opened Wrappers
  import opened Js
  import opened Store

  /** The `error` field of an error body: either a literal text of the source,
      or the `message` of whatever was thrown (undefined when the thrown value
      carries none). */
  datatype ErrText = Text(s: string) | MessageOf(thrown: Thrown)

  /** `error.message || fallback`: the fallback replaces a missing or empty
      message. The store's and the runtime's own errors always carry a message. */
  function MessageOr(t: Thrown, fallback: string): (e: ErrText)
    ensures e.Text? <==> t.Unavailable? && (t.fault.message == None || t.fault.message == Some(""))
    ensures e.Text? ==> e.s == fallback
    ensures e.MessageOf? ==> e.thrown == t
  {
    if t.Unavailable? && (t.fault.message == None || t.fault.message == Some("")) then Text(fallback)
    else MessageOf(t)
  }

  datatype Body =
    | ErrorBody(error: ErrText)
    | InviteCreated(message: string, invite: Document, inviteLink: string)
    | Session(success: bool, user: Document, needsOnboarding: bool)
    | UserUpdated(success: bool, user: Document)
    | Created(doc: Document)

  datatype Response = Response(status: int, body: Body)

  /** The catch-all of a handler without a fallback text: status 500 and
      `error.message`. */
  function ServerError(e: Thrown): (r: Response)
    ensures r.status == 500 && r.body == ErrorBody(MessageOf(e))
  {
    Response(500, ErrorBody(MessageOf(e)))
  }

  /** `await req.json()` followed by destructuring: a body that is not JSON,
      or is `null`, throws; any other value is returned. */
  function ParseBody(body: Option<Value>): (r: Result<Value, Thrown>)
    ensures r.Ok? <==> body.Some? && body.value != Null
    ensures r.Ok? ==> r.value == body.value
    ensures r.Err? ==> r.error == RuntimeError
  {
    if body.None? || body.value == Null then Err(RuntimeError) else Ok(body.value)
  }
}
