/**
 * `BaseHandler.handleWrapper`: runs one handler operation and turns what it
 * returned or threw into the JSON response. The operation's outcome is the
 * `Result` it produced; the clock reading is the `timestamp` parameter.
 */
module BaseHandlers {
  import opened Common
  import opened ApiResponses

  const Unauthorized := Status(401, "Unauthorized")
  const InternalErrorStatus := 500
  const InternalErrorMessage := "Internal Server Error"

  /** `NextResponse.json(body, { status })`; the status defaults to 200. */
  datatype HttpResponse<+D> = HttpResponse(status: int, body: Envelope<D>)

  /** `error.statusCode || 500` */
  function StatusOf(e: Thrown): (code: int)
    ensures code != 0
    ensures e.statusCode.Some? && e.statusCode.value != 0 ==> code == e.statusCode.value
    ensures e.statusCode.None? || e.statusCode.value == 0 ==> code == InternalErrorStatus
  {
    if e.statusCode.Some? && e.statusCode.value != 0 then e.statusCode.value else InternalErrorStatus
  }

  /** `error.message || 'Internal Server Error'` */
  function MessageOf(e: Thrown): (message: string)
    ensures message != ""
    ensures e.message != "" ==> message == e.message
    ensures e.message == "" ==> message == InternalErrorMessage
  {
    if e.message != "" then e.message else InternalErrorMessage
  }

  function HandleWrapper<D>(outcome: Result<D>, timestamp: string): (resp: HttpResponse<D>)
    ensures outcome.Ok? ==> resp == HttpResponse(200, Success(outcome.value, None, timestamp))
    ensures outcome.Err? ==> && !resp.body.Success()
                             && resp.status == resp.body.code == StatusOf(outcome.error)
                             && resp.body.message == MessageOf(outcome.error)
                             && resp.body.details == outcome.error.details
    ensures resp.body.Success() <==> outcome.Ok?
  {
    match outcome
    case Ok(data) => HttpResponse(200, Success(data, None, timestamp))
    case Err(e) =>
      var code := StatusOf(e);
      HttpResponse(code, Error(MessageOf(e), Some(code), e.details, timestamp))
  }

  /** A thrown `{ statusCode, message }` reaches the client exactly as thrown. */
  lemma ServiceErrorsReachTheClient<D>(code: int, message: string, timestamp: string)
    requires code != 0 && message != ""
    ensures var resp := HandleWrapper<D>(Err(Status(code, message)), timestamp);
            resp.status == code && resp.body == ErrorEnvelope(message, code, None, timestamp)
  {
  }

  /** `const userId = req.headers.get('x-user-id'); if (!userId) throw { 401, 'Unauthorized' }` */
  function RequireUserId<B>(req: Request<B>): (r: Result<string>)
    ensures r.Ok? <==> UserIdHeader in req.headers && req.headers[UserIdHeader] != ""
    ensures r.Ok? ==> r.value == req.headers[UserIdHeader]
    ensures r.Err? ==> r.error == Unauthorized
  {
    if UserIdHeader in req.headers && req.headers[UserIdHeader] != "" then Ok(req.headers[UserIdHeader])
    else Err(Unauthorized)
  }
}
