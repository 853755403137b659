/** `HttpExceptionFilter` (src/http-exception.filter.ts): every exception a request throws
    becomes a status and a body `{ errors, stack? }`. An HTTP exception keeps its status
    and its own error list or message; anything else is a 500 carrying its message, with
    the stack outside production. */
module HttpExceptionFilter {
  import opened Wrappers

  const UNAUTHORIZED_FALLBACK: string := "Unauthorized"
  const INTERNAL_SERVER_ERROR: nat := 500

  /** The `message` field of an exception's response object. */
  datatype MessageField = NoMessage | Text(text: string) | List(items: seq<string>)

  /** `exception.getResponse()`: `errors` is `None` when null or absent. */
  datatype ErrorResponse = ErrorResponse(errors: Option<seq<string>>, message: MessageField)

  /** What can be thrown: an `HttpException`, another `Error`, or any other value, held as
      its `String(value)`. */
  datatype Thrown =
    | Http(status: nat, response: ErrorResponse)
    | JsError(message: string, stack: Option<string>)
    | Other(text: string)

  datatype ApiErrorBody = ApiErrorBody(errors: seq<string>, stack: Option<string>)
  datatype Reply = Reply(status: nat, body: ApiErrorBody)

  /** `res.errors ?? (res.message ? (string ? [message] : message) : ['Unauthorized'])`:
      an empty string message is falsy, a list message is used even when empty. */
  function HttpErrors(res: ErrorResponse): (r: seq<string>)
    ensures res.errors.Some? ==> r == res.errors.value
    ensures res.errors.None? && res.message.Text? && res.message.text != "" ==> r == [res.message.text]
    ensures res.errors.None? && res.message.List? ==> r == res.message.items
    ensures res.errors.None? && (res.message.NoMessage? || res.message == Text("")) ==> r == [UNAUTHORIZED_FALLBACK]
  {
    if res.errors.Some? then res.errors.value
    else match res.message
      case Text(m) => if m != "" then [m] else [UNAUTHORIZED_FALLBACK]
      case List(items) => items
      case NoMessage => [UNAUTHORIZED_FALLBACK]
  }

  /** `catch`: the status and body sent for `exception`. */
  function Catch(exception: Thrown, production: bool): (r: Reply)
    ensures exception.Http? ==>
      r == Reply(exception.status, ApiErrorBody(HttpErrors(exception.response), None))
    ensures exception.JsError? ==>
      && r.status == INTERNAL_SERVER_ERROR && r.body.errors == [exception.message]
      && (r.body.stack.Some? <==> !production && exception.stack.Some? && exception.stack.value != "")
      && (r.body.stack.Some? ==> r.body.stack == exception.stack)
    ensures exception.Other? ==> r == Reply(INTERNAL_SERVER_ERROR, ApiErrorBody([exception.text], None))
  {
    match exception
    case Http(status, res) => Reply(status, ApiErrorBody(HttpErrors(res), None))
    case JsError(message, stack) =>
      var shown := if !production && stack.Some? && stack.value != "" then stack else None;
      Reply(INTERNAL_SERVER_ERROR, ApiErrorBody([message], shown))
    case Other(text) => Reply(INTERNAL_SERVER_ERROR, ApiErrorBody([text], None))
  }

  /** How the modelled failures are thrown: Nest's exceptions built from a string carry
      it as `message`, those built from `{ errors }` carry the list; an `Error` or a
      `TypeError` is a plain error with whatever stack the runtime gave it. */
  function Throw(f: Failure, stack: Option<string>): Thrown {
    match f
    case NotFound(m) => Http(404, ErrorResponse(None, Text(m)))
    case Conflict(errs) => Http(409, ErrorResponse(Some(errs), NoMessage))
    case BadRequest(m) => Http(400, ErrorResponse(None, Text(m)))
    case Unauthorized(errs) => Http(401, ErrorResponse(Some(errs), NoMessage))
    case BadGateway(m) => Http(502, ErrorResponse(None, Text(m)))
    case Error(m) => JsError(m, stack)
    case TypeError(m) => JsError(m, stack)
  }

  /** What a client receives for each modelled failure: its status, and its error list,
      or else its message (the fallback only for an empty message of an HTTP exception). */
  lemma FailureReplies(f: Failure, stack: Option<string>, production: bool)
    ensures var r := Catch(Throw(f, stack), production);
      && (f.Conflict? ==> r == Reply(409, ApiErrorBody(f.errors, None)))
      && (f.Unauthorized? ==> r == Reply(401, ApiErrorBody(f.errors, None)))
      && (f.NotFound? ==> r.status == 404)
      && (f.BadRequest? ==> r.status == 400)
      && (f.BadGateway? ==> r.status == 502)
      && ((f.Error? || f.TypeError?) ==> r.status == 500 && r.body.errors == [f.Message()])
      && (!f.Conflict? && !f.Unauthorized? && f.Message() != "" ==> r.body.errors == [f.Message()])
  {
  }

  /** Production never sends a stack, and an HTTP exception never does. */
  lemma NoStackInProduction(exception: Thrown)
    ensures Catch(exception, true).body.stack.None?
    ensures exception.Http? ==> Catch(exception, false).body.stack.None?
  {
  }

  /** The body always holds at least one error unless the exception itself supplied an
      empty list. */
  lemma ErrorsNonEmpty(exception: Thrown, production: bool)
    requires exception.Http? && exception.response.errors.Some? ==> |exception.response.errors.value| > 0
    requires exception.Http? && exception.response.errors.None? && exception.response.message.List? ==>
      |exception.response.message.items| > 0
    ensures |Catch(exception, production).body.errors| >= 1
  {
  }
}
