/**
 * The final Express error handler (backend/src/middlewares/errorHandler.middleware.ts):
 * log the error, then answer with `err.statusCode || 500` and `{ error: err.message || "" }`.
 */
module ErrorHandler {
  import opened Wrappers
  import opened Errors

  /** What the handler does, in order: write the stack to the console, set the status, send the body. */
  datatype Effect = Log(err: Error) | Status(code: int) | Json(error: string)

  /** JavaScript's `x || 500` on a number: undefined and 0 are falsy. */
  function ResponseStatus(e: Error): (r: int)
    ensures StatusCode(e).Some? && StatusCode(e).value != 0 ==> r == StatusCode(e).value
    ensures StatusCode(e).None? || StatusCode(e).value == 0 ==> r == 500
  {
    match StatusCode(e)
    case Some(c) => if c != 0 then c else 500
    case None => 500
  }

  /** `err.message || ""`: the message, or "" when it is missing. */
  function ResponseBody(e: Error): (r: string)
    ensures Message(e).Some? ==> r == Message(e).value
    ensures Message(e).None? ==> r == ""
  {
    Message(e).GetOr("")
  }

  function CountLogs(effects: seq<Effect>): nat
  {
    if effects == [] then 0 else (if effects[0].Log? then 1 else 0) + CountLogs(effects[1..])
  }

  function CountStatus(effects: seq<Effect>): nat
  {
    if effects == [] then 0 else (if effects[0].Status? then 1 else 0) + CountStatus(effects[1..])
  }

  function CountJson(effects: seq<Effect>): nat
  {
    if effects == [] then 0 else (if effects[0].Json? then 1 else 0) + CountJson(effects[1..])
  }

  /** The effects of one call of the handler. */
  function HandleError(e: Error): (effects: seq<Effect>)
    ensures CountLogs(effects) == 1 && CountStatus(effects) == 1 && CountJson(effects) == 1
    ensures Status(ResponseStatus(e)) in effects && Json(ResponseBody(e)) in effects
    ensures effects[0] == Log(e)
  {
    var effects := [Log(e), Status(ResponseStatus(e)), Json(ResponseBody(e))];
    var last := [Json(ResponseBody(e))];
    assert last[1..] == [];
    assert CountLogs(last) == 0 && CountStatus(last) == 0 && CountJson(last) == 1;
    var tail := [Status(ResponseStatus(e))] + last;
    assert tail[1..] == last;
    assert CountLogs(tail) == 0 && CountStatus(tail) == 1 && CountJson(tail) == 1;
    assert effects[1..] == tail;
    effects
  }

  /** Every subclass of HttpError answers with its own status code and its own message. */
  lemma HttpErrorResponse(c: ErrorClass, m: string)
    requires c != HttpErrorClass
    ensures ResponseStatus(Http(c, m)) == ClassStatus(c).value
    ensures ResponseBody(Http(c, m)) == m
  {
  }

  /** A plain HttpError, having no status code, answers 500. */
  lemma PlainHttpErrorIs500(m: string)
    ensures ResponseStatus(Http(HttpErrorClass, m)) == 500
  {
  }

  /** The response status is always an error status: a 4xx of the hierarchy, or whatever a foreign error carries, else 500. */
  lemma StatusFromHierarchy(e: Error)
    requires e.Http?
    ensures 400 <= ResponseStatus(e) <= 500
  {
  }
}
