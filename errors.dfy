/**
 * The HttpError hierarchy of backend/src/utils/errors.util.ts and the errors
 * thrown by the libraries the backend calls (mongoose, the MongoDB driver).
 */
module Errors {
  import opened Wrappers

  /** The classes declared in errors.util.ts. */
  datatype ErrorClass =
    | HttpErrorClass
    | BadRequestError
    | UnauthorizedError
    | ForbiddenError
    | NotFoundError
    | ConflictError

  /**
   * A thrown value. `Http` is an instance of one of the classes above, built
   * with the given message; `Foreign` is any other Error object (a mongoose
   * ValidationError, a MongoServerError with its numeric `code`, a TypeError),
   * whose `message` and `statusCode` properties may be missing.
   */
  datatype Error =
    | Http(cls: ErrorClass, msg: string)
    | Foreign(name: string, message: Option<string>, statusCode: Option<int>, code: Option<int>)

  /** The `statusCode` each constructor fixes; plain HttpError leaves it undefined. */
  function ClassStatus(c: ErrorClass): (r: Option<int>)
    ensures r.None? <==> c == HttpErrorClass
    ensures r.Some? ==> 400 <= r.value < 500
  {
    match c
    case HttpErrorClass => None
    case BadRequestError => Some(400)
    case UnauthorizedError => Some(401)
    case ForbiddenError => Some(403)
    case NotFoundError => Some(404)
    case ConflictError => Some(409)
  }

  /** The subclass that carries a given status code, if any: the inverse of ClassStatus. */
  function ClassOfStatus(code: int): (r: Option<ErrorClass>)
    ensures r.Some? ==> ClassStatus(r.value) == Some(code)
  {
    if code == 400 then Some(BadRequestError)
    else if code == 401 then Some(UnauthorizedError)
    else if code == 403 then Some(ForbiddenError)
    else if code == 404 then Some(NotFoundError)
    else if code == 409 then Some(ConflictError)
    else None
  }

  /** The class name each subclass writes into `name`; plain HttpError keeps Error's "Error". */
  function ClassName(c: ErrorClass): (r: string)
    ensures |r| >= 5 && r[|r| - 5..] == "Error"
  {
    match c
    case HttpErrorClass => "Error"
    case BadRequestError => "BadRequestError"
    case UnauthorizedError => "UnauthorizedError"
    case ForbiddenError => "ForbiddenError"
    case NotFoundError => "NotFoundError"
    case ConflictError => "ConflictError"
  }

  /** The `statusCode` property of a thrown value. */
  function StatusCode(e: Error): (r: Option<int>)
    ensures e.Http? ==> r == ClassStatus(e.cls)
  {
    match e
    case Http(c, _) => ClassStatus(c)
    case Foreign(_, _, s, _) => s
  }

  /** The `message` property of a thrown value: an HttpError always keeps its constructor argument. */
  function Message(e: Error): (r: Option<string>)
    ensures e.Http? ==> r == Some(e.msg)
  {
    match e
    case Http(_, m) => Some(m)
    case Foreign(_, m, _, _) => m
  }

  /** The `name` property of a thrown value. */
  function Name(e: Error): string
  {
    match e
    case Http(c, _) => ClassName(c)
    case Foreign(n, _, _, _) => n
  }

  /** The `code` property; HttpErrors have none. */
  function Code(e: Error): (r: Option<int>)
    ensures e.Http? ==> r.None?
  {
    match e
    case Http(_, _) => None
    case Foreign(_, _, _, c) => c
  }

  /** The status code determines the subclass, and each subclass has its own code. */
  lemma StatusIdentifiesClass(c: ErrorClass)
    requires c != HttpErrorClass
    ensures ClassOfStatus(ClassStatus(c).value) == Some(c)
  {
  }

  /** Distinct subclasses carry distinct status codes and distinct names. */
  lemma ClassesDistinct(c: ErrorClass, d: ErrorClass)
    requires c != d
    ensures ClassName(c) != ClassName(d)
    ensures c != HttpErrorClass && d != HttpErrorClass ==> ClassStatus(c) != ClassStatus(d)
  {
  }

  /** How an Express handler may call `next`: with no argument, or with an error. */
  datatype NextCall = Next | NextWith(err: Error)

  /** The usual Unauthorized errors of the session core. */
  function NoTokenError(): Error { Http(UnauthorizedError, "No token provided") }
  function InvalidTokenError(): Error { Http(UnauthorizedError, "Invalid token") }
}
