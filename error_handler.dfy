/** utils/security/errorHandler.js: the response the error-handling
    middleware sends for an error, and the `ApiError` class with its static
    factories. An error is a JavaScript value whose properties the handler
    reads. */
module ErrorHandler {
  import opened Common
  import opened Js

  const DefaultMessage: string := "服务器内部错误"

  /** The options of `createErrorHandler`; one left out is `Undefined` or
      `None`. `formatError` is given the error and the response built so
      far (the request is not part of this model). */
  datatype HandlerOptions = HandlerOptions(
    logErrors: Value,
    showStackInDev: Value,
    defaultMessage: Value,
    formatError: Option<(Value, Value) -> Value>)

  const NoHandlerOptions := HandlerOptions(Undefined, Undefined, Undefined, None)

  datatype HandlerConfig = HandlerConfig(
    logErrors: Value,
    showStackInDev: Value,
    defaultMessage: Value,
    formatError: Option<(Value, Value) -> Value>)

  function HandlerConfigOf(o: HandlerOptions): (c: HandlerConfig)
    ensures c.logErrors == (if o.logErrors == Undefined then Bool(true) else o.logErrors)
    ensures c.showStackInDev == (if o.showStackInDev == Undefined then Bool(true) else o.showStackInDev)
    ensures Truthy(c.defaultMessage)
    ensures Truthy(o.defaultMessage) ==> c.defaultMessage == o.defaultMessage
    ensures !Truthy(o.defaultMessage) ==> c.defaultMessage == Str(DefaultMessage)
    ensures c.formatError == o.formatError
  {
    HandlerConfig(
      if o.logErrors != Undefined then o.logErrors else Bool(true),
      if o.showStackInDev != Undefined then o.showStackInDev else Bool(true),
      if Truthy(o.defaultMessage) then o.defaultMessage else Str(DefaultMessage),
      o.formatError)
  }

  /** `a || b` on values. */
  function Or(a: Value, b: Value): (r: Value)
    ensures Truthy(a) ==> r == a
    ensures !Truthy(a) ==> r == b
  {
    if Truthy(a) then a else b
  }

  /** What the handler does: the status it sets, the JSON body it sends and
      whether it logs the error. */
  datatype Reply = Reply(statusCode: Value, body: Value, logged: bool)

  /** The `errorResponse` object before `formatError`: `status` and
      `message`, then `stack` in development, then `code` when truthy. */
  function ErrorResponse(c: HandlerConfig, err: Value, nodeEnv: Option<string>): (r: Value)
    ensures r.Obj?
    ensures Lookup(r.fields, "status") == Str("error")
    ensures Lookup(r.fields, "message") == Or(Get(err, "message"), c.defaultMessage)
    ensures "code" in Keys(r.fields) <==> Truthy(Get(err, "code"))
    ensures "code" in Keys(r.fields) ==> Lookup(r.fields, "code") == Get(err, "code")
    ensures "stack" in Keys(r.fields) <==> Truthy(c.showStackInDev) && nodeEnv == Some("development")
    ensures "stack" in Keys(r.fields) ==> Lookup(r.fields, "stack") == Get(err, "stack")
  {
    var base := [("status", Str("error")), ("message", Or(Get(err, "message"), c.defaultMessage))];
    var withStack := if Truthy(c.showStackInDev) && nodeEnv == Some("development")
                     then Put(base, "stack", Get(err, "stack")) else base;
    assert Keys(base) == ["status", "message"];
    var withCode := if Truthy(Get(err, "code")) then Put(withStack, "code", Get(err, "code")) else withStack;
    Obj(withCode)
  }

  /** The middleware `errorHandler(err, req, res, next)`. */
  function HandleError(c: HandlerConfig, err: Value, nodeEnv: Option<string>): (r: Reply)
    ensures r.statusCode == Or(Get(err, "status"), Or(Get(err, "statusCode"), Num(500)))
    ensures Truthy(r.statusCode)
    ensures c.formatError.None? ==> r.body == ErrorResponse(c, err, nodeEnv)
    ensures c.formatError.Some? ==> r.body == c.formatError.value(err, ErrorResponse(c, err, nodeEnv))
    ensures r.logged <==> Truthy(c.logErrors)
  {
    var response := ErrorResponse(c, err, nodeEnv);
    Reply(
      Or(Get(err, "status"), Or(Get(err, "statusCode"), Num(500))),
      if c.formatError.Some? then c.formatError.value(err, response) else response,
      Truthy(c.logErrors))
  }

  /** An `ApiError`: its `message` as `Error` stores it, `statusCode` and
      `code`; `name` is always `ApiError`. */
  datatype ApiError = ApiError(message: string, statusCode: Value, code: Value)

  /** `new ApiError(message, statusCode, code)`: `statusCode` defaults to 500
      and `code` to `null`; `Error` turns the message into a string, and an
      absent one reads as `''`. */
  function NewApiError(message: Value, statusCode: Value, code: Value): (e: ApiError)
    ensures statusCode == Undefined ==> e.statusCode == Num(500)
    ensures statusCode != Undefined ==> e.statusCode == statusCode
    ensures code == Undefined ==> e.code == Null
    ensures code != Undefined ==> e.code == code
    ensures message == Undefined ==> e.message == ""
    ensures message.Str? ==> e.message == message.s
    ensures message != Undefined ==> e.message == ToStr(message)
  {
    ApiError(
      if message == Undefined then "" else ToStr(message),
      if statusCode == Undefined then Num(500) else statusCode,
      if code == Undefined then Null else code)
  }

  /** The error object the handler receives for an `ApiError`; `stack` is
      what `Error.captureStackTrace` recorded. */
  function ApiErrorValue(e: ApiError, stack: string): (v: Value)
    ensures Get(v, "status") == Undefined
    ensures Get(v, "statusCode") == e.statusCode
    ensures Get(v, "message") == Str(e.message)
    ensures Get(v, "code") == e.code
    ensures Get(v, "name") == Str("ApiError")
  {
    var fields := [("stack", Str(stack)), ("message", Str(e.message)), ("name", Str("ApiError")),
                   ("statusCode", e.statusCode), ("code", e.code)];
    LookupAt(fields, 1);
    LookupAt(fields, 2);
    LookupAt(fields, 3);
    LookupAt(fields, 4);
    assert Keys(fields) == ["stack", "message", "name", "statusCode", "code"];
    LookupAbsent(fields, "status");
    Obj(fields)
  }

  /** The static factories of `ApiError`. */
  datatype Factory =
    | BadRequest | Unauthorized | Forbidden | NotFound
    | MethodNotAllowed | TooManyRequests | Internal | ServiceUnavailable

  function FactoryStatus(f: Factory): (s: int)
    ensures 400 <= s < 600
  {
    match f
    case BadRequest => 400
    case Unauthorized => 401
    case Forbidden => 403
    case NotFound => 404
    case MethodNotAllowed => 405
    case TooManyRequests => 429
    case Internal => 500
    case ServiceUnavailable => 503
  }

  function FactoryMessage(f: Factory): string
  {
    match f
    case BadRequest => "无效的请求参数"
    case Unauthorized => "未授权的访问"
    case Forbidden => "禁止访问此资源"
    case NotFound => "请求的资源不存在"
    case MethodNotAllowed => "不支持的请求方法"
    case TooManyRequests => "请求过于频繁"
    case Internal => "服务器内部错误"
    case ServiceUnavailable => "服务暂时不可用"
  }

  function FactoryCode(f: Factory): string
  {
    match f
    case BadRequest => "BAD_REQUEST"
    case Unauthorized => "UNAUTHORIZED"
    case Forbidden => "FORBIDDEN"
    case NotFound => "NOT_FOUND"
    case MethodNotAllowed => "METHOD_NOT_ALLOWED"
    case TooManyRequests => "TOO_MANY_REQUESTS"
    case Internal => "INTERNAL_ERROR"
    case ServiceUnavailable => "SERVICE_UNAVAILABLE"
  }

  /** `ApiError.<factory>(message, code)`: an omitted argument takes the
      factory's default. */
  function Make(f: Factory, message: Value, code: Value): (e: ApiError)
    ensures e.statusCode == Num(FactoryStatus(f))
    ensures message == Undefined ==> e.message == FactoryMessage(f)
    ensures code == Undefined ==> e.code == Str(FactoryCode(f))
    ensures message != Undefined ==> e.message == ToStr(message)
    ensures code != Undefined ==> e.code == code
  {
    NewApiError(if message == Undefined then Str(FactoryMessage(f)) else message,
                Num(FactoryStatus(f)),
                if code == Undefined then Str(FactoryCode(f)) else code)
  }

  /** Different factories answer with different status codes, so the status
      identifies the factory. */
  lemma FactoryStatusInjective(f: Factory, g: Factory)
    ensures FactoryStatus(f) == FactoryStatus(g) ==> f == g
  {
  }

  /** The handler answers an `ApiError` made by a factory with that factory's
      status code, its message and its code. */
  lemma FactoryErrorResponse(f: Factory, stack: string, c: HandlerConfig, nodeEnv: Option<string>)
    requires c.formatError.None?
    ensures var r := HandleError(c, ApiErrorValue(Make(f, Undefined, Undefined), stack), nodeEnv);
            r.statusCode == Num(FactoryStatus(f))
            && Lookup(r.body.fields, "message") == Str(FactoryMessage(f))
            && Lookup(r.body.fields, "code") == Str(FactoryCode(f))
  {
    var e := Make(f, Undefined, Undefined);
    assert FactoryMessage(f) != "";
    assert FactoryCode(f) != "";
    assert Truthy(Get(ApiErrorValue(e, stack), "code"));
  }

  /** An error without a usable status becomes a 500, and one without a
      message gets the default message. */
  lemma PlainErrorFallsBack(err: Value, nodeEnv: Option<string>)
    requires !Truthy(Get(err, "status")) && !Truthy(Get(err, "statusCode")) && !Truthy(Get(err, "message"))
    ensures HandleError(HandlerConfigOf(NoHandlerOptions), err, nodeEnv).statusCode == Num(500)
    ensures Lookup(HandleError(HandlerConfigOf(NoHandlerOptions), err, nodeEnv).body.fields, "message")
            == Str(DefaultMessage)
  {
  }
}
