/**
 * The MCP tools' error classes (src/errors.ts), each an `Error` with a fixed `code`, and the
 * `formatError` response they are turned into. A thrown value is either an instance of one of
 * those classes (or a plain `Error`) or some other JavaScript value.
 */
module Errors {
  import opened Wrappers
  import opened Js

  /** The class a thrown `Error` was constructed from. */
  datatype ErrorClass =
    | PlainError
    | ValidationError
    | NotFoundError
    | RateLimitError
    | ParsingError
    | RobotsDisallowedError
    | ToolError

  /** An `Error` instance: its class, its `message`, and its `details` (`undefined` when not kept). */
  datatype ErrorObject = ErrorObject(cls: ErrorClass, message: string, details: JsValue)

  /** Whatever a `throw` can carry. */
  datatype Thrown = Thrown(error: ErrorObject) | ThrownValue(value: JsValue)

  /** The `code` field of each class; a plain `Error` has none. */
  function Code(cls: ErrorClass): Option<string> {
    match cls
    case PlainError => None
    case ValidationError => Some("validation_error")
    case NotFoundError => Some("not_found")
    case RateLimitError => Some("rate_limit")
    case ParsingError => Some("parsing_error")
    case RobotsDisallowedError => Some("robots_disallowed")
    case ToolError => Some("tool_error")
  }

  /** The `name` each constructor sets. */
  function Name(cls: ErrorClass): string {
    match cls
    case PlainError => "Error"
    case ValidationError => "ValidationError"
    case NotFoundError => "NotFoundError"
    case RateLimitError => "RateLimitError"
    case ParsingError => "ParsingError"
    case RobotsDisallowedError => "RobotsDisallowedError"
    case ToolError => "ToolError"
  }

  /** The classes whose constructor takes and stores `details`. */
  predicate KeepsDetails(cls: ErrorClass) {
    cls == ValidationError || cls == ParsingError || cls == ToolError
  }

  /** `new Cls(message, details)`; the classes without a `details` parameter ignore it. */
  function NewError(cls: ErrorClass, message: string, details: JsValue): (e: ErrorObject)
    ensures e.cls == cls && e.message == message
    ensures KeepsDetails(cls) ==> e.details == details
    ensures !KeepsDetails(cls) ==> e.details == Undefined
  {
    ErrorObject(cls, message, if KeepsDetails(cls) then details else Undefined)
  }

  /** Every class has its own code. */
  lemma CodesDistinct(a: ErrorClass, b: ErrorClass)
    requires a != b
    ensures Code(a) != Code(b)
  {
  }

  /** The `error` record of the formatted response, and the response itself. */
  datatype ErrorBody = ErrorBody(code: JsValue, message: JsValue, details: JsValue)
  datatype ErrorResponse = ErrorResponse(success: bool, error: ErrorBody, data: JsValue)

  const UnknownCode: string := "unknown_error"
  const UnknownMessage: string := "An unknown error occurred"

  /** The JavaScript `TypeError` raised when a property of `undefined` or `null` is read. */
  datatype TypeError = TypeError

  /** `v[key]` for a non-error value: `null` and `undefined` throw; other non-objects have no such property. */
  function Property(v: JsValue, key: string): (r: Result<JsValue, TypeError>)
    ensures r.Failure? <==> v == Undefined || v == Null
  {
    match v
    case Undefined => Failure(TypeError)
    case Null => Failure(TypeError)
    case Obj(entries) => Success(Lookup(entries, key))
    case _ => Success(Undefined)
  }

  /** `a || b`. */
  function Or(a: JsValue, b: JsValue): (r: JsValue)
    ensures Truthy(a) ==> r == a
    ensures !Truthy(a) ==> r == b
  {
    if Truthy(a) then a else b
  }

  /** The three properties `formatError` reads, as they appear on the thrown value. */
  function ErrorFields(err: Thrown): Result<(JsValue, JsValue, JsValue), TypeError> {
    match err
    case Thrown(e) =>
      Success((match Code(e.cls) case Some(c) => Str(c) case None => Undefined, Str(e.message), e.details))
    case ThrownValue(v) =>
      match (Property(v, "code"), Property(v, "message"), Property(v, "details"))
      case (Success(c), Success(m), Success(d)) => Success((c, m, d))
      case _ => Failure(TypeError)
  }

  /**
   * `formatError(err)`; reading the fields of `undefined` or `null` throws, and only that. Every
   * formatted response reports failure and carries no data; its code and message are never
   * falsy, and its details are truthy or absent.
   */
  function FormatError(err: Thrown): (r: Result<ErrorResponse, TypeError>)
    ensures r.Failure? <==> (err == ThrownValue(Undefined) || err == ThrownValue(Null))
    ensures r.Success? ==>
      && !r.value.success && r.value.data == Null
      && Truthy(r.value.error.code) && Truthy(r.value.error.message)
      && (Truthy(r.value.error.details) || r.value.error.details == Undefined)
  {
    match ErrorFields(err)
    case Failure(t) => Failure(t)
    case Success((code, message, details)) =>
      Success(ErrorResponse(false,
        ErrorBody(Or(code, Str(UnknownCode)), Or(message, Str(UnknownMessage)), Or(details, Undefined)),
        Null))
  }

  /** A class instance with a message keeps its code and message, and its details when they are truthy. */
  lemma FormatKnownError(cls: ErrorClass, message: string, details: JsValue)
    requires Code(cls).Some? && message != ""
    ensures var e := NewError(cls, message, details);
      FormatError(Thrown(e)) == Success(ErrorResponse(false,
        ErrorBody(Str(Code(cls).value), Str(message), if KeepsDetails(cls) && Truthy(details) then details else Undefined),
        Null))
  {
  }

  /** A plain `Error` is reported as `unknown_error`; an empty message becomes the default text. */
  lemma FormatPlainError(message: string)
    ensures var r := FormatError(Thrown(NewError(PlainError, message, Undefined))).value;
      && r.error.code == Str(UnknownCode)
      && r.error.message == (if message == "" then Str(UnknownMessage) else Str(message))
      && r.error.details == Undefined
  {
  }
}
