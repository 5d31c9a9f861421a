/**
 * What a request handler receives and what it answers, reduced to the
 * distinctions the handlers in app.py actually make.
 */
module Http {

  import opened Wrappers

  /**
   * A JSON value as Python sees it after `request.get_json()`:
   *  - Null    : `None` (a JSON null, or a key that `dict.get` did not find);
   *  - Str     : a string;
   *  - Scalar  : a number or a boolean (hashable), with its truthiness;
   *  - Container: a list or an object (unhashable), with its truthiness.
   */
  datatype Value = Null | Str(s: string) | Scalar(truthy: bool) | Container(truthy: bool)

  /** Python's `bool(v)`. */
  predicate Truthy(v: Value) {
    match v
    case Null => false
    case Str(s) => s != []
    case Scalar(t) => t
    case Container(t) => t
  }

  /** The parsed body: a JSON object, or any other JSON value (with its truthiness). */
  datatype Body = Object(fields: map<string, Value>) | NonObject(truthy: bool)

  predicate BodyTruthy(b: Body) {
    match b
    case Object(fields) => fields != map[]
    case NonObject(t) => t
  }

  /** A POST request: either not declared as JSON, or a parsed JSON body. */
  datatype Payload = NotJson | Json(body: Body)

  /** Python's `fields.get(key, default)`. */
  function Get(fields: map<string, Value>, key: string, default: Value): Value {
    if key in fields then fields[key] else default
  }

  /** A query-string argument: absent, or a string. */
  function Arg(arg: Option<string>): Value {
    match arg
    case None => Null
    case Some(s) => Str(s)
  }

  /** Every error answer the handlers produce. */
  datatype ErrorKind =
    // 500: a dependency was never configured
    | DatabaseNotConfigured
    | GeminiNotConfigured
    // 400: the caller can fix the request
    | NotJson
    | InvalidJson
    | UserIdRequired
    | InvalidUserId
    | MessageRequired
    | InvalidMessage
    | InvalidPersona
    | InvalidPlan
    | InvalidPayload
    | InvalidSignature
    // 429: every candidate model failed and the last failure speaks of quota
    | UpstreamQuota
    // 500: the request failed for another reason, by the wording of the failure
    | TimedOut
    | ConnectionFailed
    | ProcessingFailed
    // 500: an exception nobody handles on purpose (e.g. `.get` on a JSON list)
    | InternalError

  function Status(e: ErrorKind): (code: int)
    ensures code in {400, 429, 500}
  {
    match e
    case NotJson | InvalidJson | UserIdRequired | InvalidUserId | MessageRequired
      | InvalidMessage | InvalidPersona | InvalidPlan | InvalidPayload | InvalidSignature => 400
    case UpstreamQuota => 429
    case DatabaseNotConfigured | GeminiNotConfigured | TimedOut | ConnectionFailed
      | ProcessingFailed | InternalError => 500
  }
}
