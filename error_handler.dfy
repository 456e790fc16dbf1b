/**
 * The JSON-RPC error responses of the server (utils/error_handler.py): the
 * error codes, `MCPError.to_dict`, `MCPErrorResponse`, the response for an
 * exception outside the kintone hierarchy, and the two parameter checks.
 */
module ErrorHandler {
  import opened Wrappers
  import opened Json

  // `MCPErrorCode` and the class constants of `MCPErrorResponse`.
  const ParseError: int := -32700
  const InvalidRequest: int := -32600
  const MethodNotFound: int := -32601
  const InvalidParams: int := -32602
  const InternalError: int := -32603
  const ServerErrorStart: int := -32000
  const ServerErrorEnd: int := -32099

  /**
   * The codes are those section 5.1 of JSON-RPC 2.0 reserves: the five
   * pre-defined ones are distinct and lie in -32768..-32000 outside the
   * server-error range -32099..-32000, whose ends are the last two.
   */
  lemma CodesAreReserved()
    ensures forall c :: c in [ParseError, InvalidRequest, MethodNotFound, InvalidParams, InternalError] ==>
      -32768 <= c <= -32000 && !(ServerErrorEnd <= c <= ServerErrorStart)
    ensures |{ParseError, InvalidRequest, MethodNotFound, InvalidParams, InternalError}| == 5
    ensures ServerErrorEnd < ServerErrorStart == -32000
  {
  }

  /** `MCPError`: a code, a message, `data or {}` and an optional request id (`None` is `JNull`). */
  datatype MCPError = MCPError(code: int, message: string, data: Json, requestId: Json)

  /** The constructor of `MCPError`. */
  function NewMCPError(code: int, message: string, data: Json, requestId: Json): (e: MCPError)
    ensures e.code == code && e.message == message && e.requestId == requestId
    ensures e.data == (if Truthy(data) then data else JObj([]))
  {
    MCPError(code, message, if Truthy(data) then data else JObj([]), requestId)
  }

  /** A JSON-RPC error object with its code and message. */
  function ErrorObject(code: int, message: string): (r: Json)
    ensures r.JObj? && Get(r, "code") == JInt(code) && Get(r, "message") == JStr(message) && !Has(r, "data")
  {
    var m := [("code", JInt(code)), ("message", JStr(message))];
    assert IndexOf(m, "message") == Some(1);
    JObj(m)
  }

  /** The response dict before the optional members are added. */
  function Envelope(code: int, message: string): (r: Json)
    ensures r.JObj? && Get(r, "jsonrpc") == JStr("2.0") && Get(r, "error") == ErrorObject(code, message) && !Has(r, "id")
  {
    var m := [("jsonrpc", JStr("2.0")), ("error", ErrorObject(code, message))];
    assert IndexOf(m, "error") == Some(1);
    JObj(m)
  }

  /** `response["error"]["data"] = data` when `withData` holds, then `response["id"] = request_id` unless it is `None`. */
  function Complete(code: int, message: string, data: Json, withData: bool, requestId: Json): (r: Json)
    ensures r.JObj? && Get(r, "jsonrpc") == JStr("2.0")
    ensures Get(r, "error").JObj? && Get(Get(r, "error"), "code") == JInt(code) && Get(Get(r, "error"), "message") == JStr(message)
    ensures Has(Get(r, "error"), "data") <==> withData
    ensures withData ==> Get(Get(r, "error"), "data") == data
    ensures Has(r, "id") <==> requestId != JNull
    ensures requestId != JNull ==> Get(r, "id") == requestId
  {
    var filled := Filled(code, message, data, withData);
    if requestId != JNull then Set(filled, "id", requestId) else filled
  }

  /** The envelope after `response["error"]["data"] = data`, when `withData` holds. */
  function Filled(code: int, message: string, data: Json, withData: bool): (r: Json)
    ensures r.JObj? && Get(r, "jsonrpc") == JStr("2.0") && !Has(r, "id")
    ensures Get(r, "error").JObj? && Get(Get(r, "error"), "code") == JInt(code) && Get(Get(r, "error"), "message") == JStr(message)
    ensures Has(Get(r, "error"), "data") <==> withData
    ensures withData ==> Get(Get(r, "error"), "data") == data
  {
    var response := Envelope(code, message);
    if withData then Set(response, "error", ErrorObjectWithData(code, message, data)) else response
  }

  /** The error object after `["data"] = data`. */
  function ErrorObjectWithData(code: int, message: string, data: Json): (r: Json)
    ensures r.JObj? && Get(r, "code") == JInt(code) && Get(r, "message") == JStr(message)
    ensures Has(r, "data") && Get(r, "data") == data
  {
    Set(ErrorObject(code, message), "data", data)
  }

  /**
   * `MCPError.to_dict`: `jsonrpc` "2.0" and the error object, with `data`
   * only when it is truthy and `id` only when a request id was given.
   */
  function ToDict(e: MCPError): (r: Json)
    ensures r.JObj? && Get(r, "jsonrpc") == JStr("2.0")
    ensures Get(r, "error").JObj? && Get(Get(r, "error"), "code") == JInt(e.code) && Get(Get(r, "error"), "message") == JStr(e.message)
    ensures Has(Get(r, "error"), "data") <==> Truthy(e.data)
    ensures Truthy(e.data) ==> Get(Get(r, "error"), "data") == e.data
    ensures Has(r, "id") <==> e.requestId != JNull
    ensures e.requestId != JNull ==> Get(r, "id") == e.requestId
  {
    Complete(e.code, e.message, e.data, Truthy(e.data), e.requestId)
  }

  /**
   * `MCPErrorResponse.create_error_response`: as section 5 of JSON-RPC 2.0
   * describes, `jsonrpc` is "2.0", the error carries `data` whenever it is
   * not `None` (an empty dict included) and `id` is set unless it is `None`.
   */
  function CreateErrorResponse(code: int, message: string, data: Json, requestId: Json): (r: Json)
    ensures r.JObj? && Get(r, "jsonrpc") == JStr("2.0")
    ensures Get(r, "error").JObj? && Get(Get(r, "error"), "code") == JInt(code) && Get(Get(r, "error"), "message") == JStr(message)
    ensures Has(Get(r, "error"), "data") <==> data != JNull
    ensures data != JNull ==> Get(Get(r, "error"), "data") == data
    ensures Has(r, "id") <==> requestId != JNull
    ensures requestId != JNull ==> Get(r, "id") == requestId
  {
    Complete(code, message, data, data != JNull, requestId)
  }

  /**
   * The two builders agree once the falsy data `MCPError` drops is passed
   * as `None`.
   */
  lemma ToDictIsCreateErrorResponse(code: int, message: string, data: Json, requestId: Json)
    ensures ToDict(NewMCPError(code, message, data, requestId)) == CreateErrorResponse(code, message, if Truthy(data) then data else JNull, requestId)
  {
    if !Truthy(data) {
      assert Filled(code, message, JObj([]), false) == Filled(code, message, JNull, false);
    }
  }

  /** An empty dict is where they differ: `to_dict` drops it, `create_error_response` keeps it. */
  lemma EmptyDataDiffers(code: int, message: string, requestId: Json)
    ensures !Has(Get(ToDict(NewMCPError(code, message, JObj([]), requestId)), "error"), "data")
    ensures Has(Get(CreateErrorResponse(code, message, JObj([]), requestId), "error"), "data")
  {
  }

  /** `invalid_params`, `method_not_found`, `internal_error` and `server_error`, by code. */
  function InvalidParamsResponse(message: string, data: Json, requestId: Json): (r: Json)
    ensures r.JObj? && Get(r, "error").JObj? && Get(Get(r, "error"), "code") == JInt(-32602)
  {
    CreateErrorResponse(InvalidParams, message, data, requestId)
  }

  function MethodNotFoundResponse(message: string, data: Json, requestId: Json): (r: Json)
    ensures r.JObj? && Get(r, "error").JObj? && Get(Get(r, "error"), "code") == JInt(-32601)
  {
    CreateErrorResponse(MethodNotFound, message, data, requestId)
  }

  function InternalErrorResponse(message: string, data: Json, requestId: Json): (r: Json)
    ensures r.JObj? && Get(r, "error").JObj? && Get(Get(r, "error"), "code") == JInt(-32603)
  {
    CreateErrorResponse(InternalError, message, data, requestId)
  }

  function ServerErrorResponse(message: string, data: Json, requestId: Json): (r: Json)
    ensures r.JObj? && Get(r, "error").JObj? && Get(Get(r, "error"), "code") == JInt(-32000)
  {
    CreateErrorResponse(ServerErrorStart, message, data, requestId)
  }

  /** The first of the classes `to_mcp_error_response` tests that an exception belongs to. */
  datatype ExceptionKind = ValueErrorKind | FileNotFoundKind | PermissionKind | TimeoutKind | OtherKind

  /**
   * An exception outside the kintone hierarchy: its kind, the name of its
   * type, `str(error)`, and a `timestamp` attribute if it has one.
   */
  datatype PyException = PyException(kind: ExceptionKind, typeName: string, text: string, timestamp: Option<Json>)

  /** The code `to_mcp_error_response` gives each kind of exception. */
  function KindCode(kind: ExceptionKind): (c: int)
    ensures kind.ValueErrorKind? <==> c == InvalidParams
    ensures kind.FileNotFoundKind? <==> c == MethodNotFound
    ensures kind.PermissionKind? || kind.TimeoutKind? <==> c == ServerErrorStart
    ensures kind.OtherKind? <==> c == InternalError
  {
    match kind
    case ValueErrorKind => InvalidParams
    case FileNotFoundKind => MethodNotFound
    case PermissionKind => ServerErrorStart
    case TimeoutKind => ServerErrorStart
    case OtherKind => InternalError
  }

  /** The message that replaces a timeout's own. */
  const TimeoutMessage: string := "操作がタイムアウトしました"

  /**
   * `ErrorHandler.to_mcp_error_response` for an exception outside the
   * kintone hierarchy; `now` is the ISO time the call would read from the
   * clock.  Unlike `create_error_response` it has no `jsonrpc` member.
   */
  function ToMcpErrorResponse(error: PyException, now: Json): (r: Json)
    ensures r.JObj? && !Has(r, "jsonrpc") && Has(r, "error")
    ensures var e := Get(r, "error");
      && e.JObj?
      && Get(e, "code") == JInt(KindCode(error.kind))
      && Get(e, "message") == JStr(if error.kind.TimeoutKind? then TimeoutMessage else error.text)
      && Get(e, "data").JObj?
      && Get(Get(e, "data"), "error_type") == JStr(error.typeName)
      && Get(Get(e, "data"), "timestamp") == error.timestamp.GetOr(now)
  {
    var message := if error.kind.TimeoutKind? then TimeoutMessage else error.text;
    var data := [("error_type", JStr(error.typeName)), ("timestamp", error.timestamp.GetOr(now))];
    assert IndexOf(data, "timestamp") == Some(1);
    var e := [("code", JInt(KindCode(error.kind))), ("message", JStr(message)), ("data", JObj(data))];
    IndexOfFirst(e, "message", 1);
    IndexOfFirst(e, "data", 2);
    var r := [("error", JObj(e))];
    assert IndexOf(r, "jsonrpc").None?;
    JObj(r)
  }

  /** Every code `to_mcp_error_response` gives is one of the reserved codes of JSON-RPC 2.0. */
  lemma ToMcpCodesReserved(error: PyException, now: Json)
    ensures var c := Get(Get(ToMcpErrorResponse(error, now), "error"), "code").i;
      -32768 <= c <= -32000 && (c == ServerErrorStart <==> error.kind.PermissionKind? || error.kind.TimeoutKind?)
  {
  }

  // `validate_required_params`.

  /** `param not in params or params[param] is None`. */
  predicate Absent(params: Members, name: string)
  {
    Lookup(params, name).None? || Lookup(params, name) == Some(JNull)
  }

  /** The required names that are absent, in the order they are listed. */
  function MissingParams(required: seq<string>, params: Members): (r: seq<string>)
    ensures |r| <= |required|
  {
    if required == [] then []
    else
      var last := required[|required| - 1];
      MissingParams(required[..|required| - 1], params) + if Absent(params, last) then [last] else []
  }

  /** A name is reported exactly when it is required and absent. */
  lemma {:induction false} MissingParamsMeaning(required: seq<string>, params: Members)
    ensures forall x :: x in MissingParams(required, params) <==> x in required && Absent(params, x)
  {
    if required != [] {
      var init := required[..|required| - 1];
      MissingParamsMeaning(init, params);
      assert required == init + [required[|required| - 1]];
    }
  }

  /**
   * `validate_required_params`: collects the absent names in a loop and
   * raises when there is one.
   */
  method ValidateRequiredParams(required: seq<string>, params: Members) returns (r: Result<(), seq<string>>)
    ensures r.Err? <==> exists x :: x in required && Absent(params, x)
    ensures r.Err? ==> r.error == MissingParams(required, params)
  {
    var missing: seq<string> := [];
    var i := 0;
    while i < |required|
      invariant 0 <= i <= |required|
      invariant missing == MissingParams(required[..i], params)
    {
      assert required[..i + 1][..i] == required[..i];
      if Absent(params, required[i]) {
        missing := missing + [required[i]];
      }
      i := i + 1;
    }
    assert required[..|required|] == required;
    MissingParamsMeaning(required, params);
    if missing != [] {
      assert missing[0] in missing;
      return Err(missing);
    }
    assert forall x :: x in required && Absent(params, x) ==> x in missing;
    return Ok(());
  }

  // `validate_param_types`.

  /** The Python types a check can name; `Object` is `object`. */
  datatype PyType = NoneType | Bool | Int | Float | Str | List | Dict | Object

  /** `type(v)`. */
  function TypeOf(v: Json): (t: PyType)
    ensures t != Object
  {
    match v
    case JNull => NoneType
    case JBool(_) => Bool
    case JInt(_) => Int
    case JDec(_, _) => Float
    case JStr(_) => Str
    case JArr(_) => List
    case JObj(_) => Dict
  }

  /** `isinstance(v, t)`: a value is an instance of its own type and of `object`, and a `bool` is also an `int`. */
  predicate IsInstance(v: Json, t: PyType)
  {
    TypeOf(v) == t || t == Object || (t == Int && v.JBool?)
  }

  /** A reported mismatch: the parameter, the expected type and the actual one. */
  datatype TypeMismatch = TypeMismatch(name: string, expected: PyType, actual: PyType)

  /** The mismatch one entry of `param_types` reports, if any: only a present, non-`None` value is checked. */
  function Mismatch(entry: (string, PyType), params: Members): (r: Option<TypeMismatch>)
    ensures r.Some? <==> !Absent(params, entry.0) && !IsInstance(Lookup(params, entry.0).value, entry.1)
    ensures r.Some? ==> r.value.name == entry.0 && r.value.expected == entry.1 && r.value.actual == TypeOf(Lookup(params, entry.0).value)
  {
    if Absent(params, entry.0) then None
    else
      var v := Lookup(params, entry.0).value;
      if IsInstance(v, entry.1) then None else Some(TypeMismatch(entry.0, entry.1, TypeOf(v)))
  }

  /** The mismatches in the order of `param_types`. */
  function TypeErrors(paramTypes: seq<(string, PyType)>, params: Members): (r: seq<TypeMismatch>)
    ensures |r| <= |paramTypes|
  {
    if paramTypes == [] then []
    else
      var last := paramTypes[|paramTypes| - 1];
      TypeErrors(paramTypes[..|paramTypes| - 1], params) + match Mismatch(last, params)
        case None => []
        case Some(m) => [m]
  }

  /** A mismatch is reported exactly when some entry of `param_types` finds one. */
  lemma {:induction false} TypeErrorsMeaning(paramTypes: seq<(string, PyType)>, params: Members)
    ensures forall m :: m in TypeErrors(paramTypes, params) <==> exists i :: 0 <= i < |paramTypes| && Mismatch(paramTypes[i], params) == Some(m)
  {
    if paramTypes != [] {
      var init := paramTypes[..|paramTypes| - 1];
      TypeErrorsMeaning(init, params);
      assert forall i :: 0 <= i < |init| ==> init[i] == paramTypes[i];
    }
  }

  /**
   * `validate_param_types`: checks each expected type in a loop and raises
   * when some present, non-`None` parameter has another type.
   */
  method ValidateParamTypes(paramTypes: seq<(string, PyType)>, params: Members) returns (r: Result<(), seq<TypeMismatch>>)
    ensures r.Err? <==> exists i :: 0 <= i < |paramTypes| && Mismatch(paramTypes[i], params).Some?
    ensures r.Err? ==> r.error == TypeErrors(paramTypes, params)
  {
    var errors: seq<TypeMismatch> := [];
    var i := 0;
    while i < |paramTypes|
      invariant 0 <= i <= |paramTypes|
      invariant errors == TypeErrors(paramTypes[..i], params)
    {
      assert paramTypes[..i + 1][..i] == paramTypes[..i];
      var m := Mismatch(paramTypes[i], params);
      if m.Some? {
        errors := errors + [m.value];
      }
      i := i + 1;
    }
    assert paramTypes[..|paramTypes|] == paramTypes;
    TypeErrorsMeaning(paramTypes, params);
    if errors != [] {
      assert errors[0] in errors;
      return Err(errors);
    }
    assert forall i :: 0 <= i < |paramTypes| && Mismatch(paramTypes[i], params).Some? ==> Mismatch(paramTypes[i], params).value in errors;
    return Ok(());
  }

  /** A boolean passes an `int` check, and an absent or `None` parameter passes every check. */
  lemma LenientChecks(name: string, t: PyType, params: Members, b: bool)
    ensures Mismatch((name, Int), [(name, JBool(b))]).None?
    ensures Absent(params, name) ==> Mismatch((name, t), params).None?
  {
    assert IndexOf([(name, JBool(b))], name) == Some(0);
  }
}
