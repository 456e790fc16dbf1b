/**
 * The kintone exception hierarchy (utils/exceptions.py) as values, and
 * `create_error_from_nodejs_response`, which turns a failed Node.js wrapper
 * response into the matching exception.
 */
module Exceptions {
  import opened Wrappers
  import opened Json

  /** Which class of the hierarchy an exception is; `Base` is `KintoneError` itself. */
  datatype ErrorClass =
    | Base
    | Api
    | Authentication
    | Permission
    | Validation
    | NodeJSWrapper
    | Network
    | Timeout
    | Configuration

  /**
   * The attributes every exception of the hierarchy carries, and the two
   * `KintoneAPIError` adds (`None` elsewhere).  The message, the code and
   * the details are whatever the response held, so they are Python values.
   */
  datatype KintoneError = KintoneError(
    cls: ErrorClass,
    message: Json,
    errorCode: Json,
    details: Json,
    kintoneErrorCode: Json,
    httpStatus: Json)

  /** The failures of `.get` on a value that is not a dict. */
  datatype ShapeFault = ErrorInfoNotObject | DetailsNotObject

  /** `details or {}`. */
  function OrEmpty(details: Json): (r: Json)
    ensures Truthy(details) ==> r == details
    ensures !Truthy(details) ==> r == JObj([])
  {
    if Truthy(details) then details else JObj([])
  }

  /** The code a subclass fixes in its constructor; `KintoneError` and `KintoneAPIError` take it as an argument. */
  function FixedCode(cls: ErrorClass): (r: Option<string>)
    ensures r.None? <==> cls.Base? || cls.Api?
  {
    match cls
    case Base => None
    case Api => None
    case Authentication => Some("KINTONE_AUTHENTICATION_ERROR")
    case Permission => Some("KINTONE_PERMISSION_ERROR")
    case Validation => Some("KINTONE_VALIDATION_ERROR")
    case NodeJSWrapper => Some("NODEJS_WRAPPER_ERROR")
    case Network => Some("KINTONE_NETWORK_ERROR")
    case Timeout => Some("KINTONE_TIMEOUT_ERROR")
    case Configuration => Some("KINTONE_CONFIGURATION_ERROR")
  }

  /** The message a subclass uses when none is given; the others require one. */
  function DefaultMessage(cls: ErrorClass): (r: Option<string>)
    ensures r.Some? <==> cls.Authentication? || cls.Permission? || cls.Network? || cls.Timeout?
  {
    match cls
    case Authentication => Some("kintoneへの認証に失敗しました")
    case Permission => Some("この操作を実行する権限がありません")
    case Network => Some("ネットワークエラーが発生しました")
    case Timeout => Some("リクエストがタイムアウトしました")
    case _ => None
  }

  /** Distinct subclasses fix distinct codes. */
  lemma FixedCodesDistinct(a: ErrorClass, b: ErrorClass)
    requires FixedCode(a).Some? && FixedCode(a) == FixedCode(b)
    ensures a == b
  {
  }

  /** `KintoneError(message, error_code, details)`. */
  function NewKintoneError(message: Json, errorCode: Json, details: Json): (r: KintoneError)
    ensures r.cls == Base && r.message == message && r.errorCode == errorCode
    ensures r.details == OrEmpty(details) && r.kintoneErrorCode == JNull && r.httpStatus == JNull
  {
    KintoneError(Base, message, errorCode, OrEmpty(details), JNull, JNull)
  }

  /** `KintoneAPIError(message, error_code, kintone_error_code, http_status, details)`. */
  function NewApiError(message: Json, errorCode: Json, kintoneErrorCode: Json, httpStatus: Json, details: Json): (r: KintoneError)
    ensures r.cls == Api && r.message == message && r.errorCode == errorCode && r.details == OrEmpty(details)
    ensures r.kintoneErrorCode == kintoneErrorCode && r.httpStatus == httpStatus
  {
    KintoneError(Api, message, errorCode, OrEmpty(details), kintoneErrorCode, httpStatus)
  }

  /**
   * The constructor of a subclass with a fixed code: the code is the
   * class's own whatever the caller passes, and an absent message is the
   * class's default.
   */
  function NewClassError(cls: ErrorClass, message: Option<Json>, details: Json): (r: KintoneError)
    requires FixedCode(cls).Some? && (message.None? ==> DefaultMessage(cls).Some?)
    ensures r.cls == cls && r.errorCode == JStr(FixedCode(cls).value) && r.details == OrEmpty(details)
    ensures message.Some? ==> r.message == message.value
    ensures message.None? ==> r.message == JStr(DefaultMessage(cls).value)
    ensures r.kintoneErrorCode == JNull && r.httpStatus == JNull
  {
    var text := match message
      case Some(m) => m
      case None => JStr(DefaultMessage(cls).value);
    KintoneError(cls, text, JStr(FixedCode(cls).value), OrEmpty(details), JNull, JNull)
  }

  /**
   * The class `create_error_from_nodejs_response` picks for an error code:
   * six codes are recognised; any other value, the timeout and
   * configuration codes included, gives a plain `KintoneError`.
   */
  function ClassOfCode(code: Json): (r: ErrorClass)
    ensures r.Api? <==> code == JStr("KINTONE_API_ERROR")
    ensures !r.Base? && !r.Api? ==> code == JStr(FixedCode(r).value)
    ensures !r.Timeout? && !r.Configuration?
  {
    if code == JStr("KINTONE_AUTHENTICATION_ERROR") then Authentication
    else if code == JStr("KINTONE_PERMISSION_ERROR") then Permission
    else if code == JStr("KINTONE_VALIDATION_ERROR") then Validation
    else if code == JStr("KINTONE_NETWORK_ERROR") then Network
    else if code == JStr("NODEJS_WRAPPER_ERROR") then NodeJSWrapper
    else if code == JStr("KINTONE_API_ERROR") then Api
    else Base
  }

  /** Each recognised class is picked by its own fixed code. */
  lemma ClassOfFixedCode(cls: ErrorClass)
    requires FixedCode(cls).Some? && !cls.Timeout? && !cls.Configuration?
    ensures ClassOfCode(JStr(FixedCode(cls).value)) == cls
  {
    var r := ClassOfCode(JStr(FixedCode(cls).value));
    if !r.Base? && !r.Api? {
      FixedCodesDistinct(r, cls);
    } else if r.Base? {
      assert cls.Authentication? || cls.Permission? || cls.Validation? || cls.Network? || cls.NodeJSWrapper?;
    }
  }

  /** The codes of `KintoneTimeoutError` and `KintoneConfigurationError` are not recognised: they come back as a plain `KintoneError`. */
  lemma UnrecognisedFixedCodes()
    ensures ClassOfCode(JStr(FixedCode(Timeout).value)).Base?
    ensures ClassOfCode(JStr(FixedCode(Configuration).value)).Base?
  {
    var t := FixedCode(Timeout).value;
    var c := FixedCode(Configuration).value;
    assert t[8] == 'T' && c[8] == 'C';
  }

  /** The exception for a response that did not fail. */
  const UnknownError: KintoneError := NewKintoneError(JStr("Unknown error occurred"), JNull, JNull)

  /** `not response_data.get('success', True)`. */
  predicate Failed(response: Json)
    requires response.JObj?
  {
    !Truthy(GetOr(response, "success", JBool(true)))
  }

  /**
   * `create_error_from_nodejs_response`: for a failed response, the class
   * chosen by the error code, with the code, message and details read
   * from `error` (defaulting to `UNKNOWN_ERROR`, "Unknown error occurred"
   * and `{}`); for any other response, a plain "Unknown error occurred".
   */
  function FromNodejsResponse(response: Json): (r: Result<KintoneError, ShapeFault>)
    requires response.JObj?
    ensures !Failed(response) ==> r == Ok(UnknownError)
    ensures Failed(response) && !GetOr(response, "error", JObj([])).JObj? ==> r == Err(ErrorInfoNotObject)
  {
    if !Failed(response) then Ok(UnknownError)
    else
      var info := GetOr(response, "error", JObj([]));
      if !info.JObj? then Err(ErrorInfoNotObject)
      else
        var code := GetOr(info, "code", JStr("UNKNOWN_ERROR"));
        var message := GetOr(info, "message", JStr("Unknown error occurred"));
        var details := GetOr(info, "details", JObj([]));
        var cls := ClassOfCode(code);
        if cls.Base? then Ok(NewKintoneError(message, code, details))
        else if cls.Api? then
          if !details.JObj? then Err(DetailsNotObject)
          else Ok(NewApiError(message, code, Get(details, "kintone_error_code"), Get(details, "http_status"), details))
        else Ok(NewClassError(cls, Some(message), details))
  }

  /** A success flag that is absent or true gives the plain unknown error, whatever else the response holds. */
  lemma SucceededIsUnknown(response: Json)
    requires response.JObj? && (!Has(response, "success") || Truthy(Get(response, "success")))
    ensures FromNodejsResponse(response) == Ok(KintoneError(Base, JStr("Unknown error occurred"), JNull, JObj([]), JNull, JNull))
  {
  }

  /** A failed response without an error code, message or details gets the defaults. */
  lemma FailureDefaults(response: Json)
    requires response.JObj? && Failed(response)
    requires !Has(response, "error") || Get(response, "error") == JObj([])
    ensures FromNodejsResponse(response) == Ok(KintoneError(Base, JStr("Unknown error occurred"), JStr("UNKNOWN_ERROR"), JObj([]), JNull, JNull))
  {
    var info := GetOr(response, "error", JObj([]));
    assert info == JObj([]);
    assert ClassOfCode(JStr("UNKNOWN_ERROR")).Base? by {
      var u := "UNKNOWN_ERROR";
      assert u[0] == 'U';
    }
  }

  /**
   * A recognised code gives its class, which carries that class's fixed
   * code, the response's message and its details (`{}` when falsy).
   */
  lemma KnownCodeGivesClass(response: Json, cls: ErrorClass)
    requires response.JObj? && Failed(response)
    requires Has(response, "error") && Get(response, "error").JObj?
    requires FixedCode(cls).Some? && !cls.Timeout? && !cls.Configuration?
    requires Get(Get(response, "error"), "code") == JStr(FixedCode(cls).value)
    ensures var info := Get(response, "error");
      FromNodejsResponse(response) == Ok(KintoneError(cls, GetOr(info, "message", JStr("Unknown error occurred")),
        JStr(FixedCode(cls).value), OrEmpty(GetOr(info, "details", JObj([]))), JNull, JNull))
  {
    var info := Get(response, "error");
    ClassOfFixedCode(cls);
    assert Has(info, "code");
  }

  /** A `KINTONE_API_ERROR` takes its kintone code and HTTP status from the details dict. */
  lemma ApiErrorFromDetails(response: Json)
    requires response.JObj? && Failed(response)
    requires Has(response, "error") && Get(response, "error").JObj?
    requires Get(Get(response, "error"), "code") == JStr("KINTONE_API_ERROR")
    ensures var details := GetOr(Get(response, "error"), "details", JObj([]));
      && (details.JObj? ==>
            && FromNodejsResponse(response).Ok?
            && FromNodejsResponse(response).value.cls == Api
            && FromNodejsResponse(response).value.errorCode == JStr("KINTONE_API_ERROR")
            && FromNodejsResponse(response).value.kintoneErrorCode == Get(details, "kintone_error_code")
            && FromNodejsResponse(response).value.httpStatus == Get(details, "http_status"))
      && (!details.JObj? ==> FromNodejsResponse(response) == Err(DetailsNotObject))
  {
    assert Has(Get(response, "error"), "code");
  }

  /** An unrecognised code is kept, with the details, on a plain `KintoneError`. */
  lemma UnknownCodeKept(response: Json)
    requires response.JObj? && Failed(response)
    requires Has(response, "error") && Get(response, "error").JObj?
    requires ClassOfCode(GetOr(Get(response, "error"), "code", JStr("UNKNOWN_ERROR"))).Base?
    ensures var info := Get(response, "error");
      FromNodejsResponse(response) == Ok(KintoneError(Base, GetOr(info, "message", JStr("Unknown error occurred")),
        GetOr(info, "code", JStr("UNKNOWN_ERROR")), OrEmpty(GetOr(info, "details", JObj([]))), JNull, JNull))
  {
  }
}
