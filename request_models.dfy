/**
 * The validator bodies of the request models handed to the Node.js wrapper
 * (models/validation_models.py).  Each returns its (possibly normalised)
 * input or raises a `ValueError`, modelled as `Err`.
 */
module RequestModels {
  import opened Wrappers
  import opened Json
  import opened ModelChecks
  import FieldModels

  /** What a non-empty-payload check is about: `record`, `properties` or `states`. */
  datatype Payload = RecordData | UpdateData | FieldProperties | ProcessStates

  /** The `ValueError`s of the request validators. */
  datatype RequestError =
    | CredentialsMissing
    | IdInvalid(fault: IntFault)
    | PayloadEmpty(payload: Payload)
    | AppIdInvalid(appId: Json, fault: IntFault)
    | IconFileMissing
    | IconPresetMissing
    | SettingsEmpty

  /**
   * `BaseKintoneRequest.validate_auth`: an API token, or else both a user
   * name and a password; an empty string counts as absent.
   */
  function ValidateAuth(apiToken: Option<string>, username: Option<string>, password: Option<string>): (r: Result<(), RequestError>)
    ensures r.Ok? <==> FieldModels.Given(apiToken) || (FieldModels.Given(username) && FieldModels.Given(password))
  {
    if !FieldModels.Given(apiToken) && (!FieldModels.Given(username) || !FieldModels.Given(password)) then Err(CredentialsMissing)
    else Ok(())
  }

  /**
   * `validate_positive_id` and every `validate_app_id`: `int(v)`, which must
   * be positive, replaces the value.  A value `int()` cannot take (`None`, a
   * list, a map) is the `TypeError` the same `except` catches.  The `except`
   * also catches the "must be positive" error raised inside the `try`, so
   * every refusal is reported as "not a number".
   */
  function PositiveId(v: Json): (r: Result<int, RequestError>)
    ensures r.Ok? <==> PyInt(v).Some? && PyInt(v).value > 0
    ensures r.Ok? ==> r.value == PyInt(v).value
    ensures r.Err? ==> r.error == IdInvalid(NotAnInteger)
  {
    ParseInRangeMeaning(v, Bounds(1, None));
    AsWrittenAcceptsAlike(v, Bounds(1, None));
    match ParseInRangeAsWritten(v, Bounds(1, None))
    case Ok(n) => Ok(n)
    case Err(f) => Err(IdInvalid(f))
  }

  /** A zero id is refused as "not a number", although it is one: the positivity error does not survive the `except`. */
  lemma ZeroIdReportedAsNotANumber()
    ensures PositiveId(JInt(0)) == Err(IdInvalid(NotAnInteger))
    ensures ParseInRange(JInt(0), Bounds(1, None)) == Err(OutOfRange)
  {
  }

  /** An id given as a string and the same id given as a number normalise alike. */
  lemma PositiveIdNormalises(n: int)
    requires n > 0
    ensures PositiveId(JStr(Text.IntToString(n))) == PositiveId(JInt(n)) == Ok(n)
  {
    Text.IntToStringRoundTrip(n);
  }

  /** `GetRecordsRequest.validate_fields`: an empty list of field codes means "all fields". */
  function NormaliseFields(v: Option<seq<string>>): (r: Option<seq<string>>)
    ensures r.None? <==> v.None? || v.value == []
    ensures r.Some? ==> r == v
  {
    if v.Some? && |v.value| == 0 then None else v
  }

  /** Normalising twice is normalising once, and a normalised list is never empty. */
  lemma NormaliseFieldsIdempotent(v: Option<seq<string>>)
    ensures NormaliseFields(NormaliseFields(v)) == NormaliseFields(v)
    ensures NormaliseFields(v) != Some([])
  {
  }

  /**
   * `validate_record`, `validate_properties` and `validate_states`: the
   * payload map has at least one member.
   */
  function ValidatePayload(v: Members, payload: Payload): (r: Result<Members, RequestError>)
    ensures r.Ok? <==> v != []
    ensures r.Ok? ==> r.value == v
    ensures r.Err? ==> r.error == PayloadEmpty(payload)
  {
    if |v| == 0 then Err(PayloadEmpty(payload)) else Ok(v)
  }

  /**
   * `GetDeployStatusRequest.validate_app_ids`: converts each id in turn and
   * stops at the first one that is not a positive integer, naming it.
   */
  method ValidateAppIds(ids: seq<Json>) returns (r: Result<seq<int>, RequestError>)
    ensures r.Ok? <==> forall i :: 0 <= i < |ids| ==> PositiveId(ids[i]).Ok?
    ensures r.Ok? ==> |r.value| == |ids| && forall i :: 0 <= i < |ids| ==> r.value[i] == PyInt(ids[i]).value > 0
    ensures r.Err? ==> exists k :: 0 <= k < |ids| && FirstBadId(ids, k) && r.error == AppIdInvalid(ids[k], NotAnInteger)
  {
    var validated: seq<int> := [];
    var i := 0;
    while i < |ids|
      invariant 0 <= i <= |ids| && |validated| == i
      invariant forall j :: 0 <= j < i ==> PositiveId(ids[j]).Ok? && validated[j] == PyInt(ids[j]).value
    {
      match PositiveId(ids[i])
      case Err(e) =>
        assert FirstBadId(ids, i);
        return Err(AppIdInvalid(ids[i], e.fault));
      case Ok(n) =>
        validated := validated + [n];
      i := i + 1;
    }
    return Ok(validated);
  }

  /** `k` is the first position whose id is refused. */
  predicate FirstBadId(ids: seq<Json>, k: nat)
  {
    k < |ids| && PositiveId(ids[k]).Err? && forall j :: 0 <= j < k ==> PositiveId(ids[j]).Ok?
  }

  datatype IconType = File | Preset

  /** The attributes the request-side icon check reads; a present file is a model and so truthy. */
  datatype AppIcon = AppIcon(iconType: IconType, fileKey: Option<string>, preset: Option<string>)

  /** `AppIcon.validate_icon_config`: a file icon carries its file, a preset icon names its preset. */
  function ValidateIconConfig(icon: AppIcon): (r: Result<AppIcon, RequestError>)
    ensures r.Ok? <==> (icon.iconType == File ==> icon.fileKey.Some?) && (icon.iconType == Preset ==> FieldModels.Given(icon.preset))
    ensures r.Ok? ==> r.value == icon
  {
    if icon.iconType.File? && icon.fileKey.None? then Err(IconFileMissing)
    else if icon.iconType.Preset? && !FieldModels.Given(icon.preset) then Err(IconPresetMissing)
    else Ok(icon)
  }

  datatype AppTheme = White | Clipboard | Binder | Pencil | Clips

  datatype AppSettingsData = AppSettingsData(name: Option<string>, description: Option<string>, icon: Option<AppIcon>, theme: Option<AppTheme>)

  /** `AppSettingsData.validate_settings`: at least one setting is given (an empty string counts as absent). */
  function ValidateSettings(s: AppSettingsData): (r: Result<AppSettingsData, RequestError>)
    ensures r.Ok? <==> FieldModels.Given(s.name) || FieldModels.Given(s.description) || s.icon.Some? || s.theme.Some?
    ensures r.Ok? ==> r.value == s
  {
    var given := [FieldModels.Given(s.name), FieldModels.Given(s.description), s.icon.Some?, s.theme.Some?];
    assert given[0] || given[1] || given[2] || given[3] ==> AnyTrue(given);
    if !AnyTrue(given) then Err(SettingsEmpty) else Ok(s)
  }

  /** `any(xs)`. */
  predicate AnyTrue(xs: seq<bool>)
  {
    exists i :: 0 <= i < |xs| && xs[i]
  }
}
