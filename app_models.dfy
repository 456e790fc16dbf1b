/**
 * The validator bodies of the app models (models/kintone_app.py).  Each
 * returns its input (or, for the creation request, its normalised name) or
 * raises a `ValueError`, modelled as `Err`.
 */
module AppModels {
  import opened Wrappers
  import opened Text
  import opened ModelChecks
  import Json
  import FieldModels

  /** The `ValueError`s the app-model validators raise. */
  datatype AppModelError =
    | PresetKeyMissing
    | IconFileMissing
    | TitleCodeMissing
    | DigitsInvalid(fault: IntFault)
    | DecimalPlacesInvalid(fault: IntFault)
    | SizeInvalid(fault: IntFault)
    | RowFieldsMissing
    | GroupCodeMissing
    | SubtableCodeMissing
    | NameLengthInvalid
    | DescriptionTooLong
    | FiscalMonthInvalid(fault: IntFault)
    | NameMissing
    | NameTooLong
    | AppsEmpty
    | AppsDuplicated
    | CodeInvalid(cause: FieldModels.FieldModelError)
    | AppIdNotPositive

  datatype IconType = Preset | File

  /** `AppIcon`: the icon file is a model, so it is truthy whenever it is present. */
  datatype AppIcon = AppIcon(iconType: IconType, key: Option<string>, fileKey: Option<string>)

  /** `AppIcon.validate_icon_settings`: a preset icon names its key, a file icon carries its file. */
  function ValidateIcon(icon: AppIcon): (r: Result<AppIcon, AppModelError>)
    ensures r.Ok? <==> (icon.iconType == Preset ==> FieldModels.Given(icon.key)) && (icon.iconType == File ==> icon.fileKey.Some?)
    ensures r.Ok? ==> r.value == icon
  {
    if icon.iconType == Preset && !FieldModels.Given(icon.key) then Err(PresetKeyMissing)
    else if icon.iconType == File && icon.fileKey.None? then Err(IconFileMissing)
    else Ok(icon)
  }

  datatype SelectionMode = Auto | Manual

  /** `TitleField.validate_title_field`: a manually chosen title field names its code. */
  function ValidateTitleField(mode: SelectionMode, code: Option<string>): (r: Result<(SelectionMode, Option<string>), AppModelError>)
    ensures r.Ok? <==> (mode.Auto? || FieldModels.Given(code))
    ensures r.Ok? ==> r.value == (mode, code)
  {
    if mode.Manual? && !FieldModels.Given(code) then Err(TitleCodeMissing) else Ok((mode, code))
  }

  const DigitsBounds := Bounds(1, Some(30))
  const DecimalPlacesBounds := Bounds(0, Some(10))
  const SizeBounds := Bounds(0, None)
  const FiscalMonthBounds := Bounds(1, Some(12))

  /**
   * `int(v)` and a range test inside one `try`.  As the code is written the
   * `except` replaces the range error, so every refusal is "not a number";
   * `ModelChecks.ParseInRange` is the check that keeps the two apart.
   */
  function CheckIntString(v: string, b: Bounds, fault: IntFault -> AppModelError): (r: Result<string, AppModelError>)
    ensures r.Ok? <==> ParseInt(v).Some? && Within(ParseInt(v).value, b)
    ensures r.Ok? ==> r.value == v
    ensures r.Err? ==> r == Err(fault(NotAnInteger))
  {
    match ParseInRangeAsWritten(Json.JStr(v), b)
    case Ok(_) => Ok(v)
    case Err(f) => Err(fault(f))
  }

  /** `NumberPrecision.validate_digits`: the total digit count parses to 1..30. */
  function ValidateDigits(v: string): (r: Result<string, AppModelError>)
    ensures r.Ok? <==> ParseInt(v).Some? && 1 <= ParseInt(v).value <= 30
    ensures r.Ok? ==> r.value == v
    ensures r.Err? ==> r == Err(DigitsInvalid(NotAnInteger))
  {
    CheckIntString(v, DigitsBounds, f => DigitsInvalid(f))
  }

  /** `NumberPrecision.validate_decimal_places`: the decimal places parse to 0..10. */
  function ValidateDecimalPlaces(v: string): (r: Result<string, AppModelError>)
    ensures r.Ok? <==> ParseInt(v).Some? && 0 <= ParseInt(v).value <= 10
    ensures r.Ok? ==> r.value == v
    ensures r.Err? ==> r == Err(DecimalPlacesInvalid(NotAnInteger))
  {
    CheckIntString(v, DecimalPlacesBounds, f => DecimalPlacesInvalid(f))
  }

  /** `"10px"` is not a size the model accepts: `int()` refuses the unit. */
  lemma SizeWithUnitRefused()
    ensures ValidateSizeValue(Some("10px")).Err?
  {
    var s := "10px";
    assert Strip(s) == s;
    assert !AllDigits(s) by { assert !IsDecimalDigit(s[2]); }
  }

  /** `FieldSize.validate_size_value`, for `width`, `height` and `innerHeight`: absent, or parsing to an integer of at least 0. */
  function ValidateSizeValue(v: Option<string>): (r: Result<Option<string>, AppModelError>)
    ensures r.Ok? <==> v.None? || (ParseInt(v.value).Some? && ParseInt(v.value).value >= 0)
    ensures r.Ok? ==> r.value == v
    ensures r.Err? ==> r == Err(SizeInvalid(NotAnInteger))
  {
    if v.None? then Ok(v)
    else
      match CheckIntString(v.value, SizeBounds, f => SizeInvalid(f))
      case Ok(_) => Ok(v)
      case Err(e) => Err(e)
  }

  datatype LayoutElementType = Row | Subtable | Group | Label | Spacer | Hr | ReferenceTable

  /** The attributes `LayoutElement.validate_layout_element` reads; `fields` counts the row's entries. */
  datatype LayoutElement = LayoutElement(elementType: LayoutElementType, fields: Option<nat>, code: Option<string>)

  /** `LayoutElement.validate_layout_element`: a row has entries, a group and a table have a code. */
  function ValidateLayoutElement(e: LayoutElement): (r: Result<LayoutElement, AppModelError>)
    ensures r.Ok? <==>
      && (e.elementType == Row ==> e.fields.Some? && e.fields.value > 0)
      && (e.elementType in {Group, Subtable} ==> FieldModels.Given(e.code))
    ensures r.Ok? ==> r.value == e
  {
    if e.elementType == Row && (e.fields.None? || e.fields.value == 0) then Err(RowFieldsMissing)
    else if e.elementType == Group && !FieldModels.Given(e.code) then Err(GroupCodeMissing)
    else if e.elementType == Subtable && !FieldModels.Given(e.code) then Err(SubtableCodeMissing)
    else Ok(e)
  }

  /** `AppSettings.validate_name`: absent, or 1..64 characters. */
  function ValidateSettingsName(v: Option<string>): (r: Result<Option<string>, AppModelError>)
    ensures r.Ok? <==> v.None? || 1 <= |v.value| <= 64
    ensures r.Ok? ==> r.value == v
  {
    if v.Some? && (|v.value| < 1 || |v.value| > 64) then Err(NameLengthInvalid) else Ok(v)
  }

  /** `AppSettings.validate_description`: absent, or at most 10000 characters. */
  function ValidateDescription(v: Option<string>): (r: Result<Option<string>, AppModelError>)
    ensures r.Ok? <==> v.None? || |v.value| <= 10000
    ensures r.Ok? ==> r.value == v
  {
    if v.Some? && |v.value| > 10000 then Err(DescriptionTooLong) else Ok(v)
  }

  /** `AppSettings.validate_fiscal_year_month`: absent, or parsing to a month 1..12. */
  function ValidateFiscalMonth(v: Option<string>): (r: Result<Option<string>, AppModelError>)
    ensures r.Ok? <==> v.None? || (ParseInt(v.value).Some? && 1 <= ParseInt(v.value).value <= 12)
    ensures r.Ok? ==> r.value == v
    ensures r.Err? ==> r == Err(FiscalMonthInvalid(NotAnInteger))
  {
    if v.None? then Ok(v)
    else
      match CheckIntString(v.value, FiscalMonthBounds, f => FiscalMonthInvalid(f))
      case Ok(_) => Ok(v)
      case Err(e) => Err(e)
  }

  /**
   * `AppCreationRequest.validate_name`: an empty or blank name is refused,
   * then a name longer than 64 characters (counted before stripping); an
   * accepted name is stored stripped.
   */
  function ValidateCreationName(v: string): (r: Result<string, AppModelError>)
    ensures r.Ok? <==> Strip(v) != [] && |v| <= 64
    ensures r.Ok? ==> r.value == Strip(v)
  {
    if v == [] || |Strip(v)| == 0 then Err(NameMissing)
    else if |v| > 64 then Err(NameTooLong)
    else Ok(Strip(v))
  }

  /** A stored name is non-blank, at most 64 characters, and stored again unchanged. */
  lemma CreationNameSettles(v: string)
    requires ValidateCreationName(v).Ok?
    ensures var n := ValidateCreationName(v).value; 1 <= |n| <= 64 && ValidateCreationName(n) == Ok(n)
  {
    var n := Strip(v);
    assert Strip(n) == n;
  }

  /** A name padded with spaces is accepted, counted with its padding, and stored without it. */
  lemma PaddedNameCountsPadding()
    ensures ValidateCreationName("  app  ") == Ok("app")
  {
    var s := "  app  ";
    assert Strip(s) == Strip(s[1..]) == Strip(s[2..]) == Strip(s[2..6]) == Strip(s[2..5]);
    assert s[2..5] == "app";
  }

  /** `AppDeployRequest.validate_apps`: at least one app id, and no id twice. */
  function ValidateDeployApps(apps: seq<int>): (r: Result<seq<int>, AppModelError>)
    ensures r.Ok? <==> apps != [] && NoDuplicates(apps)
    ensures r.Ok? ==> r.value == apps
  {
    HasDuplicatesIff(apps);
    if apps == [] then Err(AppsEmpty)
    else if HasDuplicates(apps) then Err(AppsDuplicated)
    else Ok(apps)
  }

  /**
   * `FieldProperty.validate_code`: the same ASCII rule as
   * `KintoneField.validate_code`, so both models accept the same codes.
   */
  function ValidatePropertyCode(v: string): (r: Result<string, AppModelError>)
    ensures r.Ok? <==> v != [] && FieldModels.MatchesAsciiCode(v)
    ensures r.Ok? ==> r.value == v
  {
    match FieldModels.ValidateCode(v)
    case Ok(c) => Ok(c)
    case Err(e) => Err(CodeInvalid(e))
  }

  /** `AppMoveRequest.validate_app_id`: the app id is positive. */
  function ValidateMoveAppId(v: int): (r: Result<int, AppModelError>)
    ensures r.Ok? <==> v > 0
    ensures r.Ok? ==> r.value == v
  {
    if v <= 0 then Err(AppIdNotPositive) else Ok(v)
  }
}
