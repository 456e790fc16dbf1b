/**
 * `FieldValidator` (repositories/validators/field_validator.py): checks one
 * kintone field definition and repairs it where the server knows how.
 * `validate_field` works on a shallow copy of the caller's dict and assigns
 * into that copy; here the copy is a value and every assignment yields the
 * next value, so the caller's dict is untouched by construction.
 */
module FieldValidator {
  import opened Wrappers
  import opened Json
  import opened Text
  import opened Constants
  import UnitPosition

  /** The `ValueError`s the validator raises, plus `TypeFault` for the `AttributeError`/`TypeError` of an ill-shaped value. */
  datatype FieldError =
    | ReservedCode(code: string)
    | InvalidCodeCharacters(code: string)
    | OptionsMissing
    | OptionsNotObject
    | OptionLabelMissing(key: string)
    | OptionIndexMissing(key: string)
    | OptionIndexNotString(key: string)
    | OptionIndexNotDigits(key: string)
    | ExpressionMissing
    | ExpressionNotText
    | CalcFormatInvalid
    | DigitInvalid
    | DisplayScaleInvalid
    | UnitPositionInvalid
    | ProtocolMissing
    | ProtocolInvalid
    | ReferenceTableMissing
    | RelatedAppMissing
    | RelatedAppTargetMissing
    | ConditionMissing
    | ConditionFieldMissing
    | ConditionRelatedFieldMissing
    | ReferenceSizeInvalid
    | MaxLengthInvalid
    | DefaultNowValueInvalid
    | TypeFault

  /** A check that returns `True` or raises. */
  type Check = Result<bool, FieldError>

  /**
   * `_determine_unit_position(unit)` for whatever the field holds under
   * `unit` (already known to be truthy): a string is resolved; a list or
   * dict of length four or more is answered "AFTER" by the length rule
   * before the regex search would fail on it; anything else fails in
   * `len` or `re.search`.
   */
  function ResolveUnit(unit: Json): (r: Result<string, FieldError>)
    ensures unit.JStr? ==> r == Ok(UnitPosition.ValidatorUnitPosition(unit.s))
    ensures r.Ok? ==> r.value == "BEFORE" || r.value == "AFTER"
  {
    match unit
    case JStr(s) => Ok(UnitPosition.ValidatorUnitPosition(s))
    case JArr(a) => if |a| >= 4 then Ok("AFTER") else Err(TypeFault)
    case JObj(m) => if |m| >= 4 then Ok("AFTER") else Err(TypeFault)
    case _ => Err(TypeFault)
  }

  predicate IsNumberOrCalc(field: Json)
    requires field.JObj?
  {
    IsStr(field, "type", NumberType) || IsStr(field, "type", CalcType)
  }

  /** `_auto_correct_unit_position`: fills a missing `unitPosition` of a NUMBER or CALC field that has a unit. */
  function AutoCorrectUnitPosition(field: Json): (r: Result<Json, FieldError>)
    requires field.JObj?
    ensures r.Ok? ==> r.value.JObj?
  {
    if !IsNumberOrCalc(field) then Ok(field)
    else
      var unit := Get(field, "unit");
      if !Truthy(unit) then Ok(field)
      else
        match ResolveUnit(unit)
        case Err(e) => Err(e)
        case Ok(recommended) =>
          if !Truthy(Get(field, "unitPosition")) then Ok(Set(field, "unitPosition", JStr(recommended)))
          else Ok(field)
  }

  /** `validate_field_code`, called with a truthy code. */
  function ValidateFieldCode(code: Json): (r: Check)
    ensures r.Ok? <==> code.JStr? && code.s !in SystemFieldCodes && MatchesFieldCodePattern(code.s)
    ensures code.JStr? && code.s in SystemFieldCodes ==> r == Err(ReservedCode(code.s))
  {
    match code
    case JStr(c) =>
      if c in SystemFieldCodes then Err(ReservedCode(c))
      else if !MatchesFieldCodePattern(c) then Err(InvalidCodeCharacters(c))
      else Ok(true)
    case _ => Err(TypeFault)
  }

  // Choice options.

  /** The checks `validate_options` applies to one entry, in its order. */
  function OptionEntryCheck(key: string, value: Json): Check
  {
    if !value.JObj? then Err(TypeFault)
    else if !Truthy(Get(value, "label")) then Err(OptionLabelMissing(key))
    else if !Has(value, "index") then Err(OptionIndexMissing(key))
    else if !Get(value, "index").JStr? then Err(OptionIndexNotString(key))
    else if !MatchesDigitsPattern(Get(value, "index").s) then Err(OptionIndexNotDigits(key))
    else Ok(true)
  }

  /** An option entry the server accepts: a dict with a truthy label and a string index of digits. */
  predicate OptionAcceptable(key: string, value: Json)
  {
    value.JObj? && Truthy(Get(value, "label")) && Has(value, "index")
    && Get(value, "index").JStr? && MatchesDigitsPattern(Get(value, "index").s)
  }

  /** The entries checked in dict order; the first failure is raised. */
  function OptionEntriesCheck(entries: Members): Check
  {
    if entries == [] then Ok(true)
    else
      match OptionEntryCheck(entries[0].0, entries[0].1)
      case Err(e) => Err(e)
      case Ok(_) => OptionEntriesCheck(entries[1..])
  }

  /** What `validate_options(field_type, options)` returns or raises. */
  function OptionsVerdict(fieldType: Json, options: Json): Check
  {
    if !StrIn(fieldType, FieldTypesRequiringOptions) then Ok(true)
    else if !Truthy(options) then Err(OptionsMissing)
    else if !options.JObj? then Err(OptionsNotObject)
    else OptionEntriesCheck(options.members)
  }

  /** The entries pass exactly when every one of them is acceptable. */
  lemma {:induction false} OptionEntriesCheckOk(entries: Members)
    ensures OptionEntriesCheck(entries).Ok? <==> forall i :: 0 <= i < |entries| ==> OptionAcceptable(entries[i].0, entries[i].1)
  {
    if entries != [] {
      OptionEntriesCheckOk(entries[1..]);
      assert forall i :: 1 <= i < |entries| ==> entries[i] == entries[1..][i - 1];
    }
  }

  /** A choice field's options pass exactly when they form a non-empty dict of acceptable entries. */
  lemma OptionsVerdictOk(fieldType: string, options: Json)
    requires fieldType in FieldTypesRequiringOptions
    ensures OptionsVerdict(JStr(fieldType), options).Ok? <==>
      options.JObj? && options.members != [] &&
      forall i :: 0 <= i < |options.members| ==> OptionAcceptable(options.members[i].0, options.members[i].1)
  {
    if options.JObj? {
      OptionEntriesCheckOk(options.members);
    }
  }

  /** `validate_options`: the loop over `options.items()` that raises at the first bad entry. */
  method ValidateOptions(fieldType: Json, options: Json) returns (r: Check)
    ensures r == OptionsVerdict(fieldType, options)
  {
    if !StrIn(fieldType, FieldTypesRequiringOptions) {
      return Ok(true);
    }
    if !Truthy(options) {
      return Err(OptionsMissing);
    }
    if !options.JObj? {
      return Err(OptionsNotObject);
    }
    var entries := options.members;
    var i := 0;
    while i < |entries|
      invariant 0 <= i <= |entries|
      invariant OptionEntriesCheck(entries) == OptionEntriesCheck(entries[i..])
    {
      assert entries[i..][0] == entries[i] && entries[i..][1..] == entries[i + 1..];
      var check := OptionEntryCheck(entries[i].0, entries[i].1);
      if check.Err? {
        return check;
      }
      i := i + 1;
    }
    return Ok(true);
  }

  // Numeric display settings, shared by NUMBER fields and numeric CALC formats.

  /** `digit`, `displayScale` and `unitPosition`, checked in that order. */
  function NumberDisplayCheck(config: Json): (r: Check)
    requires config.JObj?
    ensures r.Ok? <==> NumberDisplayValid(config)
  {
    var digit := Get(config, "digit");
    if digit != JNull && !digit.JBool? && !StrIn(digit, ["true", "false"]) then Err(DigitInvalid)
    else
      var scale := Get(config, "displayScale");
      if scale != JNull && !(PyInt(scale).Some? && 0 <= PyInt(scale).value <= 10) then Err(DisplayScaleInvalid)
      else
        var position := Get(config, "unitPosition");
        if Truthy(position) && !StrIn(position, ValidUnitPositions) then Err(UnitPositionInvalid)
        else Ok(true)
  }

  /** The numeric settings a NUMBER field may carry. */
  predicate NumberDisplayValid(config: Json)
    requires config.JObj?
  {
    (Get(config, "digit") == JNull || Get(config, "digit").JBool? || StrIn(Get(config, "digit"), ["true", "false"]))
    && (Get(config, "displayScale") == JNull || (PyInt(Get(config, "displayScale")).Some? && 0 <= PyInt(Get(config, "displayScale")).value <= 10))
    && (!Truthy(Get(config, "unitPosition")) || StrIn(Get(config, "unitPosition"), ["BEFORE", "AFTER"]))
  }

  // CALC fields.

  /** The `formula` to `expression` move and the `digit` to NUMBER_DIGIT promotion, done before any check. */
  function CalcNormalise(config: Json): (r: Json)
    requires config.JObj?
    ensures r.JObj?
  {
    var c1 :=
      if Get(config, "formula") != JNull && Get(config, "expression") == JNull
      then Del(Set(config, "expression", Get(config, "formula")), "formula")
      else config;
    var format := Get(c1, "format");
    if Get(c1, "digit") == JBool(true) && (!Truthy(format) || format == JStr("NUMBER"))
    then Set(c1, "format", JStr("NUMBER_DIGIT"))
    else c1
  }

  /** A CALC expression the validator accepts: a string that is not blank. */
  predicate ExpressionPresent(e: Json)
  {
    e.JStr? && Strip(e.s) != []
  }

  /** The expression and format checks of `validate_calc_field`, run on the normalised field. */
  function CalcChecks(c: Json): (r: Check)
    requires c.JObj?
  {
    var expression := Get(c, "expression");
    if expression == JNull then Err(ExpressionMissing)
    else if !ExpressionPresent(expression) then Err(ExpressionNotText)
    else
      var format := Get(c, "format");
      if format == JNull then Ok(true)
      else if !StrIn(format, CalcFieldFormats) then Err(CalcFormatInvalid)
      else if format.s == "NUMBER" || format.s == "NUMBER_DIGIT" then NumberDisplayCheck(c)
      else Ok(true)
  }

  /** `validate_calc_field` on the field being validated: the repaired field, or the error it raises. */
  function ValidateCalc(config: Json): (r: Result<Json, FieldError>)
    requires config.JObj?
    ensures r.Ok? ==> r.value.JObj?
  {
    var c := CalcNormalise(config);
    match CalcChecks(c)
    case Err(e) => Err(e)
    case Ok(_) => if Get(c, "format") == JNull then Ok(Set(c, "format", JStr("NUMBER_DIGIT"))) else Ok(c)
  }

  /** An accepted CALC field has a non-blank expression and one of the seven formats. */
  lemma ValidateCalcShape(config: Json)
    requires config.JObj? && ValidateCalc(config).Ok?
    ensures var r := ValidateCalc(config).value;
      ExpressionPresent(Get(r, "expression")) && StrIn(Get(r, "format"), CalcFieldFormats)
  {
    var c := CalcNormalise(config);
    if Get(c, "format") == JNull {
      SmallTablesFacts();
      var r := Set(c, "format", JStr("NUMBER_DIGIT"));
      assert ValidateCalc(config) == Ok(r);
      assert Get(r, "expression") == Get(c, "expression");
    } else {
      assert ValidateCalc(config) == Ok(c);
    }
  }

  // LINK, REFERENCE_TABLE, text and date fields.

  /** `validate_link_field`. */
  function LinkCheck(protocol: Json): (r: Check)
    ensures r.Ok? <==> StrIn(protocol, ValidLinkProtocols)
  {
    if !Truthy(protocol) then Err(ProtocolMissing)
    else if !StrIn(protocol, ValidLinkProtocols) then Err(ProtocolInvalid)
    else Ok(true)
  }

  const ReferenceSizeStrings: seq<string> := ["1", "3", "5", "10", "20", "30", "40", "50"]
  const ReferenceSizeNumbers: seq<int> := [1, 3, 5, 10, 20, 30, 40, 50]

  /** `size in ['1', ..., '50', 1, ..., 50]`, with Python's `==` between numbers. */
  predicate ReferenceSizeAllowed(size: Json)
  {
    StrIn(size, ReferenceSizeStrings) || exists n :: n in ReferenceSizeNumbers && NumEquals(size, n)
  }

  /** `validate_reference_table_field`: the required parts of `referenceTable`, in the order they are checked. */
  function ReferenceTableCheck(table: Json): (r: Check)
    ensures r.Ok? ==> table.JObj? && ReferenceTableComplete(table)
  {
    if !Truthy(table) then Err(ReferenceTableMissing)
    else if !table.JObj? then Err(TypeFault)
    else
      var app := Get(table, "relatedApp");
      if !Truthy(app) then Err(RelatedAppMissing)
      else if !app.JObj? then Err(TypeFault)
      else if !Truthy(Get(app, "app")) && !Truthy(Get(app, "code")) then Err(RelatedAppTargetMissing)
      else
        var condition := Get(table, "condition");
        if !Truthy(condition) then Err(ConditionMissing)
        else if !condition.JObj? then Err(TypeFault)
        else if !Truthy(Get(condition, "field")) then Err(ConditionFieldMissing)
        else if !Truthy(Get(condition, "relatedField")) then Err(ConditionRelatedFieldMissing)
        else
          var size := Get(table, "size");
          if size != JNull && !ReferenceSizeAllowed(size) then Err(ReferenceSizeInvalid)
          else Ok(true)
  }

  /** A referenceTable naming its app, both condition fields, and an allowed size if any. */
  predicate ReferenceTableComplete(table: Json)
    requires table.JObj?
  {
    var app := Get(table, "relatedApp");
    var condition := Get(table, "condition");
    app.JObj? && (Truthy(Get(app, "app")) || Truthy(Get(app, "code")))
    && condition.JObj? && Truthy(Get(condition, "field")) && Truthy(Get(condition, "relatedField"))
    && (Get(table, "size") == JNull || ReferenceSizeAllowed(Get(table, "size")))
  }

  /** The accepted referenceTables are exactly the complete ones. */
  lemma ReferenceTableCheckComplete(table: Json)
    requires table.JObj?
    ensures ReferenceTableCheck(table).Ok? <==> ReferenceTableComplete(table)
  {
  }

  /** `validate_text_field`: `maxLength`, when given, must convert to an int in 1..64000. */
  function TextCheck(config: Json): (r: Check)
    requires config.JObj?
    ensures r.Ok? <==>
      (Get(config, "maxLength") == JNull ||
       (PyInt(Get(config, "maxLength")).Some? && 1 <= PyInt(Get(config, "maxLength")).value <= 64000))
  {
    var maxLength := Get(config, "maxLength");
    if maxLength == JNull then Ok(true)
    else
      match PyInt(maxLength)
      case None => Err(MaxLengthInvalid)
      case Some(n) => if n < 1 || n > 64000 then Err(MaxLengthInvalid) else Ok(true)
  }

  /** `validate_datetime_field`: `defaultNowValue`, when given, must be a boolean. */
  function DatetimeCheck(config: Json): (r: Check)
    requires config.JObj?
    ensures r.Ok? <==> Get(config, "defaultNowValue") == JNull || Get(config, "defaultNowValue").JBool?
  {
    var now := Get(config, "defaultNowValue");
    if now != JNull && !now.JBool? then Err(DefaultNowValueInvalid) else Ok(true)
  }

  // The whole field.

  /** Keep `field` when `check` passed, else raise its error. */
  function AfterCheck(check: Check, field: Json): (r: Result<Json, FieldError>)
    ensures check.Ok? ==> r == Ok(field)
    ensures check.Err? ==> r == Err(check.error)
  {
    match check
    case Ok(_) => Ok(field)
    case Err(e) => Err(e)
  }

  /**
   * The checks of the types other than CALC, which only read the field.
   * The source runs a series of independent `if`s, but their conditions are
   * exclusive (one `type` value, which no check changes), so they are written
   * as one chain here.  The types whose validators are empty (rich text,
   * file, user select, subtable, status, related records, record number and
   * the system fields) pass.
   */
  function FieldCheck(field: Json): Check
    requires field.JObj?
  {
    var t := Get(field, "type");
    if StrIn(t, FieldTypesRequiringOptions) then OptionsVerdict(t, Get(field, "options"))
    else if t == JStr(LinkType) then LinkCheck(Get(field, "protocol"))
    else if t == JStr(ReferenceTableType) then ReferenceTableCheck(Get(field, "referenceTable"))
    else if t == JStr(NumberType) then NumberDisplayCheck(field)
    else if StrIn(t, [SingleLineTextType, MultiLineTextType]) then TextCheck(field)
    else if StrIn(t, ["DATE", "TIME", DatetimeType]) then DatetimeCheck(field)
    else Ok(true)
  }

  /**
   * When a CALC field without a format gets the default NUMBER_DIGIT: after
   * the numeric checks, as `validate_calc_field` does, or before them, the
   * corrected order of `ValidateCalcDefaultFirst`.
   */
  datatype CalcOrder = AsWritten | DefaultFirst

  /** The CALC check in the given order. */
  function CalcValidation(field: Json, order: CalcOrder): (r: Result<Json, FieldError>)
    requires field.JObj?
    ensures r.Ok? ==> r.value.JObj?
  {
    match order
    case AsWritten => ValidateCalc(field)
    case DefaultFirst => ValidateCalcDefaultFirst(field)
  }

  /**
   * The type-specific checks: CALC repairs the field, the others only check it.
   * By default CALC is checked in the source's order.
   */
  function TypeSpecificChecks(field: Json, order: CalcOrder := AsWritten): (r: Result<Json, FieldError>)
    requires field.JObj?
    ensures r.Ok? ==> r.value.JObj?
  {
    if Get(field, "type") == JStr(CalcType) then CalcValidation(field, order)
    else AfterCheck(FieldCheck(field), field)
  }

  /** A field with a truthy `lookup` is given the recommended layout width. */
  function LookupHint(field: Json): (r: Json)
    requires field.JObj?
    ensures r.JObj?
  {
    if Truthy(Get(field, "lookup")) then Set(field, "_recommendedMinWidth", JStr(LookupFieldMinWidth)) else field
  }

  /**
   * `FieldValidator.validate_field`: the checked and repaired copy of `field`,
   * or the error raised.  `ValidateField(field)` is the source's validator;
   * `ValidateField(field, DefaultFirst)` the one with the corrected CALC order.
   */
  function ValidateField(field: Json, order: CalcOrder := AsWritten): (r: Result<Json, FieldError>)
    requires field.JObj?
    ensures r.Ok? ==> r.value.JObj?
  {
    match AutoCorrectUnitPosition(field)
    case Err(e) => Err(e)
    case Ok(corrected) =>
      var code := Get(corrected, "code");
      if Truthy(code) && ValidateFieldCode(code).Err? then Err(ValidateFieldCode(code).error)
      else if !Truthy(Get(corrected, "type")) then Ok(corrected)
      else
        match TypeSpecificChecks(corrected, order)
        case Err(e) => Err(e)
        case Ok(checked) => Ok(LookupHint(checked))
  }

  // What a successful validation may change.

  /** The keys `validate_field` may assign or delete; every other key comes back as it went in. */
  const RepairedKeys: seq<string> := ["unitPosition", "expression", "formula", "format", "_recommendedMinWidth"]

  ghost predicate SameOutside(a: Json, b: Json, changed: seq<string>)
    requires a.JObj? && b.JObj?
  {
    forall k :: k !in changed ==> Get(a, k) == Get(b, k) && (Has(a, k) <==> Has(b, k))
  }

  lemma SetKeeps(d: Json, k: string, v: Json, changed: seq<string>)
    requires d.JObj? && k in changed
    ensures SameOutside(Set(d, k, v), d, changed)
  {
  }

  lemma DelKeeps(d: Json, k: string, changed: seq<string>)
    requires d.JObj? && k in changed
    ensures SameOutside(Del(d, k), d, changed)
  {
  }

  lemma SameOutsideTrans(a: Json, b: Json, c: Json, changed: seq<string>)
    requires a.JObj? && b.JObj? && c.JObj?
    requires SameOutside(a, b, changed) && SameOutside(b, c, changed)
    ensures SameOutside(a, c, changed)
  {
  }

  lemma AutoCorrectKeeps(field: Json)
    requires field.JObj? && AutoCorrectUnitPosition(field).Ok?
    ensures var c := AutoCorrectUnitPosition(field).value;
      SameOutside(c, field, ["unitPosition"])
      && (Truthy(Get(field, "unitPosition")) ==> c == field)
  {
  }

  const CalcKeys: seq<string> := ["expression", "formula", "format"]

  lemma CalcNormaliseKeeps(config: Json)
    requires config.JObj?
    ensures SameOutside(CalcNormalise(config), config, CalcKeys)
  {
    var c1 := config;
    if Get(config, "formula") != JNull && Get(config, "expression") == JNull {
      var e := Set(config, "expression", Get(config, "formula"));
      SetKeeps(config, "expression", Get(config, "formula"), CalcKeys);
      DelKeeps(e, "formula", CalcKeys);
      c1 := Del(e, "formula");
      SameOutsideTrans(c1, e, config, CalcKeys);
    }
    assert SameOutside(c1, config, CalcKeys);
    var format := Get(c1, "format");
    if Get(c1, "digit") == JBool(true) && (!Truthy(format) || format == JStr("NUMBER")) {
      SetKeeps(c1, "format", JStr("NUMBER_DIGIT"), CalcKeys);
      SameOutsideTrans(Set(c1, "format", JStr("NUMBER_DIGIT")), c1, config, CalcKeys);
    }
  }

  /** A successful `ValidateCalc` returns the normalised field, possibly with the default format. */
  lemma CalcResult(config: Json)
    requires config.JObj? && ValidateCalc(config).Ok?
    ensures var c := CalcNormalise(config);
      ValidateCalc(config).value == c || ValidateCalc(config).value == Set(c, "format", JStr("NUMBER_DIGIT"))
  {
  }

  lemma CalcKeeps(config: Json)
    requires config.JObj? && ValidateCalc(config).Ok?
    ensures SameOutside(ValidateCalc(config).value, config, CalcKeys)
  {
    var c := CalcNormalise(config);
    CalcNormaliseKeeps(config);
    CalcResult(config);
    if ValidateCalc(config).value != c {
      SetKeeps(c, "format", JStr("NUMBER_DIGIT"), CalcKeys);
      SameOutsideTrans(ValidateCalc(config).value, c, config, CalcKeys);
    }
  }

  /** Only the CALC branch can change the field. */
  lemma TypeSpecificChecksResult(field: Json, order: CalcOrder)
    requires field.JObj? && TypeSpecificChecks(field, order).Ok?
    ensures TypeSpecificChecks(field, order).value == field
      || (Get(field, "type") == JStr(CalcType) && TypeSpecificChecks(field, order) == CalcValidation(field, order))
  {
  }

  lemma TypeSpecificChecksKeeps(field: Json, order: CalcOrder)
    requires field.JObj? && TypeSpecificChecks(field, order).Ok?
    ensures SameOutside(TypeSpecificChecks(field, order).value, field, CalcKeys)
  {
    TypeSpecificChecksResult(field, order);
    if TypeSpecificChecks(field, order).value != field {
      if order == DefaultFirst {
        DefaultFirstRefinesCalc(field);
      }
      CalcKeeps(field);
    }
  }

  /** A successful validation changes nothing outside the repaired keys. */
  lemma ValidateFieldOnlyRepairs(field: Json, order: CalcOrder)
    requires field.JObj? && ValidateField(field, order).Ok?
    ensures SameOutside(ValidateField(field, order).value, field, RepairedKeys)
  {
    AutoCorrectKeeps(field);
    var c := AutoCorrectUnitPosition(field).value;
    if Truthy(Get(c, "type")) {
      TypeSpecificChecksKeeps(c, order);
    }
  }

  /** A successful validation keeps the field's code and type. */
  lemma ValidateFieldKeepsCode(field: Json, order: CalcOrder)
    requires field.JObj? && ValidateField(field, order).Ok?
    ensures Get(ValidateField(field, order).value, "code") == Get(field, "code")
    ensures Get(ValidateField(field, order).value, "type") == Get(field, "type")
  {
    ValidateFieldOnlyRepairs(field, order);
    assert "code" !in RepairedKeys && "type" !in RepairedKeys;
  }

  /** The stages of a successful validation. */
  lemma ValidateFieldStages(field: Json, order: CalcOrder)
    requires field.JObj? && ValidateField(field, order).Ok?
    ensures AutoCorrectUnitPosition(field).Ok?
    ensures var c := AutoCorrectUnitPosition(field).value;
      Truthy(Get(c, "code")) ==> ValidateFieldCode(Get(c, "code")).Ok?
    ensures var c := AutoCorrectUnitPosition(field).value;
      if Truthy(Get(c, "type"))
      then TypeSpecificChecks(c, order).Ok? && ValidateField(field, order).value == LookupHint(TypeSpecificChecks(c, order).value)
      else ValidateField(field, order).value == c
  {
  }

  lemma LookupHintKeeps(field: Json)
    requires field.JObj?
    ensures SameOutside(LookupHint(field), field, ["_recommendedMinWidth"])
  {
  }

  /** An explicit `unitPosition` is never replaced by the recommendation. */
  lemma ValidateFieldKeepsExplicitPosition(field: Json, order: CalcOrder)
    requires field.JObj? && ValidateField(field, order).Ok? && Truthy(Get(field, "unitPosition"))
    ensures Get(ValidateField(field, order).value, "unitPosition") == Get(field, "unitPosition")
  {
    ValidateFieldStages(field, order);
    AutoCorrectKeeps(field);
    var r := ValidateField(field, order).value;
    if Truthy(Get(field, "type")) {
      TypeSpecificChecksKeeps(field, order);
      var checked := TypeSpecificChecks(field, order).value;
      assert Get(checked, "unitPosition") == Get(field, "unitPosition");
      LookupHintKeeps(checked);
      assert r == LookupHint(checked);
    }
  }

  /** A NUMBER or CALC field with a textual unit and no position gets the recommended one. */
  lemma ValidateFieldFillsPosition(field: Json, order: CalcOrder)
    requires field.JObj? && ValidateField(field, order).Ok? && IsNumberOrCalc(field)
    requires Get(field, "unit").JStr? && Get(field, "unit").s != [] && !Truthy(Get(field, "unitPosition"))
    ensures Get(ValidateField(field, order).value, "unitPosition") == JStr(UnitPosition.ValidatorUnitPosition(Get(field, "unit").s))
  {
    var position := JStr(UnitPosition.ValidatorUnitPosition(Get(field, "unit").s));
    assert ResolveUnit(Get(field, "unit")) == Ok(position.s);
    var c := Set(field, "unitPosition", position);
    assert AutoCorrectUnitPosition(field) == Ok(c);
    assert Get(c, "type") == Get(field, "type");
    ValidateFieldStages(field, order);
    TypeSpecificChecksKeeps(c, order);
    KeptPosition(c, TypeSpecificChecks(c, order).value);
  }

  /** A validated field's code, when it has one, is a string of the allowed characters naming no system field. */
  lemma ValidateFieldCodeAccepted(field: Json, order: CalcOrder)
    requires field.JObj? && ValidateField(field, order).Ok? && Truthy(Get(field, "code"))
    ensures Get(field, "code").JStr?
    ensures Get(field, "code").s !in SystemFieldCodes && MatchesFieldCodePattern(Get(field, "code").s)
  {
    AutoCorrectKeeps(field);
  }

  /** A reserved code is refused whenever the unit could be resolved. */
  lemma ValidateFieldRejectsReservedCode(field: Json, order: CalcOrder)
    requires field.JObj? && AutoCorrectUnitPosition(field).Ok?
    requires Get(field, "code").JStr? && Get(field, "code").s in SystemFieldCodes
    ensures ValidateField(field, order) == Err(ReservedCode(Get(field, "code").s))
  {
    AutoCorrectKeeps(field);
    var c := AutoCorrectUnitPosition(field).value;
    assert Get(c, "code") == Get(field, "code");
    assert Truthy(Get(c, "code")) by {
      assert forall x :: x in SystemFieldCodes ==> x != [];
    }
    CodeStageFails(field, c, order);
  }

  lemma CodeStageFails(field: Json, c: Json, order: CalcOrder)
    requires field.JObj? && AutoCorrectUnitPosition(field) == Ok(c) && c.JObj?
    requires Truthy(Get(c, "code")) && ValidateFieldCode(Get(c, "code")).Err?
    ensures ValidateField(field, order) == Err(ValidateFieldCode(Get(c, "code")).error)
  {
  }

  // Validating a validated field again.

  lemma LookupHintIdempotent(field: Json)
    requires field.JObj?
    ensures LookupHint(LookupHint(field)) == LookupHint(field)
  {
    var r := LookupHint(field);
    if Truthy(Get(field, "lookup")) {
      assert Get(r, "lookup") == Get(field, "lookup");
      SetSame(r, "_recommendedMinWidth");
    }
  }

  /** After normalisation a `digit` of `True` never sits beside a missing or plain NUMBER format. */
  lemma NormalisedDigitFormat(config: Json)
    requires config.JObj?
    ensures var c := CalcNormalise(config);
      Get(c, "digit") == JBool(true) ==> Truthy(Get(c, "format")) && Get(c, "format") != JStr("NUMBER")
  {
    var c1 :=
      if Get(config, "formula") != JNull && Get(config, "expression") == JNull
      then Del(Set(config, "expression", Get(config, "formula")), "formula")
      else config;
    var format := Get(c1, "format");
    if Get(c1, "digit") == JBool(true) && (!Truthy(format) || format == JStr("NUMBER")) {
      assert CalcNormalise(config) == Set(c1, "format", JStr("NUMBER_DIGIT"));
    } else {
      assert CalcNormalise(config) == c1;
    }
  }

  /** A successful CALC result has no plain NUMBER format beside a `digit` of `True`. */
  lemma CalcResultDigitFormat(config: Json)
    requires config.JObj? && ValidateCalc(config).Ok?
    ensures var t := ValidateCalc(config).value;
      Get(t, "digit") == JBool(true) ==> Get(t, "format") != JStr("NUMBER")
  {
    var c := CalcNormalise(config);
    CalcResult(config);
    NormalisedDigitFormat(config);
    FormatDefaultedDigit(c);
  }

  /** Giving a field the NUMBER_DIGIT format keeps its `digit` and rules out plain NUMBER. */
  lemma FormatDefaultedDigit(c: Json)
    requires c.JObj?
    ensures var d := Set(c, "format", JStr("NUMBER_DIGIT"));
      Get(d, "digit") == Get(c, "digit") && Get(d, "format") != JStr("NUMBER")
  {
    assert "digit" != "format";
  }

  lemma NormaliseSettled(u: Json)
    requires u.JObj? && Get(u, "expression") != JNull && Truthy(Get(u, "format"))
    requires Get(u, "digit") == JBool(true) ==> Get(u, "format") != JStr("NUMBER")
    ensures CalcNormalise(u) == u
  {
  }

  /** A CALC result whose checked values are kept passes the default-first checks unchanged. */
  lemma CalcStable(config: Json, u: Json)
    requires config.JObj? && ValidateCalcDefaultFirst(config).Ok?
    requires u.JObj? && SameOutside(u, ValidateCalcDefaultFirst(config).value, ["_recommendedMinWidth"])
    ensures ValidateCalcDefaultFirst(u) == Ok(u)
  {
    var t := ValidateCalcDefaultFirst(config).value;
    DefaultFirstResult(config);
    SameCalcValues(u, t);
    CalcChecksCongruent(u, t);
    DefaultFirstSettled(u);
  }

  /** What a successful default-first CALC check returns: a field it accepts again. */
  lemma DefaultFirstResult(config: Json)
    requires config.JObj? && ValidateCalcDefaultFirst(config).Ok?
    ensures var t := ValidateCalcDefaultFirst(config).value;
      CalcChecks(t).Ok? && ExpressionPresent(Get(t, "expression")) && StrIn(Get(t, "format"), CalcFieldFormats)
      && (Get(t, "digit") == JBool(true) ==> Get(t, "format") != JStr("NUMBER"))
  {
    DefaultFirstRefinesCalc(config);
    ValidateCalcShape(config);
    CalcResultDigitFormat(config);
  }

  lemma SameCalcValues(u: Json, t: Json)
    requires u.JObj? && t.JObj? && SameOutside(u, t, ["_recommendedMinWidth"])
    ensures Get(u, "expression") == Get(t, "expression") && Get(u, "format") == Get(t, "format")
    ensures Get(u, "digit") == Get(t, "digit") && Get(u, "displayScale") == Get(t, "displayScale")
    ensures Get(u, "unitPosition") == Get(t, "unitPosition")
  {
    assert "expression" !in ["_recommendedMinWidth"] && "format" !in ["_recommendedMinWidth"];
    assert "digit" !in ["_recommendedMinWidth"] && "displayScale" !in ["_recommendedMinWidth"];
    assert "unitPosition" !in ["_recommendedMinWidth"];
  }

  lemma CalcChecksCongruent(a: Json, b: Json)
    requires a.JObj? && b.JObj?
    requires Get(a, "expression") == Get(b, "expression") && Get(a, "format") == Get(b, "format")
    requires Get(a, "digit") == Get(b, "digit") && Get(a, "displayScale") == Get(b, "displayScale")
    requires Get(a, "unitPosition") == Get(b, "unitPosition")
    ensures CalcChecks(a) == CalcChecks(b)
  {
    NumberDisplayCongruent(a, b);
  }

  lemma NumberDisplayCongruent(a: Json, b: Json)
    requires a.JObj? && b.JObj?
    requires Get(a, "digit") == Get(b, "digit") && Get(a, "displayScale") == Get(b, "displayScale")
    requires Get(a, "unitPosition") == Get(b, "unitPosition")
    ensures NumberDisplayCheck(a) == NumberDisplayCheck(b)
  {
  }

  /** The non-CALC checks read no key a validation repairs. */
  lemma FieldCheckCongruent(a: Json, b: Json)
    requires a.JObj? && b.JObj?
    requires Get(a, "type") == Get(b, "type") && Get(a, "options") == Get(b, "options")
    requires Get(a, "protocol") == Get(b, "protocol") && Get(a, "referenceTable") == Get(b, "referenceTable")
    requires Get(a, "digit") == Get(b, "digit") && Get(a, "displayScale") == Get(b, "displayScale")
    requires Get(a, "unitPosition") == Get(b, "unitPosition")
    requires Get(a, "maxLength") == Get(b, "maxLength") && Get(a, "defaultNowValue") == Get(b, "defaultNowValue")
    ensures FieldCheck(a) == FieldCheck(b)
  {
    var t := Get(a, "type");
    if StrIn(t, FieldTypesRequiringOptions) {
      assert FieldCheck(a) == OptionsVerdict(t, Get(a, "options"));
      assert FieldCheck(b) == OptionsVerdict(t, Get(b, "options"));
    } else if t == JStr(LinkType) || t == JStr(ReferenceTableType) {
    } else if t == JStr(NumberType) {
      NumberDisplayCongruent(a, b);
    } else if StrIn(t, [SingleLineTextType, MultiLineTextType]) {
      TextCongruent(a, b);
    } else {
      DatetimeCongruent(a, b);
    }
  }

  lemma TextCongruent(a: Json, b: Json)
    requires a.JObj? && b.JObj? && Get(a, "maxLength") == Get(b, "maxLength")
    ensures TextCheck(a) == TextCheck(b)
  {
  }

  lemma DatetimeCongruent(a: Json, b: Json)
    requires a.JObj? && b.JObj? && Get(a, "defaultNowValue") == Get(b, "defaultNowValue")
    ensures DatetimeCheck(a) == DatetimeCheck(b)
  {
  }

  /** After a successful correction a NUMBER or CALC field with a unit has a position, so a second correction changes nothing. */
  lemma AutoCorrectSettles(field: Json, u: Json)
    requires field.JObj? && AutoCorrectUnitPosition(field).Ok? && u.JObj?
    requires Get(u, "type") == Get(field, "type") && Get(u, "unit") == Get(field, "unit")
    requires Get(u, "unitPosition") == Get(AutoCorrectUnitPosition(field).value, "unitPosition")
    ensures AutoCorrectUnitPosition(u) == Ok(u)
  {
  }

  /** A field that every stage leaves alone validates to itself. */
  lemma ValidateFieldFixpoint(u: Json, order: CalcOrder)
    requires u.JObj? && AutoCorrectUnitPosition(u) == Ok(u)
    requires Truthy(Get(u, "code")) ==> ValidateFieldCode(Get(u, "code")).Ok?
    requires Truthy(Get(u, "type")) ==> TypeSpecificChecks(u, order) == Ok(u) && LookupHint(u) == u
    ensures ValidateField(u, order) == Ok(u)
  {
  }

  lemma HintedFieldCheckStable(c: Json)
    requires c.JObj? && FieldCheck(c).Ok?
    ensures FieldCheck(LookupHint(c)).Ok?
  {
    HintKeepsChecked(c);
    FieldCheckCongruent(LookupHint(c), c);
  }

  /** The lookup hint leaves every value the non-CALC checks read as it was. */
  lemma HintKeepsChecked(c: Json)
    requires c.JObj?
    ensures var r := LookupHint(c);
      && Get(r, "type") == Get(c, "type") && Get(r, "options") == Get(c, "options")
      && Get(r, "protocol") == Get(c, "protocol") && Get(r, "referenceTable") == Get(c, "referenceTable")
      && Get(r, "digit") == Get(c, "digit") && Get(r, "displayScale") == Get(c, "displayScale")
      && Get(r, "unitPosition") == Get(c, "unitPosition")
      && Get(r, "maxLength") == Get(c, "maxLength") && Get(r, "defaultNowValue") == Get(c, "defaultNowValue")
  {
    HintKeepsSome(c, "type", "options", "protocol");
    HintKeepsSome(c, "referenceTable", "digit", "displayScale");
    HintKeepsSome(c, "unitPosition", "maxLength", "defaultNowValue");
  }

  lemma HintKeepsSome(c: Json, k1: string, k2: string, k3: string)
    requires c.JObj? && k1 != "_recommendedMinWidth" && k2 != "_recommendedMinWidth" && k3 != "_recommendedMinWidth"
    ensures var r := LookupHint(c);
      Get(r, k1) == Get(c, k1) && Get(r, k2) == Get(c, k2) && Get(r, k3) == Get(c, k3)
  {
  }

  /** With the default-first CALC order the type-specific checks accept their own hinted result again. */
  lemma TypeSpecificChecksStable(c: Json)
    requires c.JObj? && TypeSpecificChecks(c, DefaultFirst).Ok?
    ensures var r := LookupHint(TypeSpecificChecks(c, DefaultFirst).value);
      TypeSpecificChecks(r, DefaultFirst) == Ok(r)
  {
    if Get(c, "type") == JStr(CalcType) {
      CalcBranchStable(c);
    } else {
      OtherBranchStable(c);
    }
  }

  lemma CalcBranchStable(c: Json)
    requires c.JObj? && Get(c, "type") == JStr(CalcType) && ValidateCalcDefaultFirst(c).Ok?
    ensures var r := LookupHint(ValidateCalcDefaultFirst(c).value);
      Get(r, "type") == JStr(CalcType) && ValidateCalcDefaultFirst(r) == Ok(r)
  {
    var t := ValidateCalcDefaultFirst(c).value;
    var r := LookupHint(t);
    LookupHintKeeps(t);
    CalcStable(c, r);
  }

  lemma OtherBranchStable(c: Json)
    requires c.JObj? && Get(c, "type") != JStr(CalcType) && TypeSpecificChecks(c, DefaultFirst).Ok?
    ensures var r := LookupHint(TypeSpecificChecks(c, DefaultFirst).value);
      TypeSpecificChecks(r, DefaultFirst) == Ok(r)
  {
    assert TypeSpecificChecks(c, DefaultFirst).value == c;
    HintKeepsChecked(c);
    HintedFieldCheckStable(c);
  }

  lemma KeptValue(field: Json, c: Json, t: Json, k: string)
    requires field.JObj? && c.JObj? && t.JObj? && k !in RepairedKeys
    requires SameOutside(c, field, ["unitPosition"]) && SameOutside(t, c, CalcKeys)
    ensures Get(LookupHint(t), k) == Get(t, k) == Get(c, k) == Get(field, k)
  {
    assert k !in ["unitPosition"] && k !in CalcKeys && k !in ["_recommendedMinWidth"];
    LookupHintKeeps(t);
  }

  lemma KeptPosition(c: Json, t: Json)
    requires c.JObj? && t.JObj? && SameOutside(t, c, CalcKeys)
    ensures Get(LookupHint(t), "unitPosition") == Get(c, "unitPosition")
  {
    LookupHintKeeps(t);
    assert "unitPosition" !in CalcKeys && "unitPosition" !in ["_recommendedMinWidth"];
    assert Get(t, "unitPosition") == Get(c, "unitPosition");
  }

  lemma KeptValues(field: Json, c: Json, t: Json)
    requires field.JObj? && c.JObj? && t.JObj?
    requires SameOutside(c, field, ["unitPosition"]) && SameOutside(t, c, CalcKeys)
    ensures var r := LookupHint(t);
      Get(r, "unitPosition") == Get(c, "unitPosition") && Get(r, "type") == Get(field, "type")
      && Get(r, "unit") == Get(field, "unit") && Get(r, "code") == Get(c, "code") && Get(c, "type") == Get(field, "type")
  {
    KeptPosition(c, t);
    KeptValue(field, c, t, "type");
    KeptValue(field, c, t, "unit");
    KeptValue(field, c, t, "code");
  }

  lemma RevalidateTyped(field: Json, c: Json, t: Json)
    requires field.JObj? && AutoCorrectUnitPosition(field) == Ok(c) && c.JObj?
    requires Truthy(Get(c, "code")) ==> ValidateFieldCode(Get(c, "code")).Ok?
    requires Truthy(Get(c, "type")) && TypeSpecificChecks(c, DefaultFirst) == Ok(t)
    ensures ValidateField(LookupHint(t), DefaultFirst) == Ok(LookupHint(t))
  {
    var r := LookupHint(t);
    AutoCorrectKeeps(field);
    TypeSpecificChecksKeeps(c, DefaultFirst);
    KeptValues(field, c, t);
    AutoCorrectSettles(field, r);
    TypeSpecificChecksStable(c);
    LookupHintIdempotent(t);
    ValidateFieldFixpoint(r, DefaultFirst);
  }

  /**
   * With CALC fields checked in the default-first order a validated field
   * validates to itself; `ValidateFieldNotIdempotent` shows that the order
   * as written breaks this.
   */
  lemma ValidateFieldIdempotent(field: Json)
    requires field.JObj? && ValidateField(field, DefaultFirst).Ok?
    ensures ValidateField(ValidateField(field, DefaultFirst).value, DefaultFirst) == ValidateField(field, DefaultFirst)
  {
    ValidateFieldStages(field, DefaultFirst);
    AutoCorrectKeeps(field);
    var c := AutoCorrectUnitPosition(field).value;
    assert Get(c, "type") == Get(field, "type");
    if !Truthy(Get(c, "type")) {
      AutoCorrectSettles(field, c);
      ValidateFieldFixpoint(c, DefaultFirst);
    } else {
      RevalidateTyped(field, c, TypeSpecificChecks(c, DefaultFirst).value);
    }
  }

  /** The corrected validator refuses more and otherwise returns what the source's returns. */
  lemma DefaultFirstRefinesValidateField(field: Json)
    requires field.JObj? && ValidateField(field, DefaultFirst).Ok?
    ensures ValidateField(field) == ValidateField(field, DefaultFirst)
  {
    ValidateFieldStages(field, DefaultFirst);
    var c := AutoCorrectUnitPosition(field).value;
    if Truthy(Get(c, "type")) && Get(c, "type") == JStr(CalcType) {
      DefaultFirstRefinesCalc(c);
    }
  }

  /**
   * As written, a CALC field without a format is accepted whatever its numeric
   * settings, because the default NUMBER_DIGIT is chosen after the numeric
   * checks were skipped; its own result then carries that format and is
   * refused.  The default-first order refuses the field at once.
   */
  lemma ValidateCalcNotIdempotent(config: Json)
    requires config.JObj? && ExpressionPresent(Get(config, "expression"))
    requires Get(config, "digit") == JNull && Get(config, "format") == JNull
    requires Get(config, "displayScale").JInt? && Get(config, "displayScale").i > 10
    ensures ValidateCalc(config) == Ok(Set(config, "format", JStr("NUMBER_DIGIT")))
    ensures ValidateCalc(ValidateCalc(config).value) == Err(DisplayScaleInvalid)
    ensures ValidateCalcDefaultFirst(config) == Err(DisplayScaleInvalid)
  {
    var r := Set(config, "format", JStr("NUMBER_DIGIT"));
    NormaliseIdle(config);
    assert CalcChecks(config) == Ok(true);
    assert Get(r, "expression") == Get(config, "expression");
    assert Get(r, "digit") == JNull;
    assert Get(r, "displayScale") == Get(config, "displayScale");
    ScaleRefused(r);
    assert DefaultFormat(config) == r;
  }

  /** A numeric CALC field whose `displayScale` exceeds 10 fails the checks, and normalisation leaves it alone. */
  lemma ScaleRefused(r: Json)
    requires r.JObj? && ExpressionPresent(Get(r, "expression"))
    requires Get(r, "digit") == JNull && Get(r, "format") == JStr("NUMBER_DIGIT")
    requires Get(r, "displayScale").JInt? && Get(r, "displayScale").i > 10
    ensures CalcNormalise(r) == r && CalcChecks(r) == Err(DisplayScaleInvalid)
  {
    NormaliseIdle(r);
    SmallTablesFacts();
    assert NumberDisplayCheck(r) == Err(DisplayScaleInvalid);
  }

  lemma NormaliseIdle(u: Json)
    requires u.JObj? && Get(u, "expression") != JNull && Get(u, "digit") != JBool(true)
    ensures CalcNormalise(u) == u
  {
  }

  /** One such field: `{"type": "CALC", "expression": "a", "displayScale": 11}`. */
  lemma NotIdempotentWitness()
    ensures var config := Obj([("type", JStr(CalcType)), ("expression", JStr("a")), ("displayScale", JInt(11))]);
      ValidateCalc(config).Ok? && ValidateCalc(ValidateCalc(config).value) == Err(DisplayScaleInvalid)
  {
    var config := Obj([("type", JStr(CalcType)), ("expression", JStr("a")), ("displayScale", JInt(11))]);
    IndexOfFirst(config.members, "expression", 1);
    IndexOfFirst(config.members, "displayScale", 2);
    ValidateCalcNotIdempotent(config);
  }

  /**
   * The source's validator accepts a CALC field with no unit, code, lookup or
   * format whose `displayScale` exceeds 10, and refuses its own result.
   */
  lemma ValidateFieldNotIdempotent(config: Json)
    requires config.JObj? && Get(config, "type") == JStr(CalcType) && ExpressionPresent(Get(config, "expression"))
    requires Get(config, "unit") == JNull && Get(config, "code") == JNull && Get(config, "lookup") == JNull
    requires Get(config, "digit") == JNull && Get(config, "format") == JNull
    requires Get(config, "displayScale").JInt? && Get(config, "displayScale").i > 10
    ensures ValidateField(config) == Ok(Set(config, "format", JStr("NUMBER_DIGIT")))
    ensures ValidateField(ValidateField(config).value) == Err(DisplayScaleInvalid)
    ensures ValidateField(config, DefaultFirst) == Err(DisplayScaleInvalid)
  {
    var r := Set(config, "format", JStr("NUMBER_DIGIT"));
    ValidateCalcNotIdempotent(config);
    PlainCalcField(config, AsWritten);
    PlainCalcField(config, DefaultFirst);
    assert Get(r, "type") == Get(config, "type") && Get(r, "unit") == JNull;
    assert Get(r, "code") == JNull && Get(r, "lookup") == JNull;
    PlainCalcField(r, AsWritten);
  }

  /** A CALC field with no unit and no code goes straight to the CALC check. */
  lemma PlainCalcField(u: Json, order: CalcOrder)
    requires u.JObj? && Get(u, "type") == JStr(CalcType) && Get(u, "unit") == JNull && Get(u, "code") == JNull
    ensures ValidateField(u, order) ==
      match CalcValidation(u, order)
      case Err(e) => Err(e)
      case Ok(t) => Ok(LookupHint(t))
  {
    assert AutoCorrectUnitPosition(u) == Ok(u);
  }

  // The same checks with the default format chosen before the numeric checks run.

  /** `validate_calc_field` with the missing format defaulted first, so NUMBER_DIGIT's numeric checks apply to it. */
  function ValidateCalcDefaultFirst(config: Json): (r: Result<Json, FieldError>)
    requires config.JObj?
    ensures r.Ok? ==> r.value.JObj?
  {
    var c := DefaultFormat(CalcNormalise(config));
    match CalcChecks(c)
    case Err(e) => Err(e)
    case Ok(_) => Ok(c)
  }

  /** A missing format becomes NUMBER_DIGIT; a present one is kept. */
  function DefaultFormat(n: Json): (c: Json)
    requires n.JObj?
    ensures c.JObj?
  {
    if Get(n, "format") == JNull then Set(n, "format", JStr("NUMBER_DIGIT")) else n
  }

  /** The default-first order refuses more and otherwise agrees with the source's order. */
  lemma DefaultFirstRefinesCalc(config: Json)
    requires config.JObj? && ValidateCalcDefaultFirst(config).Ok?
    ensures ValidateCalc(config) == ValidateCalcDefaultFirst(config)
  {
    var n := CalcNormalise(config);
    if Get(n, "format") == JNull {
      var c := Set(n, "format", JStr("NUMBER_DIGIT"));
      assert Get(c, "expression") == Get(n, "expression");
    }
  }

  /** With the default chosen first, a CALC field's result is accepted again unchanged. */
  lemma ValidateCalcDefaultFirstIdempotent(config: Json)
    requires config.JObj? && ValidateCalcDefaultFirst(config).Ok?
    ensures ValidateCalcDefaultFirst(ValidateCalcDefaultFirst(config).value) == ValidateCalcDefaultFirst(config)
  {
    var r := ValidateCalcDefaultFirst(config).value;
    DefaultFirstRefinesCalc(config);
    ValidateCalcShape(config);
    CalcResultDigitFormat(config);
    assert CalcChecks(r).Ok?;
    DefaultFirstSettled(r);
  }

  lemma DefaultFirstSettled(r: Json)
    requires r.JObj? && CalcChecks(r).Ok? && ExpressionPresent(Get(r, "expression")) && StrIn(Get(r, "format"), CalcFieldFormats)
    requires Get(r, "digit") == JBool(true) ==> Get(r, "format") != JStr("NUMBER")
    ensures ValidateCalcDefaultFirst(r) == Ok(r)
  {
    assert Truthy(Get(r, "format"));
    NormaliseSettled(r);
  }
}
