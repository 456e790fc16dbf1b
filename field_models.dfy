/**
 * The validator bodies and `is_*` properties of the field models
 * (models/kintone_field.py).  Each validator returns its input or raises a
 * `ValueError`; here it returns `Ok` of its input or `Err` naming the check
 * that failed.  Pydantic has already coerced each attribute to its declared
 * type, so the attributes are typed Dafny values.
 */
module FieldModels {
  import opened Wrappers
  import opened Text
  import opened ModelChecks
  import Json
  import FieldValidator
  import Constants

  /** The `ValueError`s the field-model validators raise. */
  datatype FieldModelError =
    | LengthNegative
    | OptionsEmpty
    | OptionValuesDuplicated
    | RelatedAppMissing
    | FieldMappingsEmpty
    | DisplayFieldsEmpty
    | ReferenceSizeNotAllowed(size: int)
    | SubtableFieldsEmpty
    | SubtableCodesDuplicated
    | CodeMissing
    | CodeNotAscii(code: string)
    | LabelMissing
    | PropertiesEmpty
    | PropertyKeyMismatch(key: string, code: string)
    | DeleteFieldsEmpty
    | DeleteFieldsDuplicated

  /** The members of `FieldType`, in declaration order. */
  const FieldTypes: seq<string> := [
    "SINGLE_LINE_TEXT", "MULTI_LINE_TEXT", "RICH_TEXT",
    "NUMBER", "CALC",
    "RADIO_BUTTON", "DROP_DOWN", "MULTI_SELECT", "CHECK_BOX",
    "DATE", "TIME", "DATETIME",
    "FILE", "LINK",
    "USER_SELECT", "ORGANIZATION_SELECT", "GROUP_SELECT",
    "REFERENCE_TABLE",
    "SUBTABLE",
    "RECORD_NUMBER", "CREATOR", "CREATED_TIME", "MODIFIER", "UPDATED_TIME", "STATUS", "STATUS_ASSIGNEE", "CATEGORY",
    "LABEL", "SPACER", "HR"]

  /** The set `is_system_field` tests against. */
  const SystemTypes: set<string> :=
    {"RECORD_NUMBER", "CREATOR", "CREATED_TIME", "MODIFIER", "UPDATED_TIME", "STATUS", "STATUS_ASSIGNEE", "CATEGORY"}

  /** The set `is_layout_element` tests against. */
  const LayoutElementTypes: set<string> := {"LABEL", "SPACER", "HR"}

  datatype ChoiceOption = ChoiceOption(caption: string, value: string)
  datatype LookupRelatedApp = LookupRelatedApp(app: Option<string>, code: Option<string>)
  datatype LookupFieldMapping = LookupFieldMapping(field: string, relatedField: string)
  datatype LookupConfig = LookupConfig(relatedApp: LookupRelatedApp, relatedKeyField: string, fieldMappings: seq<LookupFieldMapping>)
  datatype SubtableField = SubtableField(fieldType: string, code: string, caption: string)

  /** The attributes of `KintoneField` the validators and properties read. */
  datatype KintoneField = KintoneField(fieldType: string, code: string, caption: string, lookupConfig: Option<LookupConfig>)

  /** Python's truth value of an optional string: `None` and `""` are false. */
  predicate Given(s: Option<string>)
  {
    s.Some? && s.value != []
  }

  /** `TextFieldConfig.validate_length`, for `maxLength` and `minLength`. */
  function ValidateLength(v: Option<int>): (r: Result<Option<int>, FieldModelError>)
    ensures r.Ok? <==> v.None? || v.value >= 0
    ensures r.Ok? ==> r.value == v
  {
    if v.Some? && v.value < 0 then Err(LengthNegative) else Ok(v)
  }

  /** The option values, as `[option.value for option in v]`. */
  function OptionValues(options: seq<ChoiceOption>): (r: seq<string>)
    ensures |r| == |options| && forall i :: 0 <= i < |options| ==> r[i] == options[i].value
  {
    seq(|options|, i requires 0 <= i < |options| => options[i].value)
  }

  /** `ChoiceFieldConfig.validate_options`: accepted exactly when there are options and no two share a value. */
  function ValidateChoiceOptions(options: seq<ChoiceOption>): (r: Result<seq<ChoiceOption>, FieldModelError>)
    ensures r.Ok? <==> options != [] && NoDuplicates(OptionValues(options))
    ensures r.Ok? ==> r.value == options
    ensures options == [] ==> r == Err(OptionsEmpty)
  {
    HasDuplicatesIff(OptionValues(options));
    if options == [] then Err(OptionsEmpty)
    else if HasDuplicates(OptionValues(options)) then Err(OptionValuesDuplicated)
    else Ok(options)
  }

  /** Two options with the same value are refused, wherever they sit. */
  lemma ChoiceOptionsRefuseRepeatedValue(options: seq<ChoiceOption>, a: nat, b: nat)
    requires a < b < |options| && options[a].value == options[b].value
    ensures ValidateChoiceOptions(options) == Err(OptionValuesDuplicated)
  {
    assert OptionValues(options)[a] == OptionValues(options)[b];
    HasDuplicatesIff(OptionValues(options));
  }

  /** `LookupRelatedApp.validate_app_reference`: an app id or an app code is given. */
  function ValidateRelatedApp(app: LookupRelatedApp): (r: Result<LookupRelatedApp, FieldModelError>)
    ensures r.Ok? <==> Given(app.app) || Given(app.code)
    ensures r.Ok? ==> r.value == app
  {
    if !Given(app.app) && !Given(app.code) then Err(RelatedAppMissing) else Ok(app)
  }

  /** `LookupConfig.validate_field_mappings`: at least one mapping. */
  function ValidateFieldMappings(mappings: seq<LookupFieldMapping>): (r: Result<seq<LookupFieldMapping>, FieldModelError>)
    ensures r.Ok? <==> mappings != []
    ensures r.Ok? ==> r.value == mappings
  {
    if mappings == [] then Err(FieldMappingsEmpty) else Ok(mappings)
  }

  /** `ReferenceTableConfig.validate_display_fields`: at least one field to show. */
  function ValidateDisplayFields(fields: seq<string>): (r: Result<seq<string>, FieldModelError>)
    ensures r.Ok? <==> fields != []
    ensures r.Ok? ==> r.value == fields
  {
    if fields == [] then Err(DisplayFieldsEmpty) else Ok(fields)
  }

  const AllowedReferenceSizes: seq<int> := [1, 3, 5, 10, 20, 30, 40, 50]

  /** `ReferenceTableConfig.validate_size`: absent, or one of the allowed page sizes. */
  function ValidateReferenceSize(size: Option<int>): (r: Result<Option<int>, FieldModelError>)
    ensures r.Ok? <==> size.None? || size.value in AllowedReferenceSizes
    ensures r.Ok? ==> r.value == size
  {
    if size.Some? && size.value !in AllowedReferenceSizes then Err(ReferenceSizeNotAllowed(size.value)) else Ok(size)
  }

  /**
   * The model and `FieldValidator.validate_reference_table_field` allow the
   * same integer sizes.
   */
  lemma ReferenceSizesAgree(n: int)
    ensures ValidateReferenceSize(Some(n)).Ok? <==> FieldValidator.ReferenceSizeAllowed(Json.JInt(n))
  {
    assert AllowedReferenceSizes == FieldValidator.ReferenceSizeNumbers;
    if n in AllowedReferenceSizes {
      assert Json.NumEquals(Json.JInt(n), n);
    }
  }

  function SubtableCodes(fields: seq<SubtableField>): (r: seq<string>)
    ensures |r| == |fields| && forall i :: 0 <= i < |fields| ==> r[i] == fields[i].code
  {
    seq(|fields|, i requires 0 <= i < |fields| => fields[i].code)
  }

  /** `SubtableConfig.validate_fields`: at least one field, and no two with the same code. */
  function ValidateSubtableFields(fields: seq<SubtableField>): (r: Result<seq<SubtableField>, FieldModelError>)
    ensures r.Ok? <==> fields != [] && NoDuplicates(SubtableCodes(fields))
    ensures r.Ok? ==> r.value == fields
    ensures fields == [] ==> r == Err(SubtableFieldsEmpty)
  {
    HasDuplicatesIff(SubtableCodes(fields));
    if fields == [] then Err(SubtableFieldsEmpty)
    else if HasDuplicates(SubtableCodes(fields)) then Err(SubtableCodesDuplicated)
    else Ok(fields)
  }

  /** `[a-zA-Z0-9_]`. */
  predicate IsAsciiCodeChar(c: char)
  {
    IsAsciiLetter(c) || IsAsciiDigit(c) || c == '_'
  }

  /** `re.match(r'^[a-zA-Z][a-zA-Z0-9_]*$', v)`; `$` also matches before one final newline. */
  predicate MatchesAsciiCode(v: string)
  {
    var b := AnchoredBody(v);
    b != [] && IsAsciiLetter(b[0]) && forall i :: 1 <= i < |b| ==> IsAsciiCodeChar(b[i])
  }

  /**
   * `KintoneField.validate_code` (and `FieldProperty.validate_code`): a
   * non-empty code that starts with an ASCII letter and goes on with ASCII
   * letters, digits and underscores.
   */
  function ValidateCode(v: string): (r: Result<string, FieldModelError>)
    ensures r.Ok? <==> v != [] && MatchesAsciiCode(v)
    ensures r.Ok? ==> r.value == v
    ensures v == [] ==> r == Err(CodeMissing)
  {
    if v == [] then Err(CodeMissing)
    else if !MatchesAsciiCode(v) then Err(CodeNotAscii(v))
    else Ok(v)
  }

  /** `KintoneField.validate_label` (and `FieldProperty.validate_label`): a non-empty label. */
  function ValidateLabel(v: string): (r: Result<string, FieldModelError>)
    ensures r.Ok? <==> v != []
    ensures r.Ok? ==> r.value == v
  {
    if v == [] then Err(LabelMissing) else Ok(v)
  }

  /**
   * Every code the model accepts also passes `validate_field_code` of the
   * field validator: its characters lie in the wider class there, and no
   * reserved code starts with an ASCII letter.
   */
  lemma ModelCodePassesFieldValidator(v: string)
    requires ValidateCode(v).Ok?
    ensures FieldValidator.ValidateFieldCode(Json.JStr(v)).Ok?
  {
    var b := AnchoredBody(v);
    assert forall i :: 0 <= i < |b| ==> IsFieldCodeChar(b[i]) by {
      forall i | 0 <= i < |b| ensures IsFieldCodeChar(b[i]) {
        if i > 0 { assert IsAsciiCodeChar(b[i]); }
      }
    }
    assert v !in Constants.SystemFieldCodes by {
      assert IsAsciiLetter(v[0]);
      forall c | c in Constants.SystemFieldCodes ensures v != c {
        assert !IsAsciiLetter(c[0]);
      }
    }
  }

  /** The field validator accepts codes the model refuses, such as kana codes. */
  lemma FieldValidatorWiderThanModel()
    ensures FieldValidator.ValidateFieldCode(Json.JStr("売上")).Ok?
    ensures ValidateCode("売上").Err?
  {
    assert !IsAsciiLetter("売上"[0]);
    assert FieldValidator.ValidateFieldCode(Json.JStr("売上")).Ok? by {
      var s := "売上";
      assert AnchoredBody(s) == s;
      assert forall i :: 0 <= i < |s| ==> IsFieldCodeChar(s[i]);
      assert s !in Constants.SystemFieldCodes;
    }
  }

  /** `KintoneField.is_lookup_field`. */
  predicate IsLookupField(f: KintoneField)
  {
    f.lookupConfig.Some?
  }

  /** `KintoneField.is_system_field`. */
  predicate IsSystemField(f: KintoneField)
  {
    f.fieldType in SystemTypes
  }

  /** `KintoneField.is_layout_element`. */
  predicate IsLayoutElement(f: KintoneField)
  {
    f.fieldType in LayoutElementTypes
  }

  /** Eight distinct field types are system fields. */
  lemma SystemTypeCount()
    ensures |SystemTypes| == 8 && forall t :: t in SystemTypes ==> t in FieldTypes
  {
  }

  /** Three distinct field types are layout elements, and none of them is a system field. */
  lemma LayoutElementTypeCount()
    ensures |LayoutElementTypes| == 3 && forall t :: t in LayoutElementTypes ==> t in FieldTypes
    ensures SystemTypes * LayoutElementTypes == {}
  {
  }

  /**
   * The model's system types and the validators' `SYSTEM_FIELD_TYPES` are
   * different tables: the model counts STATUS as a system type, the
   * validators count `__ID__`, which is not a `FieldType` at all.
   */
  lemma SystemTypeTablesDiffer()
    ensures "STATUS" in SystemTypes && "STATUS" !in Constants.SystemFieldTypes
    ensures "__ID__" in Constants.SystemFieldTypes && "__ID__" !in FieldTypes
  {
  }

  /** The first entry, from `i` on, whose key is not its field's code. */
  function FirstKeyMismatch(properties: seq<(string, KintoneField)>, i: nat): (r: Option<nat>)
    requires i <= |properties|
    ensures r.Some? ==> i <= r.value < |properties| && properties[r.value].0 != properties[r.value].1.code
    ensures r.Some? ==> forall j :: i <= j < r.value ==> properties[j].0 == properties[j].1.code
    ensures r.None? <==> forall j :: i <= j < |properties| ==> properties[j].0 == properties[j].1.code
    decreases |properties| - i
  {
    if i == |properties| then None
    else if properties[i].0 != properties[i].1.code then Some(i)
    else FirstKeyMismatch(properties, i + 1)
  }

  /**
   * `FieldCreationRequest.validate_properties`: at least one property, and
   * every key equal to its field's code; the first mismatch in dict order is
   * the one reported.
   */
  function ValidateCreationProperties(properties: seq<(string, KintoneField)>): (r: Result<seq<(string, KintoneField)>, FieldModelError>)
    ensures r.Ok? <==> properties != [] && forall j :: 0 <= j < |properties| ==> properties[j].0 == properties[j].1.code
    ensures r.Ok? ==> r.value == properties
    ensures r.Err? && properties != [] ==>
      exists j :: 0 <= j < |properties| && r.error == PropertyKeyMismatch(properties[j].0, properties[j].1.code) &&
        forall l :: 0 <= l < j ==> properties[l].0 == properties[l].1.code
  {
    if properties == [] then Err(PropertiesEmpty)
    else
      match FirstKeyMismatch(properties, 0)
      case Some(j) => Err(PropertyKeyMismatch(properties[j].0, properties[j].1.code))
      case None => Ok(properties)
  }

  /** `FieldDeleteRequest.validate_fields`: at least one code, and no code twice. */
  function ValidateDeleteFields(fields: seq<string>): (r: Result<seq<string>, FieldModelError>)
    ensures r.Ok? <==> fields != [] && NoDuplicates(fields)
    ensures r.Ok? ==> r.value == fields
    ensures fields == [] ==> r == Err(DeleteFieldsEmpty)
  {
    HasDuplicatesIff(fields);
    if fields == [] then Err(DeleteFieldsEmpty)
    else if HasDuplicates(fields) then Err(DeleteFieldsDuplicated)
    else Ok(fields)
  }
}
