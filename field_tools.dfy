/**
 * The field tools (server/tools/implementations/field_tools.py): the
 * tool-level copy of the unit-position repair, field-code generation, and
 * the parts of `handle_field_tools` that build or prepare field definitions
 * before the single repository call each tool makes.  The repository calls
 * themselves, and the log lines, are not part of this model.
 */
module FieldTools {
  import opened Wrappers
  import opened Json
  import opened Text
  import opened Constants
  import UnitPosition
  import FieldValidator

  /**
   * What the tools raise: their own `ValueError`s, a `ValueError` of
   * `FieldValidator.validate_field` (`Invalid`), and `TypeFault` for an
   * uncaught `TypeError`, `AttributeError` or `ValueError` of the interpreter
   * on an ill-shaped argument.
   */
  datatype ToolError =
    | ParamMissing(name: string)
    | FieldsNotList
    | LayoutElementNotSupported(elementType: string)
    | CodeOrLabelMissing
    | TypeMissing
    | OptionItemLabelMissing(index: nat)
    | OptionItemInvalid(index: nat)
    | OptionsShapeInvalid
    | ChoicesNotList
    | ChoiceTypeInvalid
    | RelatedAppMissing
    | FieldMappingsInvalid
    | MappingFieldMissing(index: nat)
    | MappingRelatedFieldMissing(index: nat)
    | MappingContainsKey
    | FieldNotObject
    | SystemFieldTypeNotUpdatable(fieldType: string)
    | Invalid(error: FieldValidator.FieldError)
    | TypeFault

  // auto_correct_unit_position

  /** `determine_unit_position(field["unit"])` for a truthy unit of any shape. */
  function ToolsResolveUnit(unit: Json): (r: Result<string, ToolError>)
    ensures unit.JStr? ==> r == Ok(UnitPosition.ToolsUnitPosition(unit.s))
    ensures r.Ok? ==> r.value == "BEFORE" || r.value == "AFTER"
  {
    match unit
    case JStr(s) => Ok(UnitPosition.ToolsUnitPosition(s))
    case JArr(a) => if |a| >= 4 then Ok("AFTER") else Err(TypeFault)
    case JObj(m) => if |m| >= 4 then Ok("AFTER") else Err(TypeFault)
    case _ => Err(TypeFault)
  }

  /** The fields whose missing position the tool fills: NUMBER, and CALC only with format NUMBER. */
  predicate PositionFilled(field: Json)
    requires field.JObj?
  {
    (IsStr(field, "type", NumberType) || (IsStr(field, "type", CalcType) && IsStr(field, "format", "NUMBER")))
    && Truthy(Get(field, "unit")) && !Truthy(Get(field, "unitPosition"))
  }

  /** The position assignment on the copy, before any sub-fields are visited. */
  function FillPosition(field: Json): (r: Result<Json, ToolError>)
    requires field.JObj?
    ensures r.Ok? ==> r.value.JObj?
  {
    if PositionFilled(field) then
      match ToolsResolveUnit(Get(field, "unit"))
      case Err(e) => Err(e)
      case Ok(position) => Ok(Set(field, "unitPosition", JStr(position)))
    else Ok(field)
  }

  /**
   * What `auto_correct_unit_position(field)` returns: the deep copy with the
   * missing position filled, and for a SUBTABLE each sub-field of `fields`
   * corrected in turn.
   */
  function Corrected(field: Json): (r: Result<Json, ToolError>)
    requires field.JObj?
    ensures r.Ok? ==> r.value.JObj?
    decreases field, 0
  {
    match FillPosition(field)
    case Err(e) => Err(e)
    case Ok(c) =>
      var subs := Get(field, "fields");
      if IsStr(field, "type", SubtableType) && Truthy(subs) then
        if !subs.JObj? then Err(TypeFault)
        else
          match CorrectedFrom(subs, 0)
          case Err(e) => Err(e)
          case Ok(m) => Ok(Set(c, "fields", JObj(m)))
      else Ok(c)
  }

  /** The sub-fields of `subs` from the `k`-th on, corrected in dict order; the first failure is raised. */
  function CorrectedFrom(subs: Json, k: nat): (r: Result<Members, ToolError>)
    requires subs.JObj? && k <= |subs.members|
    ensures r.Ok? ==> |r.value| == |subs.members| - k
    decreases subs, |subs.members| - k
  {
    if k == |subs.members| then Ok([])
    else
      var entry := subs.members[k];
      assert entry in subs.members;
      if !entry.1.JObj? then Err(TypeFault)
      else
        match Corrected(entry.1)
        case Err(e) => Err(e)
        case Ok(v) => Prepend([(entry.0, v)], CorrectedFrom(subs, k + 1))
  }

  /** `Ok(done + rest)` after a step that left `rest` to do, or the error. */
  function Prepend(done: Members, rest: Result<Members, ToolError>): (r: Result<Members, ToolError>)
    ensures r.Ok? <==> rest.Ok?
    ensures r.Ok? ==> r.value == done + rest.value
  {
    match rest
    case Err(e) => Err(e)
    case Ok(m) => Ok(done + m)
  }

  /**
   * `auto_correct_unit_position`: a deep copy (here the value itself) is
   * given its position, then each sub-field of a SUBTABLE is replaced by its
   * corrected copy.
   */
  method AutoCorrectUnitPosition(field: Json) returns (r: Result<Json, ToolError>)
    requires field.JObj?
    ensures r == Corrected(field)
    decreases field, 1
  {
    var corrected := field;
    if PositionFilled(field) {
      var position := ToolsResolveUnit(Get(field, "unit"));
      if position.Err? {
        return Err(position.error);
      }
      corrected := Set(corrected, "unitPosition", JStr(position.value));
    }
    assert FillPosition(field) == Ok(corrected);
    var subs := Get(field, "fields");
    if IsStr(field, "type", SubtableType) && Truthy(subs) {
      if !subs.JObj? {
        return Err(TypeFault);
      }
      var entries := CorrectSubFields(subs);
      if entries.Err? {
        return Err(entries.error);
      }
      corrected := Set(corrected, "fields", JObj(entries.value));
    }
    return Ok(corrected);
  }

  /** The loop over `field["fields"].items()`, assigning each corrected sub-field into the copy. */
  method CorrectSubFields(subs: Json) returns (r: Result<Members, ToolError>)
    requires subs.JObj?
    ensures r == CorrectedFrom(subs, 0)
    decreases subs, 0
  {
    var done: Members := [];
    var i := 0;
    PrependEmpty(CorrectedFrom(subs, 0));
    while i < |subs.members|
      invariant 0 <= i <= |subs.members|
      invariant CorrectedFrom(subs, 0) == Prepend(done, CorrectedFrom(subs, i))
    {
      var (key, value) := subs.members[i];
      CorrectedFromBelow(subs, i);
      if !value.JObj? {
        CorrectedFromStep(subs, i, done);
        return Err(TypeFault);
      }
      var sub := AutoCorrectUnitPosition(value);
      CorrectedFromStep(subs, i, done);
      if sub.Err? {
        return Err(sub.error);
      }
      done := done + [(key, sub.value)];
      i := i + 1;
    }
    assert done + [] == done;
    return Ok(done);
  }

  lemma CorrectedFromBelow(subs: Json, i: nat)
    requires subs.JObj? && i < |subs.members|
    ensures subs.members[i].1 < subs
  {
    assert subs.members[i] in subs.members;
  }

  /** One step of the loop: the `i`-th sub-field either raises or is appended to what is done. */
  lemma CorrectedFromStep(subs: Json, i: nat, done: Members)
    requires subs.JObj? && i < |subs.members|
    requires CorrectedFrom(subs, 0) == Prepend(done, CorrectedFrom(subs, i))
    ensures subs.members[i].1 < subs
    ensures var value := subs.members[i].1;
      if !value.JObj? then CorrectedFrom(subs, 0) == Err(TypeFault)
      else if Corrected(value).Err? then CorrectedFrom(subs, 0) == Err(Corrected(value).error)
      else CorrectedFrom(subs, 0) == Prepend(done + [(subs.members[i].0, Corrected(value).value)], CorrectedFrom(subs, i + 1))
  {
    assert subs.members[i] in subs.members;
    var value := subs.members[i].1;
    if value.JObj? && Corrected(value).Ok? {
      PrependTwice(done, [(subs.members[i].0, Corrected(value).value)], CorrectedFrom(subs, i + 1));
    }
  }

  /** `CorrectedFrom` unfolded once at `i`. */
  lemma CorrectedFromUnfold(subs: Json, i: nat)
    requires subs.JObj? && i < |subs.members|
    ensures subs.members[i].1 < subs
    ensures CorrectedFrom(subs, i) ==
      if !subs.members[i].1.JObj? then Err(TypeFault)
      else match Corrected(subs.members[i].1)
        case Err(e) => Err(e)
        case Ok(v) => Prepend([(subs.members[i].0, v)], CorrectedFrom(subs, i + 1))
  {
    assert subs.members[i] in subs.members;
  }

  lemma PrependEmpty(rest: Result<Members, ToolError>)
    ensures Prepend([], rest) == rest
  {
    if rest.Ok? {
      assert [] + rest.value == rest.value;
    }
  }

  lemma PrependTwice(a: Members, b: Members, rest: Result<Members, ToolError>)
    ensures Prepend(a, Prepend(b, rest)) == Prepend(a + b, rest)
  {
    if rest.Ok? {
      assert a + (b + rest.value) == (a + b) + rest.value;
    }
  }
  // What the correction promises.

  /** A sub-field entry and its corrected counterpart: same key, the value corrected. */
  predicate EntryCorrected(sub: (string, Json), out: (string, Json))
  {
    sub.0 == out.0 && sub.1.JObj? && Corrected(sub.1) == Ok(out.1)
  }

  predicate AllCorrected(subs: Members, out: Members)
  {
    |subs| == |out| && forall i :: 0 <= i < |subs| ==> EntryCorrected(subs[i], out[i])
  }

  lemma AllCorrectedCons(a: (string, Json), b: (string, Json), subs: Members, out: Members)
    requires EntryCorrected(a, b) && AllCorrected(subs, out)
    ensures AllCorrected([a] + subs, [b] + out)
  {
    var s, o := [a] + subs, [b] + out;
    forall i | 0 <= i < |s| ensures EntryCorrected(s[i], o[i]) {
      if i > 0 {
        assert s[i] == subs[i - 1] && o[i] == out[i - 1];
      }
    }
  }

  /** The corrected sub-fields: the same keys in the same order, each value the corrected sub-field. */
  lemma {:induction false} CorrectedFromEntries(subs: Json, k: nat)
    requires subs.JObj? && k <= |subs.members| && CorrectedFrom(subs, k).Ok?
    ensures AllCorrected(subs.members[k..], CorrectedFrom(subs, k).value)
    decreases |subs.members| - k
  {
    if k < |subs.members| {
      CorrectedFromHead(subs, k);
      var entry := subs.members[k];
      var rest := CorrectedFrom(subs, k + 1).value;
      CorrectedFromEntries(subs, k + 1);
      assert subs.members[k..] == [entry] + subs.members[k + 1..];
      AllCorrectedCons(entry, (entry.0, Corrected(entry.1).value), subs.members[k + 1..], rest);
    }
  }

  /** A successful correction from `k` on starts with the corrected `k`-th entry. */
  lemma CorrectedFromHead(subs: Json, k: nat)
    requires subs.JObj? && k < |subs.members| && CorrectedFrom(subs, k).Ok?
    ensures subs.members[k].1.JObj? && Corrected(subs.members[k].1).Ok? && CorrectedFrom(subs, k + 1).Ok?
    ensures CorrectedFrom(subs, k).value
      == [(subs.members[k].0, Corrected(subs.members[k].1).value)] + CorrectedFrom(subs, k + 1).value
  {
    CorrectedFromUnfold(subs, k);
  }

  /** The `k`-th entry corrected, followed by the rest corrected, is the correction from `k` on. */
  lemma CorrectedFromCons(subs: Json, k: nat, entry: (string, Json), rest: Members)
    requires subs.JObj? && k < |subs.members| && EntryCorrected(subs.members[k], entry)
    requires CorrectedFrom(subs, k + 1) == Ok(rest)
    ensures CorrectedFrom(subs, k) == Ok([entry] + rest)
  {
    CorrectedFromUnfold(subs, k);
  }

  /** An explicit `unitPosition` is never overwritten. */
  lemma CorrectedKeepsExplicitPosition(field: Json)
    requires field.JObj? && Corrected(field).Ok? && Truthy(Get(field, "unitPosition"))
    ensures Get(Corrected(field).value, "unitPosition") == Get(field, "unitPosition")
  {
  }

  /** A NUMBER field with a textual unit and no position gets the tool resolver's answer, and nothing else changes. */
  lemma CorrectedFillsNumber(field: Json)
    requires field.JObj? && IsStr(field, "type", NumberType)
    requires Get(field, "unit").JStr? && Get(field, "unit").s != [] && !Truthy(Get(field, "unitPosition"))
    ensures Corrected(field) == Ok(Set(field, "unitPosition", JStr(UnitPosition.ToolsUnitPosition(Get(field, "unit").s))))
  {
    CorrectedNotSubtable(field);
    assert PositionFilled(field);
  }

  /** A CALC field is left alone unless its format is NUMBER. */
  lemma CorrectedCalcNeedsNumberFormat(field: Json)
    requires field.JObj? && IsStr(field, "type", CalcType) && !IsStr(field, "format", "NUMBER")
    ensures Corrected(field) == Ok(field)
  {
  }

  /** A SUBTABLE's `fields` come back with the same keys in order, each sub-field corrected. */
  lemma CorrectedSubtable(field: Json)
    requires field.JObj? && IsStr(field, "type", SubtableType) && Get(field, "fields").JObj?
    requires Get(field, "fields").members != [] && Corrected(field).Ok?
    ensures var out := Get(Corrected(field).value, "fields");
      out.JObj? && AllCorrected(Get(field, "fields").members, out.members)
    ensures FieldValidator.SameOutside(Corrected(field).value, field, ["fields"])
  {
    assert !PositionFilled(field);
    assert FillPosition(field) == Ok(field);
    var subs := Get(field, "fields");
    var m := CorrectedFrom(subs, 0).value;
    assert Corrected(field) == Ok(Set(field, "fields", JObj(m)));
    CorrectedFromEntries(subs, 0);
    assert subs.members[0..] == subs.members;
  }

  lemma AllCorrectedTail(subs: Members, out: Members)
    requires |subs| > 0 && AllCorrected(subs, out)
    ensures EntryCorrected(subs[0], out[0]) && AllCorrected(subs[1..], out[1..])
  {
    forall i | 0 <= i < |subs| - 1 ensures EntryCorrected(subs[1..][i], out[1..][i]) {
      assert subs[1..][i] == subs[i + 1] && out[1..][i] == out[i + 1];
    }
  }

  lemma SliceTail<T>(s: seq<T>, k: nat)
    requires k < |s|
    ensures s[k..][0] == s[k] && s[k..][1..] == s[k + 1..]
  {}

  lemma ConsSplit<T>(s: seq<T>)
    requires s != []
    ensures [s[0]] + s[1..] == s
  {}

  /** The converse of `CorrectedFromEntries`: entry-wise corrected sub-fields are what the loop produces. */
  lemma {:induction false} CorrectedFromOf(subs: Json, k: nat, out: Members)
    requires subs.JObj? && k <= |subs.members| && AllCorrected(subs.members[k..], out)
    ensures CorrectedFrom(subs, k) == Ok(out)
    decreases |subs.members| - k
  {
    if k < |subs.members| {
      AllCorrectedTail(subs.members[k..], out);
      SliceTail(subs.members, k);
      CorrectedFromOf(subs, k + 1, out[1..]);
      CorrectedFromCons(subs, k, out[0], out[1..]);
      ConsSplit(out);
    } else {
      assert out == [];
    }
  }

  /** Correcting a corrected field changes nothing more. */
  lemma {:induction false} CorrectedIdempotent(field: Json)
    requires field.JObj? && Corrected(field).Ok?
    ensures Corrected(Corrected(field).value) == Corrected(field)
    decreases field, 1
  {
    if IsStr(field, "type", SubtableType) && Truthy(Get(field, "fields")) {
      var subs := Get(field, "fields");
      CorrectedSubtableValue(field);
      var m := CorrectedFrom(subs, 0).value;
      var r := Set(field, "fields", JObj(m));
      SubFieldsSettle(subs);
      SubtableSettles(field, m);
      CorrectedSubtableValue(r);
      SetSame(r, "fields");
    } else {
      CorrectedNotSubtable(field);
      FilledSettles(field);
      CorrectedNotSubtable(FillPosition(field).value);
    }
  }

  /** Outside a SUBTABLE with sub-fields, correcting is filling the position. */
  lemma CorrectedNotSubtable(field: Json)
    requires field.JObj? && !(IsStr(field, "type", SubtableType) && Truthy(Get(field, "fields")))
    ensures Corrected(field) == FillPosition(field)
  {
  }

  /** A SUBTABLE with sub-fields keeps its own keys and has its `fields` replaced. */
  lemma CorrectedSubtableValue(field: Json)
    requires field.JObj? && IsStr(field, "type", SubtableType) && Get(field, "fields").JObj?
    requires Truthy(Get(field, "fields")) && CorrectedFrom(Get(field, "fields"), 0).Ok?
    ensures Corrected(field) == Ok(Set(field, "fields", JObj(CorrectedFrom(Get(field, "fields"), 0).value)))
  {
    assert !PositionFilled(field);
    assert FillPosition(field) == Ok(field);
  }

  /** The SUBTABLE rebuilt with corrected sub-fields is still a SUBTABLE with sub-fields. */
  lemma SubtableSettles(field: Json, m: Members)
    requires field.JObj? && IsStr(field, "type", SubtableType) && Get(field, "fields").JObj?
    requires |m| == |Get(field, "fields").members| && Truthy(Get(field, "fields"))
    ensures var r := Set(field, "fields", JObj(m));
      IsStr(r, "type", SubtableType) && Get(r, "fields") == JObj(m) && Truthy(JObj(m))
  {
  }

  /** After the position is filled, there is nothing left to fill. */
  lemma FilledSettles(field: Json)
    requires field.JObj? && FillPosition(field).Ok?
    ensures var c := FillPosition(field).value;
      !PositionFilled(c) && FillPosition(c) == Ok(c)
      && Get(c, "type") == Get(field, "type") && Get(c, "fields") == Get(field, "fields")
  {
    if PositionFilled(field) {
      var position := ToolsResolveUnit(Get(field, "unit")).value;
      var c := Set(field, "unitPosition", JStr(position));
      assert FillPosition(field) == Ok(c);
      FillKeeps(field, JStr(position), "type", "format", "unit", "fields");
      assert Truthy(Get(c, "unitPosition"));
      assert !PositionFilled(c);
    }
  }

  /** Filling the position leaves the other keys as they were. */
  lemma FillKeeps(field: Json, v: Json, k1: string, k2: string, k3: string, k4: string)
    requires field.JObj? && k1 != "unitPosition" && k2 != "unitPosition" && k3 != "unitPosition" && k4 != "unitPosition"
    ensures var c := Set(field, "unitPosition", v);
      Get(c, k1) == Get(field, k1) && Get(c, k2) == Get(field, k2) && Get(c, k3) == Get(field, k3) && Get(c, k4) == Get(field, k4)
  {
  }

  /** Correcting the corrected sub-fields again gives them back unchanged. */
  lemma {:induction false} SubFieldsSettle(subs: Json)
    requires subs.JObj? && CorrectedFrom(subs, 0).Ok?
    ensures var m := CorrectedFrom(subs, 0).value; CorrectedFrom(JObj(m), 0) == Ok(m)
    decreases subs, 0
  {
    var m := CorrectedFrom(subs, 0).value;
    CorrectedFromEntries(subs, 0);
    assert subs.members[0..] == subs.members;
    forall i | 0 <= i < |m| ensures EntryCorrected(m[i], m[i]) {
      assert EntryCorrected(subs.members[i], m[i]);
      assert subs.members[i] in subs.members;
      CorrectedIdempotent(subs.members[i].1);
    }
    assert JObj(m).members[0..] == m;
    CorrectedFromOf(JObj(m), 0, m);
  }

  /**
   * For a NUMBER field whose unit is a string or falsy, the tool-level repair
   * and `FieldValidator._auto_correct_unit_position` give the same result.
   */
  lemma NumberRepairAgrees(field: Json)
    requires field.JObj? && IsStr(field, "type", NumberType)
    requires Get(field, "unit").JStr? || !Truthy(Get(field, "unit"))
    ensures FieldValidator.AutoCorrectUnitPosition(field).Ok? && Corrected(field).Ok?
    ensures Corrected(field) == Ok(FieldValidator.AutoCorrectUnitPosition(field).value)
  {
    CorrectedNotSubtable(field);
    var unit := Get(field, "unit");
    if Truthy(unit) && !Truthy(Get(field, "unitPosition")) {
      UnitPosition.ResolversAgree(unit.s);
      ValidatorFills(field);
      CorrectedFillsNumber(field);
    } else {
      ValidatorKeeps(field);
      assert !PositionFilled(field);
    }
  }

  /** The validator fills the missing position of a NUMBER or CALC field with a textual unit. */
  lemma ValidatorFills(field: Json)
    requires field.JObj? && (IsStr(field, "type", NumberType) || IsStr(field, "type", CalcType))
    requires Get(field, "unit").JStr? && Get(field, "unit").s != [] && !Truthy(Get(field, "unitPosition"))
    ensures FieldValidator.AutoCorrectUnitPosition(field)
      == Ok(Set(field, "unitPosition", JStr(UnitPosition.ValidatorUnitPosition(Get(field, "unit").s))))
  {
    var unit := Get(field, "unit");
    assert FieldValidator.IsNumberOrCalc(field) && Truthy(unit);
    assert FieldValidator.ResolveUnit(unit) == Ok(UnitPosition.ValidatorUnitPosition(unit.s));
  }

  /** The validator leaves alone a field without a unit or with a position. */
  lemma ValidatorKeeps(field: Json)
    requires field.JObj? && (Get(field, "unit").JStr? || !Truthy(Get(field, "unit")))
    requires !Truthy(Get(field, "unit")) || Truthy(Get(field, "unitPosition"))
    ensures FieldValidator.AutoCorrectUnitPosition(field) == Ok(field)
  {
  }

  /**
   * The two repairs differ on CALC fields: the validator fills the position
   * whatever the format, the tool only for format NUMBER.
   */
  lemma CalcRepairDiffers(field: Json)
    requires field.JObj? && IsStr(field, "type", CalcType) && !IsStr(field, "format", "NUMBER")
    requires Get(field, "unit").JStr? && Get(field, "unit").s != [] && !Truthy(Get(field, "unitPosition"))
    ensures Corrected(field) == Ok(field)
    ensures FieldValidator.AutoCorrectUnitPosition(field)
      == Ok(Set(field, "unitPosition", JStr(UnitPosition.ValidatorUnitPosition(Get(field, "unit").s))))
    ensures Get(FieldValidator.AutoCorrectUnitPosition(field).value, "unitPosition") != Get(field, "unitPosition")
  {
    CorrectedCalcNeedsNumberFormat(field);
    ValidatorFills(field);
  }
}
