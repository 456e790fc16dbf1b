/**
 * The pure branches of `handle_field_tools`
 * (server/tools/implementations/field_tools.py): how `add_fields` prepares
 * each field before its repository call, the definitions that
 * `create_choice_field`, `create_reference_table_field` and
 * `create_lookup_field` return, and the checks `update_field` makes before
 * its repository call.
 */
module FieldHandlers {
  import opened Wrappers
  import opened Json
  import opened Text
  import opened FieldTools
  import FieldValidator
  import FieldCode
  import Constants

  // Options maps built from lists.

  /** `{"label": caption, "index": str(index)}`, the entry every option conversion builds. */
  function OptionEntry(caption: Json, index: nat): (r: Json)
    ensures r.JObj? && Get(r, "label") == caption && Get(r, "index") == JStr(NatToString(index))
  {
    var m := [("label", caption), ("index", JStr(NatToString(index)))];
    IndexOfFirst(m, "label", 0);
    IndexOfFirst(m, "index", 1);
    JObj(m)
  }

  /**
   * `d[key] = {"label": caption, "index": str(index)}`.  The model's dicts have
   * string keys; any other key is treated as the `TypeError` an unhashable
   * key raises.
   */
  function KeyedEntry(key: Json, caption: Json, index: nat): (r: Result<(string, Json), ToolError>)
    ensures r.Ok? <==> key.JStr?
    ensures r.Ok? ==> r.value == (key.s, OptionEntry(caption, index))
  {
    if key.JStr? then Ok((key.s, OptionEntry(caption, index))) else Err(TypeFault)
  }

  /** One item of a list-form `options` in `add_fields`: its key and entry, or the error raised. */
  function ListOption(option: Json, index: nat): (r: Result<(string, Json), ToolError>)
  {
    match option
    case JObj(_) =>
      if Has(option, "value") && Has(option, "label") then KeyedEntry(Get(option, "value"), Get(option, "label"), index)
      else if Has(option, "label") then KeyedEntry(Get(option, "label"), Get(option, "label"), index)
      else Err(OptionItemLabelMissing(index))
    case JStr(s) => Ok((s, OptionEntry(option, index)))
    case _ => Err(OptionItemInvalid(index))
  }

  /** One choice of `create_choice_field`: keyed and labelled by itself. */
  function ChoiceOption(choice: Json, index: nat): (r: Result<(string, Json), ToolError>)
  {
    KeyedEntry(choice, choice, index)
  }

  /**
   * How one list item at a given position becomes a dict entry, in the loops
   * that fill a fresh dict from a list: the list-form `options` of
   * `add_fields`, the `choices` of `create_choice_field`, and the fields of
   * `add_fields` themselves, keyed by their codes.
   */
  type Converter = (Json, nat) -> Result<(string, Json), ToolError>

  const ListOptions: Converter := ListOption
  const Choices: Converter := ChoiceOption

  /** The field conversion of `add_fields`; `now` stands for the clock read by the code generator. */
  function Fields(now: nat): (r: Converter)
    ensures forall item: Json, index: nat :: item.JObj? ==> r(item, index) == ProcessedField(item, now)
  {
    (item: Json, index: nat) => if item.JObj? then ProcessedField(item, now) else Err(TypeFault)
  }

  function Convert(convert: Converter, item: Json, index: nat): (r: Result<(string, Json), ToolError>)
  {
    convert(item, index)
  }

  /** Item `item` at position `index` converts. */
  predicate Converts(convert: Converter, item: Json, index: nat)
  {
    Convert(convert, item, index).Ok?
  }

  /** The items from `i` on, each converted, in list order; the first failure is raised. */
  function EntriesFrom(convert: Converter, items: seq<Json>, i: nat): (r: Result<Members, ToolError>)
    requires i <= |items|
    ensures r.Ok? ==> |r.value| == |items| - i
    decreases |items| - i
  {
    if i == |items| then Ok([])
    else
      match Convert(convert, items[i], i)
      case Err(e) => Err(e)
      case Ok(entry) => Prepend([entry], EntriesFrom(convert, items, i + 1))
  }

  /**
   * The dict the loop builds from item `i` on, starting from `acc`: a dict
   * half filled when an item raises is dropped, so the result is the
   * converted entries assigned in order, or the first error.
   */
  function DictFrom(convert: Converter, items: seq<Json>, i: nat, acc: Members): (r: Result<Members, ToolError>)
    requires i <= |items|
  {
    match EntriesFrom(convert, items, i)
    case Err(e) => Err(e)
    case Ok(entries) => Ok(Assigned(acc, entries))
  }

  /** The `for index, item in enumerate(...)` loop that fills a fresh dict, raising at the first bad item. */
  method BuildDict(convert: Converter, items: seq<Json>) returns (r: Result<Members, ToolError>)
    ensures r == DictFrom(convert, items, 0, [])
  {
    var acc: Members := [];
    for i := 0 to |items|
      invariant DictFrom(convert, items, 0, []) == DictFrom(convert, items, i, acc)
    {
      var entry := Convert(convert, items[i], i);
      if entry.Err? {
        DictFromStop(convert, items, i, acc);
        return Err(entry.error);
      }
      DictFromStep(convert, items, i, acc);
      acc := Put(acc, entry.value.0, entry.value.1);
    }
    return Ok(acc);
  }

  /** A converted item is assigned, and the loop goes on with the next. */
  lemma DictFromStep(convert: Converter, items: seq<Json>, i: nat, acc: Members)
    requires i < |items| && Converts(convert, items[i], i)
    ensures var entry := Convert(convert, items[i], i).value;
      DictFrom(convert, items, i, acc) == DictFrom(convert, items, i + 1, Put(acc, entry.0, entry.1))
  {
    var entry := Convert(convert, items[i], i).value;
    var rest := EntriesFrom(convert, items, i + 1);
    if rest.Ok? {
      assert ([entry] + rest.value)[1..] == rest.value;
    }
  }

  /** An item that does not convert stops the loop with its error. */
  lemma DictFromStop(convert: Converter, items: seq<Json>, i: nat, acc: Members)
    requires i < |items| && !Converts(convert, items[i], i)
    ensures DictFrom(convert, items, i, acc) == Err(Convert(convert, items[i], i).error)
  {
  }

  /** The entries are the items converted one by one, and they exist exactly when every item converts. */
  lemma {:induction false} EntriesFromItems(convert: Converter, items: seq<Json>, i: nat)
    requires i <= |items|
    ensures EntriesFrom(convert, items, i).Ok? <==> forall j :: i <= j < |items| ==> Converts(convert, items[j], j)
    ensures EntriesFrom(convert, items, i).Ok? ==>
      forall j :: i <= j < |items| ==> EntriesFrom(convert, items, i).value[j - i] == Convert(convert, items[j], j).value
    decreases |items| - i
  {
    if i < |items| {
      EntriesFromItems(convert, items, i + 1);
      if Converts(convert, items[i], i) && EntriesFrom(convert, items, i + 1).Ok? {
        var rest := EntriesFrom(convert, items, i + 1).value;
        var all := EntriesFrom(convert, items, i).value;
        assert all == [Convert(convert, items[i], i).value] + rest;
        forall j | i < j < |items| ensures all[j - i] == Convert(convert, items[j], j).value {
          assert all[j - i] == rest[j - (i + 1)];
        }
      }
    }
  }

  /** A failure is the error of the first item that does not convert. */
  lemma {:induction false} EntriesFromFirstError(convert: Converter, items: seq<Json>, i: nat, j: nat)
    requires i <= j < |items| && !Converts(convert, items[j], j)
    requires forall l :: i <= l < j ==> Converts(convert, items[l], l)
    ensures EntriesFrom(convert, items, i) == Err(Convert(convert, items[j], j).error)
    decreases j - i
  {
    if i < j {
      assert Converts(convert, items[i], i);
      EntriesFromFirstError(convert, items, i + 1, j);
    }
  }

  /** The conversion succeeds exactly when every item converts, and otherwise raises the first failure. */
  lemma DictOk(convert: Converter, items: seq<Json>)
    ensures DictFrom(convert, items, 0, []).Ok? <==> forall j :: 0 <= j < |items| ==> Converts(convert, items[j], j)
    ensures forall j ::
              (0 <= j < |items| && !Converts(convert, items[j], j) && forall l :: 0 <= l < j ==> Converts(convert, items[l], l))
              ==> DictFrom(convert, items, 0, []) == Err(Convert(convert, items[j], j).error)
  {
    EntriesFromItems(convert, items, 0);
    forall j | 0 <= j < |items| && !Converts(convert, items[j], j) && (forall l :: 0 <= l < j ==> Converts(convert, items[l], l))
      ensures DictFrom(convert, items, 0, []) == Err(Convert(convert, items[j], j).error)
    {
      EntriesFromFirstError(convert, items, 0, j);
    }
  }

  /**
   * Assigning keeps the keys distinct, keeps every key already there, adds
   * every entry's key, and leaves each key with the value of its last entry.
   */
  lemma {:induction false} AssignedKeys(acc: Members, entries: Members)
    requires DistinctKeys(acc)
    ensures var m := Assigned(acc, entries);
      DistinctKeys(m)
      && (forall k :: HasKey(acc, k) ==> HasKey(m, k))
      && (forall j :: 0 <= j < |entries| ==> HasKey(m, entries[j].0))
    decreases |entries|
  {
    if entries != [] {
      var next := Put(acc, entries[0].0, entries[0].1);
      KeysDistinctAfterPut(acc, entries[0].0, entries[0].1);
      PutKeys(acc, entries[0].0, entries[0].1);
      AssignedKeys(next, entries[1..]);
      forall j | 1 <= j < |entries| ensures HasKey(Assigned(acc, entries), entries[j].0) {
        assert entries[j] == entries[1..][j - 1];
      }
    }
  }

  /** `d[k] = v` keeps every key `d` had and adds `k`. */
  lemma PutKeys(m: Members, k: string, v: Json)
    ensures HasKey(Put(m, k, v), k)
    ensures forall k' :: HasKey(m, k') ==> HasKey(Put(m, k, v), k')
  {
  }

  /** A key keeps the value of its last assignment. */
  lemma {:induction false} AssignedLast(acc: Members, entries: Members, j: nat)
    requires j < |entries| && forall l :: j < l < |entries| ==> entries[l].0 != entries[j].0
    ensures Lookup(Assigned(acc, entries), entries[j].0) == Some(entries[j].1)
    decreases |entries|
  {
    var next := Put(acc, entries[0].0, entries[0].1);
    if j == 0 {
      AssignedOthers(next, entries[1..], entries[0].0);
    } else {
      assert entries[j] == entries[1..][j - 1];
      AssignedLast(next, entries[1..], j - 1);
    }
  }

  /** Assigning entries whose keys all differ from `k` leaves the lookup of `k` alone. */
  lemma {:induction false} AssignedOthers(acc: Members, entries: Members, k: string)
    requires forall l :: 0 <= l < |entries| ==> entries[l].0 != k
    ensures Lookup(Assigned(acc, entries), k) == Lookup(acc, k)
    decreases |entries|
  {
    if entries != [] {
      assert entries[0].0 != k;
      AssignedOthers(Put(acc, entries[0].0, entries[0].1), entries[1..], k);
    }
  }

  /** Every entry of the assigned dict is an entry of `acc` or one of the assigned entries. */
  lemma {:induction false} AssignedFrom(acc: Members, entries: Members)
    ensures forall e :: e in Assigned(acc, entries) ==> e in acc || e in entries
    decreases |entries|
  {
    if entries != [] {
      PutEntries(acc, entries[0].0, entries[0].1);
      AssignedFrom(Put(acc, entries[0].0, entries[0].1), entries[1..]);
      assert entries[0] in entries;
      assert forall e :: e in entries[1..] ==> e in entries;
    }
  }

  /** The entries of a completed loop are the items' conversions, position by position. */
  lemma EntriesAre(convert: Converter, items: seq<Json>)
    requires EntriesFrom(convert, items, 0).Ok?
    ensures forall j :: 0 <= j < |items| ==> Convert(convert, items[j], j).Ok?
    ensures forall j :: 0 <= j < |items| ==> EntriesFrom(convert, items, 0).value[j] == Convert(convert, items[j], j).value
  {
    EntriesFromItems(convert, items, 0);
    var entries := EntriesFrom(convert, items, 0).value;
    forall j | 0 <= j < |items| ensures entries[j] == Convert(convert, items[j], j).value {
      assert entries[j - 0] == Convert(convert, items[j], j).value;
    }
  }

  /**
   * A dict the loop completes: every item converted, its keys distinct,
   * every item's key stored, and every stored entry some item's conversion.
   */
  lemma DictStored(convert: Converter, items: seq<Json>)
    requires DictFrom(convert, items, 0, []).Ok?
    ensures forall j :: 0 <= j < |items| ==> Convert(convert, items[j], j).Ok?
    ensures var m := DictFrom(convert, items, 0, []).value;
      DistinctKeys(m)
      && (forall j :: 0 <= j < |items| ==> HasKey(m, Convert(convert, items[j], j).value.0))
      && (forall e :: e in m ==> exists j :: 0 <= j < |items| && Convert(convert, items[j], j) == Ok(e))
  {
    EntriesAre(convert, items);
    var entries := EntriesFrom(convert, items, 0).value;
    AssignedKeys([], entries);
    AssignedFrom([], entries);
    forall e | e in entries ensures exists j :: 0 <= j < |items| && Convert(convert, items[j], j) == Ok(e) {
      var j :| 0 <= j < |entries| && entries[j] == e;
    }
  }

  /** In a dict the loop completes, a key holds the entry of the last item with that key. */
  lemma DictLast(convert: Converter, items: seq<Json>, j: nat)
    requires DictFrom(convert, items, 0, []).Ok?
    requires j < |items| && forall l :: 0 <= l < |items| ==> Convert(convert, items[l], l).Ok?
    requires LastWithKey(convert, items, j)
    ensures Lookup(DictFrom(convert, items, 0, []).value, Convert(convert, items[j], j).value.0)
      == Some(Convert(convert, items[j], j).value.1)
  {
    EntriesAre(convert, items);
    var entries := EntriesFrom(convert, items, 0).value;
    AssignedLast([], entries, j);
  }

  /** No later item converts to the key of item `j`. */
  predicate LastWithKey(convert: Converter, items: seq<Json>, j: nat)
    requires j < |items| && forall l :: 0 <= l < |items| ==> Convert(convert, items[l], l).Ok?
  {
    forall l :: j < l < |items| ==> Convert(convert, items[l], l).value.0 != Convert(convert, items[j], j).value.0
  }

  /** An options dict whose every entry `validate_options` accepts. */
  predicate AllAcceptable(m: Members)
  {
    forall e :: e in m ==> FieldValidator.OptionAcceptable(e.0, e.1)
  }

  /** Assigning acceptable entries onto an acceptable dict gives an acceptable dict. */
  lemma {:induction false} AssignedAcceptable(acc: Members, entries: Members)
    requires AllAcceptable(acc) && AllAcceptable(entries)
    ensures AllAcceptable(Assigned(acc, entries))
    decreases |entries|
  {
    if entries != [] {
      PutEntries(acc, entries[0].0, entries[0].1);
      assert entries[0] in entries;
      assert forall e :: e in entries[1..] ==> e in entries;
      AssignedAcceptable(Put(acc, entries[0].0, entries[0].1), entries[1..]);
    }
  }

  /** When every item converts to an acceptable entry, the dict is non-empty and every entry of it is acceptable. */
  lemma OptionsAcceptable(convert: Converter, items: seq<Json>)
    requires items != []
    requires forall j :: 0 <= j < |items| ==>
      Converts(convert, items[j], j) && FieldValidator.OptionAcceptable(Convert(convert, items[j], j).value.0, Convert(convert, items[j], j).value.1)
    ensures var r := DictFrom(convert, items, 0, []);
      r.Ok? && r.value != [] && AllAcceptable(r.value)
  {
    EntriesFromItems(convert, items, 0);
    var entries := EntriesFrom(convert, items, 0).value;
    forall e | e in entries ensures FieldValidator.OptionAcceptable(e.0, e.1) {
      var j :| 0 <= j < |entries| && entries[j] == e;
      assert entries[j - 0] == Convert(convert, items[j], j).value;
    }
    AssignedAcceptable([], entries);
    AssignedKeys([], entries);
  }

  /** `str(i)` matches `^\d+$`. */
  lemma IndexMatchesDigits(i: nat)
    ensures MatchesDigitsPattern(NatToString(i))
  {
    var s := NatToString(i);
    NatToStringAscii(i);
    assert AnchoredBody(s) == s;
    NatToStringIsDigitString(i);
  }

  /** An entry built with a truthy caption passes `validate_options`' entry checks. */
  lemma OptionEntryAcceptable(key: string, caption: Json, index: nat)
    requires Truthy(caption)
    ensures FieldValidator.OptionAcceptable(key, OptionEntry(caption, index))
  {
    IndexMatchesDigits(index);
  }

  /** Non-empty string choices make a non-empty options dict that `validate_options` accepts. */
  lemma ChoiceOptionsAccepted(choices: seq<Json>)
    requires choices != [] && forall j :: 0 <= j < |choices| ==> choices[j].JStr? && choices[j].s != []
    ensures var r := DictFrom(Choices, choices, 0, []);
      r.Ok? && r.value != [] && AllAcceptable(r.value)
  {
    forall j | 0 <= j < |choices|
      ensures ChoiceOption(choices[j], j).Ok?
      ensures FieldValidator.OptionAcceptable(ChoiceOption(choices[j], j).value.0, ChoiceOption(choices[j], j).value.1)
    {
      OptionEntryAcceptable(choices[j].s, choices[j], j);
    }
    OptionsAcceptable(Choices, choices);
  }

  /** A list of options passes `validate_options` once converted, when each item names a truthy caption. */
  lemma ListOptionsAccepted(options: seq<Json>)
    requires options != []
    requires forall j :: 0 <= j < |options| ==> ListOption(options[j], j).Ok? && Truthy(ListLabel(options[j]))
    ensures var r := DictFrom(ListOptions, options, 0, []);
      r.Ok? && r.value != [] && AllAcceptable(r.value)
  {
    forall j | 0 <= j < |options|
      ensures FieldValidator.OptionAcceptable(ListOption(options[j], j).value.0, ListOption(options[j], j).value.1)
    {
      ListOptionEntry(options[j], j);
      OptionEntryAcceptable(ListOption(options[j], j).value.0, ListLabel(options[j]), j);
    }
    OptionsAcceptable(ListOptions, options);
  }

  /** The caption a list option carries: the string itself, or its `caption`. */
  function ListLabel(option: Json): Json
  {
    if option.JObj? then Get(option, "label") else option
  }

  /** A converted list option is keyed by its `value`, else its caption, and carries its caption and position. */
  lemma ListOptionEntry(option: Json, index: nat)
    requires ListOption(option, index).Ok?
    ensures var entry := ListOption(option, index).value;
      entry.1 == OptionEntry(ListLabel(option), index)
      && (option.JStr? ==> entry.0 == option.s)
      && (option.JObj? && Has(option, "value") ==> JStr(entry.0) == Get(option, "value"))
      && (option.JObj? && !Has(option, "value") ==> JStr(entry.0) == Get(option, "label"))
  {
  }

  /** The ways a list option is refused: no caption, a shape that is neither dict nor string. */
  lemma ListOptionErrors(option: Json, index: nat)
    ensures option.JObj? && !Has(option, "label") ==> ListOption(option, index) == Err(OptionItemLabelMissing(index))
    ensures !option.JObj? && !option.JStr? ==> ListOption(option, index) == Err(OptionItemInvalid(index))
  {
  }

  // add_fields.

  /** The layout elements `add_fields` refuses. */
  const LayoutOnlyTypes: seq<string> := ["SPACER", "HR", "LABEL"]
  const ChoiceTypes: seq<string> := ["DROP_DOWN", "RADIO_BUTTON", "CHECK_BOX", "MULTI_SELECT"]

  /** The code a prepared field carries: its own when truthy, else the one generated from its label. */
  function ChosenCode(field: Json, now: nat): (r: Json)
    requires field.JObj?
    ensures Get(field, "label").JStr? || Truthy(Get(field, "code")) ==> Truthy(r)
  {
    if Truthy(Get(field, "code")) then Get(field, "code")
    else if Get(field, "label").JStr? then JStr(FieldCode.GenerateFieldCode(Get(field, "label").s, now))
    else JNull
  }

  /** The copy with its chosen code; nothing else changes. */
  function Coded(field: Json, now: nat): (r: Json)
    requires field.JObj?
    ensures r.JObj? && Get(r, "code") == ChosenCode(field, now)
    ensures forall k :: k != "code" ==> Get(r, k) == Get(field, k) && (Has(r, k) <==> Has(field, k))
  {
    if Truthy(Get(field, "code")) then field else Set(field, "code", ChosenCode(field, now))
  }

  /** A CALC field's `formula` becomes its `expression` when it has none. */
  function RenameFormula(f: Json): (r: Json)
    requires f.JObj?
    ensures r.JObj?
    ensures forall k :: k != "expression" && k != "formula" ==> Get(r, k) == Get(f, k) && (Has(r, k) <==> Has(f, k))
    ensures IsStr(f, "type", Constants.CalcType) && Has(f, "formula") && !Has(f, "expression") ==>
      Get(r, "expression") == Get(f, "formula") && !Has(r, "formula")
  {
    if IsStr(f, "type", Constants.CalcType) && Has(f, "formula") && !Has(f, "expression") then
      Del(Set(f, "expression", Get(f, "formula")), "formula")
    else f
  }

  /** A NUMBER field loses a `displayScale` given as the empty string. */
  function DropBlankScale(f: Json): (r: Json)
    requires f.JObj?
    ensures r.JObj?
    ensures forall k :: k != "displayScale" ==> Get(r, k) == Get(f, k) && (Has(r, k) <==> Has(f, k))
    ensures IsStr(f, "type", Constants.NumberType) && IsStr(f, "displayScale", "") ==> !Has(r, "displayScale")
  {
    if IsStr(f, "type", Constants.NumberType) && IsStr(f, "displayScale", "") then Del(f, "displayScale") else f
  }

  /** A choice field's list-form `options` becomes a dict; a dict stays; any other shape raises. */
  function OptionsAsDict(f: Json): (r: Result<Json, ToolError>)
    requires f.JObj?
    ensures r.Ok? ==> r.value.JObj?
    ensures r.Ok? ==> forall k :: k != "options" ==> Get(r.value, k) == Get(f, k) && (Has(r.value, k) <==> Has(f, k))
    ensures StrIn(Get(f, "type"), ChoiceTypes) && Get(f, "options").JArr? ==>
      var converted := DictFrom(ListOptions, Get(f, "options").items, 0, []);
      (r.Ok? <==> converted.Ok?) && (r.Ok? ==> Get(r.value, "options") == JObj(converted.value))
    ensures StrIn(Get(f, "type"), ChoiceTypes) && Has(f, "options") && !Get(f, "options").JArr? && !Get(f, "options").JObj?
      ==> r == Err(OptionsShapeInvalid)
    ensures !(StrIn(Get(f, "type"), ChoiceTypes) && Get(f, "options").JArr?) && r.Ok? ==> r.value == f
  {
    if StrIn(Get(f, "type"), ChoiceTypes) && Has(f, "options") then
      match Get(f, "options")
      case JArr(items) =>
        (match DictFrom(ListOptions, items, 0, [])
         case Err(e) => Err(e)
         case Ok(m) => Ok(Set(f, "options", JObj(m))))
      case JObj(_) => Ok(f)
      case _ => Err(OptionsShapeInvalid)
    else Ok(f)
  }

  /**
   * One field of `add_fields` made ready for `validate_field`: the copy given
   * a code, checked for a type, its formula, blank scale and list options
   * repaired; or the error raised.  A label that is not a string makes the
   * code generator raise.
   */
  function PrepareField(field: Json, now: nat): (r: Result<Json, ToolError>)
    requires field.JObj?
    ensures r.Ok? ==> r.value.JObj?
  {
    if !Truthy(Get(field, "code")) && !Truthy(Get(field, "label")) then Err(CodeOrLabelMissing)
    else if !Truthy(Get(field, "code")) && !Get(field, "label").JStr? then Err(TypeFault)
    else if !Truthy(Get(field, "type")) then Err(TypeMissing)
    else OptionsAsDict(DropBlankScale(RenameFormula(Coded(field, now))))
  }

  /** One field prepared and validated, as `processed_properties[validated["code"]] = validated` stores it. */
  function ProcessedField(field: Json, now: nat): (r: Result<(string, Json), ToolError>)
    requires field.JObj?
  {
    match PrepareField(field, now)
    case Err(e) => Err(e)
    case Ok(f) =>
      match FieldValidator.ValidateField(f)
      case Err(e) => Err(Invalid(e))
      case Ok(v) => if Get(v, "code").JStr? then Ok((Get(v, "code").s, v)) else Err(TypeFault)
  }

  /**
   * Preparing a field refuses one with neither code nor label and one
   * without a type; what it returns has the chosen code and the field's
   * type, and leaves every other key alone except the formula, scale and
   * options it repairs.
   */
  lemma PrepareFieldShape(field: Json, now: nat)
    requires field.JObj?
    ensures !Truthy(Get(field, "code")) && !Truthy(Get(field, "label")) ==> PrepareField(field, now) == Err(CodeOrLabelMissing)
    ensures (Truthy(Get(field, "code")) || (Truthy(Get(field, "label")) && Get(field, "label").JStr?)) && !Truthy(Get(field, "type"))
      ==> PrepareField(field, now) == Err(TypeMissing)
    ensures PrepareField(field, now).Ok? ==>
      var f := PrepareField(field, now).value;
      Get(f, "code") == ChosenCode(field, now) && Truthy(Get(f, "code"))
      && Get(f, "type") == Get(field, "type") && Truthy(Get(f, "type"))
      && forall k :: k !in PreparedKeys ==> Get(f, k) == Get(field, k)
  {
    if PrepareField(field, now).Ok? {
      PrepareFieldCode(field, now);
      var c0 := Coded(field, now);
      var c1 := RenameFormula(c0);
      var c2 := DropBlankScale(c1);
      assert PrepareField(field, now) == OptionsAsDict(c2);
      var f := OptionsAsDict(c2).value;
      forall k | k !in PreparedKeys
        ensures Get(f, k) == Get(field, k)
      {
        assert k != "code" && k != "expression" && k != "formula" && k != "displayScale" && k != "options";
        assert Get(f, k) == Get(c2, k) == Get(c1, k) == Get(c0, k);
      }
    }
  }

  /** A prepared field carries the chosen code and the field's own type, both truthy. */
  lemma PrepareFieldCode(field: Json, now: nat)
    requires field.JObj? && PrepareField(field, now).Ok?
    ensures var f := PrepareField(field, now).value;
      Get(f, "code") == ChosenCode(field, now) && Truthy(Get(f, "code"))
      && Get(f, "type") == Get(field, "type") && Truthy(Get(f, "type"))
  {
    var c0 := Coded(field, now);
    var c1 := RenameFormula(c0);
    var c2 := DropBlankScale(c1);
    assert PrepareField(field, now) == OptionsAsDict(c2);
    var f := OptionsAsDict(c2).value;
    assert Get(f, "code") == Get(c2, "code") == Get(c1, "code") == Get(c0, "code");
    assert Get(f, "type") == Get(c2, "type") == Get(c1, "type") == Get(c0, "type") == Get(field, "type");
  }

  /** The keys preparation may change besides the code. */
  const PreparedKeys: seq<string> := ["code", "expression", "formula", "displayScale", "options"]

  /** A CALC field with a formula and no expression is sent with the formula as its expression, and no formula. */
  lemma PrepareFieldFormula(field: Json, now: nat)
    requires field.JObj? && PrepareField(field, now).Ok?
    requires IsStr(field, "type", Constants.CalcType) && Has(field, "formula") && !Has(field, "expression")
    ensures Get(PrepareField(field, now).value, "expression") == Get(field, "formula")
    ensures !Has(PrepareField(field, now).value, "formula")
  {
    var c0 := Coded(field, now);
    var c1 := RenameFormula(c0);
    var c2 := DropBlankScale(c1);
    assert Get(c0, "type") == Get(field, "type") && Has(c0, "formula") && !Has(c0, "expression");
    assert Get(c1, "expression") == Get(c0, "formula") == Get(field, "formula") && !Has(c1, "formula");
    assert Get(c2, "expression") == Get(c1, "expression") && !Has(c2, "formula");
    assert PrepareField(field, now) == OptionsAsDict(c2);
  }

  /** A NUMBER field whose `displayScale` is the empty string is sent without one. */
  lemma PrepareFieldScale(field: Json, now: nat)
    requires field.JObj? && PrepareField(field, now).Ok?
    requires IsStr(field, "type", Constants.NumberType) && IsStr(field, "displayScale", "")
    ensures !Has(PrepareField(field, now).value, "displayScale")
  {
  }

  /**
   * A choice field's list of options is sent as the dict its items convert
   * to, and preparation fails exactly when an item does not convert; options
   * in any shape but a list or a dict are refused.
   */
  lemma PrepareFieldOptions(field: Json, now: nat)
    requires field.JObj? && Truthy(Get(field, "type"))
    requires Truthy(Get(field, "code")) || (Truthy(Get(field, "label")) && Get(field, "label").JStr?)
    requires StrIn(Get(field, "type"), ChoiceTypes) && Has(field, "options")
    ensures Get(field, "options").JArr? ==>
      var items := Get(field, "options").items;
      (PrepareField(field, now).Ok? <==> DictFrom(ListOptions, items, 0, []).Ok?)
      && (PrepareField(field, now).Ok? ==> Get(PrepareField(field, now).value, "options") == JObj(DictFrom(ListOptions, items, 0, []).value))
    ensures !Get(field, "options").JArr? && !Get(field, "options").JObj? ==> PrepareField(field, now) == Err(OptionsShapeInvalid)
  {
    var c := DropBlankScale(RenameFormula(Coded(field, now)));
    assert Get(c, "type") == Get(field, "type") && Get(c, "options") == Get(field, "options") && Has(c, "options");
    assert PrepareField(field, now) == OptionsAsDict(c);
  }

  /**
   * A processed field is keyed by the code it was given or generated, and
   * stores the validated field, which keeps that code and the field's type.
   */
  lemma ProcessedFieldKey(field: Json, now: nat)
    requires field.JObj? && ProcessedField(field, now).Ok?
    ensures JStr(ProcessedField(field, now).value.0) == ChosenCode(field, now)
    ensures var v := ProcessedField(field, now).value.1;
      v.JObj? && Get(v, "code") == ChosenCode(field, now) && Get(v, "type") == Get(field, "type")
  {
    PrepareFieldCode(field, now);
    var f := PrepareField(field, now).value;
    var v := FieldValidator.ValidateField(f).value;
    FieldValidator.ValidateFieldKeepsCode(f, FieldValidator.AsWritten);
    assert ProcessedField(field, now) == Ok((Get(v, "code").s, v));
  }

  /** A field typed as a layout element. */
  predicate IsLayoutOnly(field: Json)
    requires field.JObj?
  {
    StrIn(Get(field, "type"), LayoutOnlyTypes)
  }

  /** The type of the first field, from `i` on, typed as a layout element. */
  function FirstLayoutOnly(items: seq<Json>, i: nat): (r: Option<string>)
    requires i <= |items| && AllObjects(items)
    decreases |items| - i
  {
    if i == |items| then None
    else if IsLayoutOnly(items[i]) then Some(Get(items[i], "type").s)
    else FirstLayoutOnly(items, i + 1)
  }

  /** The search finds a layout element exactly when there is one, and names the type of the first. */
  lemma {:induction false} FirstLayoutOnlyFound(items: seq<Json>, i: nat)
    requires i <= |items| && AllObjects(items)
    ensures FirstLayoutOnly(items, i).Some? <==> exists j :: i <= j < |items| && IsLayoutOnly(items[j])
    ensures FirstLayoutOnly(items, i).Some? ==>
      exists j :: (i <= j < |items| && IsLayoutOnly(items[j]) && Get(items[j], "type") == JStr(FirstLayoutOnly(items, i).value)
        && forall l :: i <= l < j ==> !IsLayoutOnly(items[l]))
    decreases |items| - i
  {
    if i < |items| {
      if IsLayoutOnly(items[i]) {
        assert Get(items[i], "type") == JStr(FirstLayoutOnly(items, i).value);
      } else {
        assert FirstLayoutOnly(items, i) == FirstLayoutOnly(items, i + 1);
        FirstLayoutOnlyFound(items, i + 1);
        if FirstLayoutOnly(items, i).Some? {
          var j :| i + 1 <= j < |items| && IsLayoutOnly(items[j]) && Get(items[j], "type") == JStr(FirstLayoutOnly(items, i).value)
            && forall l :: i + 1 <= l < j ==> !IsLayoutOnly(items[l]);
          assert forall l :: i <= l < j ==> !IsLayoutOnly(items[l]);
        }
      }
    }
  }

  /** What `add_fields` sends as the properties of `add_form_fields`, or the error it raises first. */
  function AddFields(args: Args, now: nat): (r: Result<Members, ToolError>)
  {
    var fields := ArgOr(args, "fields", JArr([]));
    if !Truthy(Arg(args, "app_id")) then Err(ParamMissing("app_id"))
    else if !Truthy(fields) then Err(ParamMissing("fields"))
    else if !fields.JArr? then Err(FieldsNotList)
    else if !AllObjects(fields.items) then Err(TypeFault)
    else
      match FirstLayoutOnly(fields.items, 0)
      case Some(t) => Err(LayoutElementNotSupported(t))
      case None => DictFrom(Fields(now), fields.items, 0, [])
  }

  /**
   * `add_fields` up to its repository call: the argument checks, the loop
   * that reads every field's type and label, the loop that refuses layout
   * elements, and the loop that prepares, validates and stores each field.
   */
  method PrepareAddFields(args: Args, now: nat) returns (r: Result<Members, ToolError>)
    ensures r == AddFields(args, now)
  {
    if !Truthy(Arg(args, "app_id")) {
      return Err(ParamMissing("app_id"));
    }
    var fields := ArgOr(args, "fields", JArr([]));
    if !Truthy(fields) {
      return Err(ParamMissing("fields"));
    }
    if !fields.JArr? {
      return Err(FieldsNotList);
    }
    var items := fields.items;
    var objects := CheckObjects(items);
    if !objects {
      return Err(TypeFault);
    }
    var layoutOnly := FindLayoutOnly(items);
    if layoutOnly.Some? {
      return Err(LayoutElementNotSupported(layoutOnly.value));
    }
    r := BuildDict(Fields(now), items);
  }

  /** The loop of `add_fields` that reads every field as a dict. */
  method CheckObjects(items: seq<Json>) returns (ok: bool)
    ensures ok <==> AllObjects(items)
  {
    for i := 0 to |items|
      invariant AllObjects(items[..i])
    {
      if !items[i].JObj? {
        return false;
      }
    }
    assert items[..|items|] == items;
    return true;
  }

  /** The loop of `add_fields` that stops at the first layout element. */
  method FindLayoutOnly(items: seq<Json>) returns (r: Option<string>)
    requires AllObjects(items)
    ensures r == FirstLayoutOnly(items, 0)
  {
    for i := 0 to |items|
      invariant FirstLayoutOnly(items, 0) == FirstLayoutOnly(items, i)
    {
      if IsLayoutOnly(items[i]) {
        return Some(Get(items[i], "type").s);
      }
    }
    return None;
  }

  /** A layout element among well-formed fields makes `add_fields` refuse, naming the first one. */
  lemma AddFieldsRefusesLayout(args: Args, now: nat, j: nat)
    requires Truthy(Arg(args, "app_id"))
    requires Arg(args, "fields").JArr? && AllObjects(Arg(args, "fields").items)
    requires j < |Arg(args, "fields").items| && IsLayoutOnly(Arg(args, "fields").items[j])
    ensures AddFields(args, now).Err? && AddFields(args, now).error.LayoutElementNotSupported?
    ensures AddFields(args, now).error.elementType in LayoutOnlyTypes
  {
    var items := Arg(args, "fields").items;
    assert Truthy(Arg(args, "fields"));
    FirstLayoutOnlyFound(items, 0);
    var t := FirstLayoutOnly(items, 0).value;
    var k :| 0 <= k < |items| && IsLayoutOnly(items[k]) && Get(items[k], "type") == JStr(t)
      && forall l :: 0 <= l < k ==> !IsLayoutOnly(items[l]);
    assert AddFields(args, now) == Err(LayoutElementNotSupported(t));
  }

  /**
   * `add_fields` succeeds exactly when its arguments are well formed, no
   * field is a layout element and every field is prepared and validated; the
   * stored codes are distinct, every field's code is stored, and a code holds
   * the validated form of the last field that has it.
   */
  lemma AddFieldsStored(args: Args, now: nat)
    requires Truthy(Arg(args, "app_id"))
    requires Arg(args, "fields").JArr? && Arg(args, "fields").items != []
    requires AllObjects(Arg(args, "fields").items) && FirstLayoutOnly(Arg(args, "fields").items, 0).None?
    ensures var items := Arg(args, "fields").items;
      AddFields(args, now).Ok? <==> forall j :: 0 <= j < |items| ==> ProcessedField(items[j], now).Ok?
    ensures var items := Arg(args, "fields").items;
      AddFields(args, now).Ok? ==>
        var m := AddFields(args, now).value;
        DistinctKeys(m)
        && (forall j :: 0 <= j < |items| ==> HasKey(m, ProcessedField(items[j], now).value.0))
        && (forall e :: e in m ==> exists j :: 0 <= j < |items| && ProcessedField(items[j], now) == Ok(e))
  {
    var items := Arg(args, "fields").items;
    assert Truthy(Arg(args, "fields"));
    assert AddFields(args, now) == DictFrom(Fields(now), items, 0, []);
    DictOk(Fields(now), items);
    if AddFields(args, now).Ok? {
      DictStored(Fields(now), items);
    }
  }

  // create_choice_field.

  /** The code given in the arguments when truthy, else the one generated from the label. */
  function ArgCode(args: Args, now: nat): (r: Result<Json, ToolError>)
    ensures r.Ok? <==> Truthy(Arg(args, "code")) || Arg(args, "label").JStr?
    ensures Truthy(Arg(args, "code")) ==> r == Ok(Arg(args, "code"))
    ensures !Truthy(Arg(args, "code")) && Arg(args, "label").JStr? ==>
      r == Ok(JStr(FieldCode.GenerateFieldCode(Arg(args, "label").s, now)))
    ensures r.Ok? ==> Truthy(r.value)
  {
    if Truthy(Arg(args, "code")) then Ok(Arg(args, "code"))
    else if Arg(args, "label").JStr? then Ok(JStr(FieldCode.GenerateFieldCode(Arg(args, "label").s, now)))
    else Err(TypeFault)
  }

  /** The keys of a choice definition, in the order the handler sets them; radio buttons and check boxes add `align`. */
  const ChoiceKeys: seq<string> := ["type", "code", "label", "noLabel", "required", "options", "defaultValue"]
  const AlignedChoiceKeys: seq<string> := ChoiceKeys + ["align"]

  lemma ChoiceKeysFacts()
    ensures Distinct(ChoiceKeys) && Distinct(AlignedChoiceKeys)
    ensures forall i :: 0 <= i < |ChoiceKeys| ==> ChoiceKeys[i] != "align"
  {
  }

  /** The definition `create_choice_field` assembles, as a dict display. */
  function ChoiceConfig(fieldType: string, code: Json, caption: Json, required: Json, options: Members, choices: seq<Json>, align: Json): (r: Json)
    requires choices != []
    ensures r.JObj?
  {
    var default := if fieldType == "RADIO_BUTTON" then choices[0] else if fieldType == "DROP_DOWN" then JStr("") else JArr([]);
    var values := [JStr(fieldType), code, caption, JBool(false), required, JObj(options), default];
    if fieldType == "RADIO_BUTTON" || fieldType == "CHECK_BOX" then Display(AlignedChoiceKeys, values + [align])
    else Display(ChoiceKeys, values)
  }

  /** A choice definition holds the type, code and label, a visible label, `required` and the options. */
  lemma ChoiceConfigFields(fieldType: string, code: Json, caption: Json, required: Json, options: Members, choices: seq<Json>, align: Json)
    requires choices != []
    ensures var r := ChoiceConfig(fieldType, code, caption, required, options, choices, align);
      Get(r, "type") == JStr(fieldType) && Get(r, "code") == code && Get(r, "label") == caption
      && Get(r, "noLabel") == JBool(false) && Get(r, "required") == required && Get(r, "options") == JObj(options)
  {
    var default := if fieldType == "RADIO_BUTTON" then choices[0] else if fieldType == "DROP_DOWN" then JStr("") else JArr([]);
    var aligned := fieldType == "RADIO_BUTTON" || fieldType == "CHECK_BOX";
    assert ChoiceConfig(fieldType, code, caption, required, options, choices, align)
      == ChoiceDisplay(aligned, JStr(fieldType), code, caption, required, options, default, align);
    ChoicePrefix(aligned, JStr(fieldType), code, caption, required, options, default, align);
  }

  /** A choice display: the seven common keys, then the alignment when `aligned`. */
  function ChoiceDisplay(aligned: bool, t: Json, code: Json, caption: Json, required: Json, options: Members, default: Json, align: Json): Json
  {
    var values := [t, code, caption, JBool(false), required, JObj(options), default];
    if aligned then Display(AlignedChoiceKeys, values + [align]) else Display(ChoiceKeys, values)
  }

  /** The first six keys of a choice display hold the first six values. */
  lemma ChoicePrefix(aligned: bool, t: Json, code: Json, caption: Json, required: Json, options: Members, default: Json, align: Json)
    ensures var r := ChoiceDisplay(aligned, t, code, caption, required, options, default, align);
      Get(r, "type") == t && Get(r, "code") == code && Get(r, "label") == caption
      && Get(r, "noLabel") == JBool(false) && Get(r, "required") == required && Get(r, "options") == JObj(options)
  {
    var values := [t, code, caption, JBool(false), required, JObj(options), default];
    ChoiceKeysFacts();
    if aligned {
      ChoiceHead(AlignedChoiceKeys, values + [align]);
    } else {
      ChoiceHead(ChoiceKeys, values);
    }
  }

  lemma ChoiceHead(keys: seq<string>, all: seq<Json>)
    requires |keys| == |all| >= 6 && Distinct(keys) && keys[..6] == ChoiceKeys[..6]
    ensures var r := Display(keys, all);
      Get(r, "type") == all[0] && Get(r, "code") == all[1] && Get(r, "label") == all[2]
      && Get(r, "noLabel") == all[3] && Get(r, "required") == all[4] && Get(r, "options") == all[5]
  {
    assert keys[0] == "type" && keys[1] == "code" && keys[2] == "label" by { assert keys[..6][0] == keys[0] && keys[..6][1] == keys[1] && keys[..6][2] == keys[2]; }
    assert keys[3] == "noLabel" && keys[4] == "required" && keys[5] == "options" by { assert keys[..6][3] == keys[3] && keys[..6][4] == keys[4] && keys[..6][5] == keys[5]; }
    DisplayAt(keys, all, 0); DisplayAt(keys, all, 1); DisplayAt(keys, all, 2);
    DisplayAt(keys, all, 3); DisplayAt(keys, all, 4); DisplayAt(keys, all, 5);
  }

  /**
   * The default value of a choice definition is the first choice for radio
   * buttons, the empty string for drop-downs and an empty list otherwise;
   * only radio buttons and check boxes carry the alignment.
   */
  lemma ChoiceConfigDefaults(fieldType: string, code: Json, caption: Json, required: Json, options: Members, choices: seq<Json>, align: Json)
    requires choices != []
    ensures var r := ChoiceConfig(fieldType, code, caption, required, options, choices, align);
      Get(r, "defaultValue") == (if fieldType == "RADIO_BUTTON" then choices[0]
                                 else if fieldType == "DROP_DOWN" then JStr("")
                                 else JArr([]))
      && (Has(r, "align") <==> fieldType == "RADIO_BUTTON" || fieldType == "CHECK_BOX")
      && (Has(r, "align") ==> Get(r, "align") == align)
  {
    var default := if fieldType == "RADIO_BUTTON" then choices[0] else if fieldType == "DROP_DOWN" then JStr("") else JArr([]);
    var values := [JStr(fieldType), code, caption, JBool(false), required, JObj(options), default];
    ChoiceKeysFacts();
    if fieldType == "RADIO_BUTTON" || fieldType == "CHECK_BOX" {
      var all := values + [align];
      DisplayAt(AlignedChoiceKeys, all, 6); DisplayAt(AlignedChoiceKeys, all, 7);
    } else {
      DisplayAt(ChoiceKeys, values, 6);
      DisplayKeys(ChoiceKeys, values, "align");
    }
  }

  /** The field definition `create_choice_field` returns, or the error it raises first. */
  function CreateChoiceField(args: Args, now: nat): (r: Result<Json, ToolError>)
    ensures r.Ok? ==> r.value.JObj?
  {
    var choices := Arg(args, "choices");
    if !Truthy(Arg(args, "field_type")) then Err(ParamMissing("field_type"))
    else if !Truthy(Arg(args, "label")) then Err(ParamMissing("label"))
    else if !Truthy(choices) then Err(ParamMissing("choices"))
    else if !choices.JArr? then Err(ChoicesNotList)
    else if !StrIn(Arg(args, "field_type"), ChoiceTypes) then Err(ChoiceTypeInvalid)
    else
      match ArgCode(args, now)
      case Err(e) => Err(e)
      case Ok(code) =>
        match DictFrom(Choices, choices.items, 0, [])
        case Err(e) => Err(e)
        case Ok(options) =>
          Ok(ChoiceConfig(Arg(args, "field_type").s, code, Arg(args, "label"), ArgOr(args, "required", JBool(false)),
                          options, choices.items, ArgOr(args, "align", JStr("HORIZONTAL"))))
  }

  /** The argument checks of `create_choice_field`, in the order it makes them. */
  lemma CreateChoiceFieldErrors(args: Args, now: nat)
    ensures !Truthy(Arg(args, "field_type")) ==> CreateChoiceField(args, now) == Err(ParamMissing("field_type"))
    ensures Truthy(Arg(args, "field_type")) && !Truthy(Arg(args, "label")) ==> CreateChoiceField(args, now) == Err(ParamMissing("label"))
    ensures Truthy(Arg(args, "field_type")) && Truthy(Arg(args, "label")) && !Truthy(Arg(args, "choices"))
      ==> CreateChoiceField(args, now) == Err(ParamMissing("choices"))
    ensures Truthy(Arg(args, "field_type")) && Truthy(Arg(args, "label")) && Truthy(Arg(args, "choices"))
      ==> (CreateChoiceField(args, now).Ok? ==> Arg(args, "choices").JArr? && StrIn(Arg(args, "field_type"), ChoiceTypes))
    ensures (Truthy(Arg(args, "field_type")) && Truthy(Arg(args, "label")) && Truthy(Arg(args, "choices"))
             && !Arg(args, "choices").JArr?) ==> CreateChoiceField(args, now) == Err(ChoicesNotList)
  {
  }

  /**
   * What `create_choice_field` returns once its checks pass: the definition
   * assembled from the given type, the given or generated code, the label,
   * `required` (false by default), the choices as options and `align`
   * (horizontal by default).
   */
  lemma CreateChoiceFieldConfig(args: Args, now: nat)
    requires CreateChoiceField(args, now).Ok?
    ensures Arg(args, "choices").JArr? && Arg(args, "choices").items != [] && Arg(args, "field_type").JStr?
    ensures DictFrom(Choices, Arg(args, "choices").items, 0, []).Ok?
    ensures CreateChoiceField(args, now).value ==
      ChoiceConfig(Arg(args, "field_type").s, ArgCode(args, now).value, Arg(args, "label"), ArgOr(args, "required", JBool(false)),
                   DictFrom(Choices, Arg(args, "choices").items, 0, []).value, Arg(args, "choices").items,
                   ArgOr(args, "align", JStr("HORIZONTAL")))
  {
  }

  /**
   * With non-empty string choices the options of the returned definition
   * pass `validate_options` for its type: the definition is one the field
   * validator accepts as far as its options go.
   */
  lemma CreateChoiceFieldOptionsAccepted(args: Args, now: nat)
    requires StrIn(Arg(args, "field_type"), ChoiceTypes) && Truthy(Arg(args, "label"))
    requires Truthy(Arg(args, "code")) || Arg(args, "label").JStr?
    requires Arg(args, "choices").JArr? && Arg(args, "choices").items != []
    requires forall j :: 0 <= j < |Arg(args, "choices").items| ==>
      Arg(args, "choices").items[j].JStr? && Arg(args, "choices").items[j].s != []
    ensures CreateChoiceField(args, now).Ok?
    ensures var r := CreateChoiceField(args, now).value;
      FieldValidator.OptionsVerdict(Get(r, "type"), Get(r, "options")).Ok?
  {
    var choices := Arg(args, "choices").items;
    ChoiceOptionsAccepted(choices);
    var options := DictFrom(Choices, choices, 0, []).value;
    assert Truthy(Arg(args, "choices"));
    CreateChoiceFieldConfig(args, now);
    ChoiceConfigFields(Arg(args, "field_type").s, ArgCode(args, now).value, Arg(args, "label"), ArgOr(args, "required", JBool(false)),
                       options, choices, ArgOr(args, "align", JStr("HORIZONTAL")));
    assert Arg(args, "field_type").s in Constants.FieldTypesRequiringOptions;
    FieldValidator.OptionsVerdictOk(Arg(args, "field_type").s, JObj(options));
    forall i | 0 <= i < |options| ensures FieldValidator.OptionAcceptable(options[i].0, options[i].1) {
      assert options[i] in options;
    }
  }

  // create_reference_table_field.

  /** `relatedApp`: the app code when truthy, else the app id when truthy, else empty. */
  function RelatedApp(appId: Json, appCode: Json): (r: Json)
    ensures r.JObj?
    ensures Truthy(appCode) ==> Has(r, "code") && Get(r, "code") == appCode && !Has(r, "app")
    ensures !Truthy(appCode) && Truthy(appId) ==> Has(r, "app") && Get(r, "app") == appId && !Has(r, "code")
    ensures Truthy(r) <==> Truthy(appCode) || Truthy(appId)
  {
    if Truthy(appCode) then JObj([("code", appCode)])
    else if Truthy(appId) then JObj([("app", appId)])
    else JObj([])
  }

  /** `members + [(k, v)]` when `cond` holds: how the handler adds an optional setting under a new key. */
  function AddIf(m: Members, cond: bool, k: string, v: Json): (r: Members)
    ensures |m| <= |r| <= |m| + 1 && r[..|m|] == m
    ensures cond ==> r == m + [(k, v)]
    ensures !cond ==> r == m
  {
    if cond then m + [(k, v)] else m
  }

  /** `{"field": ..., "relatedField": ...}`, the condition that links the two apps' records. */
  function Condition(field: Json, relatedField: Json): (r: Json)
    ensures r.JObj? && Get(r, "field") == field && Get(r, "relatedField") == relatedField
  {
    var m := [("field", field), ("relatedField", relatedField)];
    IndexOfFirst(m, "field", 0);
    IndexOfFirst(m, "relatedField", 1);
    JObj(m)
  }

  /**
   * The `referenceTable` entries before the size: the related app and the
   * condition, then the filter, the display fields (a non-empty list) and the
   * sort when each is given.
   */
  function TableEntries(args: Args): (m: Members)
    ensures |m| >= 2 && m[0].0 == "relatedApp" && m[1].0 == "condition"
    ensures m[0].1 == RelatedApp(Arg(args, "relatedAppId"), Arg(args, "relatedAppCode"))
    ensures m[1].1 == Condition(Arg(args, "conditionField"), Arg(args, "relatedConditionField"))
    ensures forall i :: 0 <= i < |m| ==> m[i].0 != "size"
  {
    TableKeysFacts();
    var m := [("relatedApp", RelatedApp(Arg(args, "relatedAppId"), Arg(args, "relatedAppCode"))),
              ("condition", Condition(Arg(args, "conditionField"), Arg(args, "relatedConditionField")))];
    var m := AddIf(m, Truthy(Arg(args, "filterCond")), "filterCond", Arg(args, "filterCond"));
    var displayFields := Arg(args, "displayFields");
    var m := AddIf(m, Truthy(displayFields) && displayFields.JArr?, "displayFields", displayFields);
    AddIf(m, Truthy(Arg(args, "sort")), "sort", Arg(args, "sort"))
  }

  /** The `referenceTable` setting: its entries, then `str(size)` when a size is given. */
  function ReferenceTable(args: Args): (r: Result<Json, ToolError>)
    ensures r.Ok? ==> r.value.JObj?
  {
    var m := TableEntries(args);
    if !Truthy(Arg(args, "size")) then Ok(JObj(m))
    else
      match PyStr(Arg(args, "size"))
      case None => Err(TypeFault)
      case Some(size) => Ok(JObj(m + [("size", JStr(size))]))
  }

  /** The keys of a reference-table definition, in the order the handler sets them. */
  const ReferenceKeys: seq<string> := ["type", "code", "label", "noLabel", "referenceTable"]

  lemma ReferenceKeysFacts()
    ensures Distinct(ReferenceKeys)
  {
  }

  /** The field definition `create_reference_table_field` returns, or the error it raises first. */
  function CreateReferenceTableField(args: Args, now: nat): (r: Result<Json, ToolError>)
    ensures r.Ok? ==> r.value.JObj?
  {
    if !Truthy(Arg(args, "label")) then Err(ParamMissing("label"))
    else if !Truthy(Arg(args, "conditionField")) then Err(ParamMissing("conditionField"))
    else if !Truthy(Arg(args, "relatedConditionField")) then Err(ParamMissing("relatedConditionField"))
    else if !Truthy(Arg(args, "relatedAppId")) && !Truthy(Arg(args, "relatedAppCode")) then Err(RelatedAppMissing)
    else
      match ArgCode(args, now)
      case Err(e) => Err(e)
      case Ok(code) =>
        match ReferenceTable(args)
        case Err(e) => Err(e)
        case Ok(table) =>
          Ok(Display(ReferenceKeys, [JStr(Constants.ReferenceTableType), code, Arg(args, "label"),
                                     ArgOr(args, "noLabel", JBool(true)), table]))
  }

  /** The keys the reference table may hold, none of which is `size` except the last. */
  lemma TableKeysFacts()
    ensures "relatedApp" != "condition" && "relatedApp" != "size" && "condition" != "size"
    ensures "filterCond" != "size" && "displayFields" != "size" && "sort" != "size"
  {
  }

  /**
   * The reference table names the related app and the condition, and holds
   * `str(size)` exactly when a size is given.
   */
  lemma ReferenceTableParts(args: Args)
    requires ReferenceTable(args).Ok?
    ensures var t := ReferenceTable(args).value;
      Get(t, "relatedApp") == RelatedApp(Arg(args, "relatedAppId"), Arg(args, "relatedAppCode"))
      && Get(t, "condition") == Condition(Arg(args, "conditionField"), Arg(args, "relatedConditionField"))
      && Get(t, "size") == (if Truthy(Arg(args, "size")) then JStr(PyStr(Arg(args, "size")).value) else JNull)
  {
    var m := ReferenceTable(args).value.members;
    var entries := TableEntries(args);
    TableKeysFacts();
    IndexOfFirst(m, "relatedApp", 0);
    IndexOfFirst(m, "condition", 1);
    if Truthy(Arg(args, "size")) {
      assert forall i :: 0 <= i < |entries| ==> m[i] == entries[i];
      IndexOfFirst(m, "size", |m| - 1);
    }
  }

  /** The argument checks of `create_reference_table_field`, in the order it makes them. */
  lemma CreateReferenceTableFieldErrors(args: Args, now: nat)
    ensures !Truthy(Arg(args, "label")) ==> CreateReferenceTableField(args, now) == Err(ParamMissing("label"))
    ensures Truthy(Arg(args, "label")) && !Truthy(Arg(args, "conditionField"))
      ==> CreateReferenceTableField(args, now) == Err(ParamMissing("conditionField"))
    ensures Truthy(Arg(args, "label")) && Truthy(Arg(args, "conditionField")) && !Truthy(Arg(args, "relatedConditionField"))
      ==> CreateReferenceTableField(args, now) == Err(ParamMissing("relatedConditionField"))
    ensures (Truthy(Arg(args, "label")) && Truthy(Arg(args, "conditionField")) && Truthy(Arg(args, "relatedConditionField"))
             && !Truthy(Arg(args, "relatedAppId")) && !Truthy(Arg(args, "relatedAppCode")))
      ==> CreateReferenceTableField(args, now) == Err(RelatedAppMissing)
  {
  }

  /**
   * The definition `create_reference_table_field` returns is a
   * REFERENCE_TABLE field with the given or generated code, the label, a
   * hidden label unless `noLabel` says otherwise, and the reference table.
   */
  lemma CreateReferenceTableFieldConfig(args: Args, now: nat)
    requires CreateReferenceTableField(args, now).Ok?
    ensures ArgCode(args, now).Ok? && ReferenceTable(args).Ok?
    ensures var r := CreateReferenceTableField(args, now).value;
      Get(r, "type") == JStr(Constants.ReferenceTableType) && Get(r, "code") == ArgCode(args, now).value
      && Get(r, "label") == Arg(args, "label") && Get(r, "noLabel") == ArgOr(args, "noLabel", JBool(true))
      && Get(r, "referenceTable") == ReferenceTable(args).value
  {
    var values := [JStr(Constants.ReferenceTableType), ArgCode(args, now).value, Arg(args, "label"),
                   ArgOr(args, "noLabel", JBool(true)), ReferenceTable(args).value];
    assert CreateReferenceTableField(args, now).value == Display(ReferenceKeys, values);
    ReferenceKeysFacts();
    DisplayAt(ReferenceKeys, values, 0); DisplayAt(ReferenceKeys, values, 1); DisplayAt(ReferenceKeys, values, 2);
    DisplayAt(ReferenceKeys, values, 3); DisplayAt(ReferenceKeys, values, 4);
  }

  /**
   * The reference table `create_reference_table_field` builds passes the
   * field validator's reference-table check exactly when no size is given or
   * `str(size)` is one of the allowed sizes.
   */
  lemma CreateReferenceTableFieldAccepted(args: Args, now: nat)
    requires CreateReferenceTableField(args, now).Ok?
    ensures var r := CreateReferenceTableField(args, now).value;
      var size := Arg(args, "size");
      FieldValidator.ReferenceTableCheck(Get(r, "referenceTable")).Ok?
      <==> !Truthy(size) || PyStr(size).value in FieldValidator.ReferenceSizeStrings
  {
    CreateReferenceTableFieldConfig(args, now);
    ReferenceTableParts(args);
    var t := ReferenceTable(args).value;
    TableAccepted(t, Arg(args, "relatedAppId"), Arg(args, "relatedAppCode"),
                  Arg(args, "conditionField"), Arg(args, "relatedConditionField"), Arg(args, "size"));
  }

  /** A table naming a related app and both condition fields is accepted exactly when its size is. */
  lemma TableAccepted(t: Json, appId: Json, appCode: Json, field: Json, relatedField: Json, size: Json)
    requires t.JObj? && (Truthy(appId) || Truthy(appCode)) && Truthy(field) && Truthy(relatedField)
    requires Truthy(size) ==> PyStr(size).Some?
    requires Get(t, "relatedApp") == RelatedApp(appId, appCode)
    requires Get(t, "condition") == Condition(field, relatedField)
    requires Get(t, "size") == (if Truthy(size) then JStr(PyStr(size).value) else JNull)
    ensures FieldValidator.ReferenceTableCheck(t).Ok?
      <==> !Truthy(size) || PyStr(size).value in FieldValidator.ReferenceSizeStrings
  {
    FieldValidator.ReferenceTableCheckComplete(t);
    if Truthy(size) {
      StringSizeAllowed(PyStr(size).value);
    }
  }

  /** A size given as a string is allowed exactly when it is one of the allowed strings. */
  lemma StringSizeAllowed(s: string)
    ensures FieldValidator.ReferenceSizeAllowed(JStr(s)) <==> s in FieldValidator.ReferenceSizeStrings
  {
    assert forall n :: !NumEquals(JStr(s), n);
  }

  // create_lookup_field.

  /** Why one field mapping is refused, checked in the handler's order; `None` when it is acceptable. */
  function MappingFault(mapping: Json, index: nat, key: Json): (r: Option<ToolError>)
    ensures r.None? <==> mapping.JObj? && Truthy(Get(mapping, "field")) && Truthy(Get(mapping, "relatedField"))
                         && !PyEq(Get(mapping, "relatedField"), key)
  {
    if !mapping.JObj? then Some(TypeFault)
    else if !Truthy(Get(mapping, "field")) then Some(MappingFieldMissing(index))
    else if !Truthy(Get(mapping, "relatedField")) then Some(MappingRelatedFieldMissing(index))
    else if PyEq(Get(mapping, "relatedField"), key) then Some(MappingContainsKey)
    else None
  }

  /** The first refusal among `mappings[i..]`, as the handler's loop raises it. */
  function MappingsVerdict(mappings: seq<Json>, key: Json, i: nat): (r: Option<ToolError>)
    requires i <= |mappings|
    decreases |mappings| - i
  {
    if i == |mappings| then None
    else match MappingFault(mappings[i], i, key)
      case Some(e) => Some(e)
      case None => MappingsVerdict(mappings, key, i + 1)
  }

  /**
   * The mappings from `i` on are accepted exactly when each of them is, and
   * a refusal is the fault of the first mapping that has one.
   */
  lemma MappingsVerdictFirst(mappings: seq<Json>, key: Json, i: nat)
    requires i <= |mappings|
    ensures MappingsVerdict(mappings, key, i).None?
      <==> forall j :: i <= j < |mappings| ==> MappingFault(mappings[j], j, key).None?
    ensures MappingsVerdict(mappings, key, i).Some? ==>
      exists j :: i <= j < |mappings| && MappingsVerdict(mappings, key, i) == MappingFault(mappings[j], j, key)
        && forall l :: i <= l < j ==> MappingFault(mappings[l], l, key).None?
  {
    MappingsVerdictNone(mappings, key, i);
    MappingsVerdictSome(mappings, key, i);
  }

  lemma {:induction false} MappingsVerdictNone(mappings: seq<Json>, key: Json, i: nat)
    requires i <= |mappings|
    ensures MappingsVerdict(mappings, key, i).None?
      <==> forall j :: i <= j < |mappings| ==> MappingFault(mappings[j], j, key).None?
    decreases |mappings| - i
  {
    if i < |mappings| {
      MappingsVerdictNone(mappings, key, i + 1);
      if MappingsVerdict(mappings, key, i).None? {
        assert MappingFault(mappings[i], i, key).None?;
        forall j | i <= j < |mappings|
          ensures MappingFault(mappings[j], j, key).None?
        {
          if j == i {
          }
        }
      } else if MappingFault(mappings[i], i, key).None? {
        assert MappingsVerdict(mappings, key, i + 1).Some?;
      }
    }
  }

  lemma {:induction false} MappingsVerdictSome(mappings: seq<Json>, key: Json, i: nat)
    requires i <= |mappings|
    ensures MappingsVerdict(mappings, key, i).Some? ==>
      exists j :: i <= j < |mappings| && MappingsVerdict(mappings, key, i) == MappingFault(mappings[j], j, key)
        && forall l :: i <= l < j ==> MappingFault(mappings[l], l, key).None?
    decreases |mappings| - i
  {
    if i < |mappings| {
      if MappingFault(mappings[i], i, key).Some? {
        assert MappingsVerdict(mappings, key, i) == MappingFault(mappings[i], i, key);
      } else {
        assert MappingsVerdict(mappings, key, i) == MappingsVerdict(mappings, key, i + 1);
        MappingsVerdictSome(mappings, key, i + 1);
        if MappingsVerdict(mappings, key, i + 1).Some? {
          var j :| i + 1 <= j < |mappings| && MappingsVerdict(mappings, key, i + 1) == MappingFault(mappings[j], j, key)
            && forall l :: i + 1 <= l < j ==> MappingFault(mappings[l], l, key).None?;
          assert forall l :: i <= l < j ==> MappingFault(mappings[l], l, key).None?;
        }
      }
    }
  }

  /** The handler's loop over `fieldMappings`, raising at the first mapping it refuses. */
  method CheckFieldMappings(mappings: seq<Json>, key: Json) returns (r: Option<ToolError>)
    ensures r == MappingsVerdict(mappings, key, 0)
  {
    for i := 0 to |mappings|
      invariant MappingsVerdict(mappings, key, 0) == MappingsVerdict(mappings, key, i)
    {
      var fault := MappingFault(mappings[i], i, key);
      if fault.Some? {
        return fault;
      }
    }
    return None;
  }

  /** `int(LOOKUP_FIELD_MIN_WIDTH)`. */
  const MinWidth: int := 250

  lemma MinWidthParses()
    ensures PyInt(JStr(Constants.LookupFieldMinWidth)) == Some(MinWidth)
  {
    assert Text.NatToString(25) == Text.NatToString(2) + ['5'];
    assert Text.NatToString(250) == "250";
    Text.IntToStringRoundTrip(250);
  }

  /**
   * The `size` of a lookup definition: `{"width": "250"}` when no size is
   * given, else `dict(size)` whose width is raised to "250" when it is
   * missing or below 250.
   */
  function LookupSize(size: Json): (r: Result<Json, ToolError>)
    ensures r.Ok? ==> r.value.JObj?
  {
    if !Truthy(size) then Ok(JObj([("width", JStr(Constants.LookupFieldMinWidth))]))
    else match PyDict(size)
      case None => Err(TypeFault)
      case Some(m) => Widened(JObj(m))
  }

  /** The copied size with its width raised to "250" when missing, falsy or `int()`-below 250. */
  function Widened(d: Json): (r: Result<Json, ToolError>)
    requires d.JObj?
    ensures r.Ok? ==> r.value.JObj?
  {
    var minimum := JStr(Constants.LookupFieldMinWidth);
    if !Truthy(Get(d, "width")) then Ok(Set(d, "width", minimum))
    else match PyInt(Get(d, "width"))
      case None => Err(TypeFault)
      case Some(w) => if w < MinWidth then Ok(Set(d, "width", minimum)) else Ok(d)
  }

  /**
   * A lookup definition's width is never below the minimum; a given width
   * that already reaches it and every other size setting of `dict(size)`
   * are kept.
   */
  lemma LookupSizeWidth(size: Json)
    requires LookupSize(size).Ok?
    ensures var r := LookupSize(size).value;
      PyInt(Get(r, "width")).Some? && PyInt(Get(r, "width")).value >= MinWidth
    ensures Truthy(size) ==> (PyDict(size).Some? &&
      forall k :: k != "width" ==> Get(LookupSize(size).value, k) == Get(JObj(PyDict(size).value), k))
    ensures !Truthy(size) ==> forall k :: k != "width" ==> Get(LookupSize(size).value, k) == JNull
    ensures (size.JObj? && Truthy(size) && Truthy(Get(size, "width")) && PyInt(Get(size, "width")).Some?
             && PyInt(Get(size, "width")).value >= MinWidth) ==> LookupSize(size) == Ok(size)
  {
    MinWidthParses();
    if !Truthy(size) {
      IndexOfFirst([("width", JStr(Constants.LookupFieldMinWidth))], "width", 0);
    } else {
      var m := PyDict(size).value;
      assert LookupSize(size) == Widened(JObj(m));
      WidenedWidth(JObj(m));
    }
  }

  lemma WidenedWidth(d: Json)
    requires d.JObj? && Widened(d).Ok?
    ensures var r := Widened(d).value;
      PyInt(Get(r, "width")).Some? && PyInt(Get(r, "width")).value >= MinWidth
    ensures forall k :: k != "width" ==> Get(Widened(d).value, k) == Get(d, k)
    ensures (Truthy(Get(d, "width")) && PyInt(Get(d, "width")).Some? && PyInt(Get(d, "width")).value >= MinWidth)
      ==> Widened(d) == Ok(d)
  {
    MinWidthParses();
  }

  /** A size given as a non-empty list of key-value pairs is read as the dict they make. */
  lemma LookupSizeFromPairs(items: seq<Json>, ps: seq<(string, Json)>)
    requires items != [] && PairsOf(items) == Some(ps)
    ensures LookupSize(JArr(items)) == LookupSize(JObj(Assigned([], ps)))
  {
    var m := Assigned([], ps);
    var w := Widened(JObj(m));
    assert Truthy(JArr(items)) && PyDict(JArr(items)) == Some(m);
    assert LookupSize(JArr(items)) == w;
    AssignedNonEmpty([], ps);
    assert Truthy(JObj(m)) && PyDict(JObj(m)) == Some(m);
  }

  /** A truthy size that is neither a dict nor a list is an error, as `dict()` raises on it. */
  lemma LookupSizeNotDict(size: Json)
    requires Truthy(size) && !size.JObj? && !size.JArr?
    ensures LookupSize(size) == Err(TypeFault)
  {
  }

  /** `[["width", "300"]]` gives the size `{"width": "300"}`, as `dict` does. */
  lemma WidthPairKept()
    ensures LookupSize(JArr([JArr([JStr("width"), JStr("300")])])) == Ok(JObj([("width", JStr("300"))]))
  {
    var items := [JArr([JStr("width"), JStr("300")])];
    var ps := [("width", JStr("300"))];
    WidthPairRead(items, ps);
    var d := JObj(ps);
    assert Assigned([], ps) == d.members by {
      assert Put([], "width", JStr("300")) == d.members;
    }
    LookupSizeFromPairs(items, ps);
    WidthKept(d);
  }

  lemma WidthPairRead(items: seq<Json>, ps: seq<(string, Json)>)
    requires items == [JArr([JStr("width"), JStr("300")])] && ps == [("width", JStr("300"))]
    ensures PairsOf(items) == Some(ps)
  {
    assert items[..|items| - 1] == [] && items[|items| - 1] == items[0];
    assert PairsOf([]) == Some([]);
    assert PairOf(items[0]) == Some(("width", JStr("300")));
    assert PairsOf(items) == Some([] + [("width", JStr("300"))]);
    assert [] + [("width", JStr("300"))] == ps;
  }

  lemma WidthKept(d: Json)
    requires d == JObj([("width", JStr("300"))])
    ensures LookupSize(d) == Ok(d)
  {
    IndexOfFirst(d.members, "width", 0);
    assert Get(d, "width") == JStr("300");
    ThreeHundredParses();
    assert Truthy(d) && Truthy(Get(d, "width"));
    LookupSizeWidth(d);
  }

  lemma ThreeHundredParses()
    ensures PyInt(JStr("300")) == Some(300)
  {
    assert Text.NatToString(30) == Text.NatToString(3) + ['0'];
    assert Text.NatToString(300) == "300";
    Text.IntToStringRoundTrip(300);
  }

  /** `key + " asc"`, the default sort; `str(key)` outside its modelled scope is the error. */
  function DefaultSort(key: Json): (r: Result<Json, ToolError>)
    ensures key.JStr? ==> r == Ok(JStr(key.s + " asc"))
  {
    match PyStr(key)
    case None => Err(TypeFault)
    case Some(s) => Ok(JStr(s + " asc"))
  }

  /** The first keys of the `lookup` setting, in the order the handler sets them. */
  const LookupHeadKeys: seq<string> := ["relatedApp", "relatedKeyField", "fieldMappings", "lookupPickerFields"]

  lemma LookupHeadKeysFacts()
    ensures Distinct(LookupHeadKeys)
    ensures forall i :: 0 <= i < |LookupHeadKeys| ==> LookupHeadKeys[i] != "sort" && LookupHeadKeys[i] != "filterCond"
  {
  }

  /** The picker columns: the given list when it is a non-empty list, else the key field alone. */
  function PickerFields(pickers: Json, key: Json): (r: Json)
    ensures Truthy(pickers) && pickers.JArr? ==> r == pickers
    ensures !(Truthy(pickers) && pickers.JArr?) ==> r == JArr([key])
  {
    if Truthy(pickers) && pickers.JArr? then pickers else JArr([key])
  }

  /** The `lookup` setting: related app, key field, mappings, picker fields, the filter when given, and the sort. */
  function LookupSetting(args: Args): (r: Result<Json, ToolError>)
    ensures r.Ok? ==> r.value.JObj?
  {
    var key := Arg(args, "relatedKeyField");
    var sort := if Truthy(Arg(args, "sort")) then Ok(Arg(args, "sort")) else DefaultSort(key);
    match sort
    case Err(e) => Err(e)
    case Ok(s) =>
      var head := Display(LookupHeadKeys, [RelatedApp(Arg(args, "relatedAppId"), Arg(args, "relatedAppCode")), key,
                                           Arg(args, "fieldMappings"), PickerFields(Arg(args, "lookupPickerFields"), key)]);
      var m := AddIf(head.members, Truthy(Arg(args, "filterCond")), "filterCond", Arg(args, "filterCond"));
      Ok(JObj(m + [("sort", s)]))
  }

  /**
   * The `lookup` setting prefers the app code over the app id, keeps the key
   * field and the mappings, and defaults the picker fields to `[key]`.
   */
  lemma LookupSettingHead(args: Args)
    requires LookupSetting(args).Ok?
    ensures var l := LookupSetting(args).value; var key := Arg(args, "relatedKeyField");
      Get(l, "relatedApp") == RelatedApp(Arg(args, "relatedAppId"), Arg(args, "relatedAppCode"))
      && Get(l, "relatedKeyField") == key && Get(l, "fieldMappings") == Arg(args, "fieldMappings")
      && Get(l, "lookupPickerFields") == PickerFields(Arg(args, "lookupPickerFields"), key)
  {
    var key := Arg(args, "relatedKeyField");
    var values := [RelatedApp(Arg(args, "relatedAppId"), Arg(args, "relatedAppCode")), key,
                   Arg(args, "fieldMappings"), PickerFields(Arg(args, "lookupPickerFields"), key)];
    var head := Display(LookupHeadKeys, values);
    var s := if Truthy(Arg(args, "sort")) then Arg(args, "sort") else DefaultSort(key).value;
    var r := AddIf(head.members, Truthy(Arg(args, "filterCond")), "filterCond", Arg(args, "filterCond"));
    var m := r + [("sort", s)];
    assert LookupSetting(args).value == JObj(m);
    assert m[..4] == r[..4];
    LookupHeadKeysFacts();
    DisplayPrefixGet(LookupHeadKeys, values, m, 0);
    DisplayPrefixGet(LookupHeadKeys, values, m, 1);
    DisplayPrefixGet(LookupHeadKeys, values, m, 2);
    DisplayPrefixGet(LookupHeadKeys, values, m, 3);
  }

  /** Members that start with a display of distinct keys hold each of its values. */
  lemma DisplayPrefixGet(keys: seq<string>, values: seq<Json>, m: Members, i: nat)
    requires |keys| == |values| && Distinct(keys) && i < |keys| <= |m|
    requires m[..|keys|] == Display(keys, values).members
    ensures Get(JObj(m), keys[i]) == values[i]
  {
    assert m[i] == m[..|keys|][i];
    forall j | 0 <= j < i
      ensures m[j].0 != keys[i]
    {
      assert m[j] == m[..|keys|][j];
    }
    IndexOfFirst(m, keys[i], i);
  }

  /** The `lookup` setting's sort defaults to `"<key> asc"`, and it holds the filter exactly when one is given. */
  lemma LookupSettingTail(args: Args)
    requires LookupSetting(args).Ok?
    ensures var l := LookupSetting(args).value; var key := Arg(args, "relatedKeyField");
      Get(l, "sort") == (if Truthy(Arg(args, "sort")) then Arg(args, "sort") else DefaultSort(key).value)
      && Get(l, "filterCond") == (if Truthy(Arg(args, "filterCond")) then Arg(args, "filterCond") else JNull)
  {
    var key := Arg(args, "relatedKeyField");
    var s := if Truthy(Arg(args, "sort")) then Arg(args, "sort") else DefaultSort(key).value;
    var head := Display(LookupHeadKeys, [RelatedApp(Arg(args, "relatedAppId"), Arg(args, "relatedAppCode")), key,
                                         Arg(args, "fieldMappings"), PickerFields(Arg(args, "lookupPickerFields"), key)]);
    assert LookupSetting(args).value.members
      == AddIf(head.members, Truthy(Arg(args, "filterCond")), "filterCond", Arg(args, "filterCond")) + [("sort", s)];
    LookupTailKeys(head.members, Truthy(Arg(args, "filterCond")), Arg(args, "filterCond"), s);
  }

  /** After the four head keys, the optional filter and the sort are found where they were appended. */
  lemma LookupTailKeys(head: Members, cond: bool, filter: Json, s: Json)
    requires |head| == 4 && forall i :: 0 <= i < 4 ==> head[i].0 == LookupHeadKeys[i]
    ensures var m := AddIf(head, cond, "filterCond", filter) + [("sort", s)];
      Get(JObj(m), "sort") == s && Get(JObj(m), "filterCond") == (if cond then filter else JNull)
  {
    var m := AddIf(head, cond, "filterCond", filter) + [("sort", s)];
    LookupHeadKeysFacts();
    assert forall i :: 0 <= i < 4 ==> m[i].0 == LookupHeadKeys[i];
    IndexOfFirst(m, "sort", |m| - 1);
    if cond {
      IndexOfFirst(m, "filterCond", 4);
    } else {
      assert forall i :: 0 <= i < |m| ==> m[i].0 != "filterCond";
    }
  }

  /** The keys of a lookup definition, in the order the handler sets them. */
  const LookupKeys: seq<string> := ["type", "code", "label", "required", "lookup", "size"]

  lemma LookupKeysFacts()
    ensures Distinct(LookupKeys)
  {
  }

  /** `field_type or "SINGLE_LINE_TEXT"` with `field_type = args.get("fieldType", "SINGLE_LINE_TEXT")`. */
  function LookupType(args: Args): (r: Json)
    ensures Truthy(Arg(args, "fieldType")) ==> r == Arg(args, "fieldType")
    ensures !Truthy(Arg(args, "fieldType")) ==> r == JStr(Constants.SingleLineTextType)
  {
    var fieldType := ArgOr(args, "fieldType", JStr(Constants.SingleLineTextType));
    if Truthy(fieldType) then fieldType else JStr(Constants.SingleLineTextType)
  }

  /** The field definition `create_lookup_field` returns, or the error it raises first. */
  function CreateLookupField(args: Args, now: nat): (r: Result<Json, ToolError>)
    ensures r.Ok? ==> r.value.JObj?
  {
    var mappings := Arg(args, "fieldMappings");
    if !Truthy(Arg(args, "label")) then Err(ParamMissing("label"))
    else if !Truthy(Arg(args, "relatedKeyField")) then Err(ParamMissing("relatedKeyField"))
    else if !Truthy(Arg(args, "relatedAppId")) && !Truthy(Arg(args, "relatedAppCode")) then Err(RelatedAppMissing)
    else
      match ArgCode(args, now)
      case Err(e) => Err(e)
      case Ok(code) =>
        if !Truthy(mappings) || !mappings.JArr? then Err(FieldMappingsInvalid)
        else match MappingsVerdict(mappings.items, Arg(args, "relatedKeyField"), 0)
          case Some(e) => Err(e)
          case None =>
            match LookupSize(Arg(args, "size"))
            case Err(e) => Err(e)
            case Ok(size) =>
              match LookupSetting(args)
              case Err(e) => Err(e)
              case Ok(lookup) =>
                Ok(Display(LookupKeys, [LookupType(args), code, Arg(args, "label"),
                                        ArgOr(args, "required", JBool(false)), lookup, size]))
  }

  /** The argument checks of `create_lookup_field`, in the order it makes them. */
  lemma CreateLookupFieldErrors(args: Args, now: nat)
    ensures !Truthy(Arg(args, "label")) ==> CreateLookupField(args, now) == Err(ParamMissing("label"))
    ensures Truthy(Arg(args, "label")) && !Truthy(Arg(args, "relatedKeyField"))
      ==> CreateLookupField(args, now) == Err(ParamMissing("relatedKeyField"))
    ensures Truthy(Arg(args, "label")) && Truthy(Arg(args, "relatedKeyField"))
      && !Truthy(Arg(args, "relatedAppId")) && !Truthy(Arg(args, "relatedAppCode"))
      ==> CreateLookupField(args, now) == Err(RelatedAppMissing)
    ensures (Truthy(Arg(args, "label")) && Truthy(Arg(args, "relatedKeyField"))
             && (Truthy(Arg(args, "relatedAppId")) || Truthy(Arg(args, "relatedAppCode"))) && ArgCode(args, now).Ok?
             && (!Truthy(Arg(args, "fieldMappings")) || !Arg(args, "fieldMappings").JArr?))
      ==> CreateLookupField(args, now) == Err(FieldMappingsInvalid)
  {
  }

  /**
   * A lookup definition is built only from a non-empty list of mappings,
   * each a dict with a field and a related field, none of which is the key
   * field; one refused mapping makes the handler fail.
   */
  lemma CreateLookupFieldMappings(args: Args, now: nat)
    requires Truthy(Arg(args, "label")) && Truthy(Arg(args, "relatedKeyField"))
    requires Truthy(Arg(args, "relatedAppId")) || Truthy(Arg(args, "relatedAppCode"))
    requires ArgCode(args, now).Ok?
    ensures var mappings := Arg(args, "fieldMappings"); var key := Arg(args, "relatedKeyField");
      CreateLookupField(args, now).Ok? ==>
        mappings.JArr? && mappings.items != []
        && forall j :: 0 <= j < |mappings.items| ==>
             mappings.items[j].JObj? && Truthy(Get(mappings.items[j], "field"))
             && Truthy(Get(mappings.items[j], "relatedField")) && !PyEq(Get(mappings.items[j], "relatedField"), key)
    ensures var mappings := Arg(args, "fieldMappings"); var key := Arg(args, "relatedKeyField");
      (mappings.JArr? && exists j :: 0 <= j < |mappings.items| && MappingFault(mappings.items[j], j, key).Some?)
      ==> CreateLookupField(args, now).Err?
  {
    var mappings := Arg(args, "fieldMappings");
    if mappings.JArr? {
      MappingsVerdictFirst(mappings.items, Arg(args, "relatedKeyField"), 0);
    }
  }

  /**
   * The definition `create_lookup_field` returns: the field type (default
   * SINGLE_LINE_TEXT), the given or generated code, the label, `required`
   * (default false), the lookup setting and the size.
   */
  lemma CreateLookupFieldConfig(args: Args, now: nat)
    requires CreateLookupField(args, now).Ok?
    ensures ArgCode(args, now).Ok? && LookupSize(Arg(args, "size")).Ok? && LookupSetting(args).Ok?
    ensures var r := CreateLookupField(args, now).value;
      Get(r, "type") == LookupType(args) && Get(r, "code") == ArgCode(args, now).value
      && Get(r, "label") == Arg(args, "label") && Get(r, "required") == ArgOr(args, "required", JBool(false))
      && Get(r, "lookup") == LookupSetting(args).value && Get(r, "size") == LookupSize(Arg(args, "size")).value
  {
    var values := [LookupType(args), ArgCode(args, now).value, Arg(args, "label"),
                   ArgOr(args, "required", JBool(false)), LookupSetting(args).value, LookupSize(Arg(args, "size")).value];
    assert CreateLookupField(args, now).value == Display(LookupKeys, values);
    LookupKeysFacts();
    DisplayAt(LookupKeys, values, 0); DisplayAt(LookupKeys, values, 1); DisplayAt(LookupKeys, values, 2);
    DisplayAt(LookupKeys, values, 3); DisplayAt(LookupKeys, values, 4); DisplayAt(LookupKeys, values, 5);
  }

  /** The width of every lookup definition `create_lookup_field` returns is at least 250. */
  lemma CreateLookupFieldWidth(args: Args, now: nat)
    requires CreateLookupField(args, now).Ok?
    ensures var size := Get(CreateLookupField(args, now).value, "size");
      size.JObj? && PyInt(Get(size, "width")).Some? && PyInt(Get(size, "width")).value >= MinWidth
  {
    CreateLookupFieldConfig(args, now);
    LookupSizeWidth(Arg(args, "size"));
  }

  // update_field.

  /** The system field types `update_field` refuses to change. */
  const UpdateBlockedTypes: seq<string> := ["RECORD_NUMBER", "CREATOR", "MODIFIER", "CREATED_TIME", "UPDATED_TIME"]

  /**
   * The blocked types are system field types; the record id and revision
   * types are system types the handler does not block.
   */
  lemma UpdateBlockedTypesFacts()
    ensures forall t :: t in UpdateBlockedTypes ==> t in Constants.SystemFieldTypes
    ensures "__ID__" !in UpdateBlockedTypes && "__REVISION__" !in UpdateBlockedTypes
    ensures |UpdateBlockedTypes| == 5
  {
  }

  /**
   * The `properties` that `update_field` sends to the repository,
   * `{field_code: validate_field(field)}`, or the error it raises first.
   */
  function UpdateField(args: Args): (r: Result<Json, ToolError>)
    ensures r.Ok? ==> r.value.JObj?
  {
    var field := Arg(args, "field");
    if !Truthy(Arg(args, "app_id")) then Err(ParamMissing("app_id"))
    else if !Truthy(Arg(args, "field_code")) then Err(ParamMissing("field_code"))
    else if !Truthy(field) then Err(ParamMissing("field"))
    else if !field.JObj? then Err(FieldNotObject)
    else if !Truthy(Get(field, "type")) then Err(TypeMissing)
    else if StrIn(Get(field, "type"), UpdateBlockedTypes) then Err(SystemFieldTypeNotUpdatable(Get(field, "type").s))
    else match FieldValidator.ValidateField(field)
      case Err(e) => Err(Invalid(e))
      case Ok(validated) =>
        if Arg(args, "field_code").JStr? then Ok(JObj([(Arg(args, "field_code").s, validated)]))
        else Err(TypeFault)
  }

  /** The argument checks of `update_field`, in the order it makes them. */
  lemma UpdateFieldErrors(args: Args)
    ensures !Truthy(Arg(args, "app_id")) ==> UpdateField(args) == Err(ParamMissing("app_id"))
    ensures Truthy(Arg(args, "app_id")) && !Truthy(Arg(args, "field_code"))
      ==> UpdateField(args) == Err(ParamMissing("field_code"))
    ensures Truthy(Arg(args, "app_id")) && Truthy(Arg(args, "field_code")) && !Truthy(Arg(args, "field"))
      ==> UpdateField(args) == Err(ParamMissing("field"))
    ensures (Truthy(Arg(args, "app_id")) && Truthy(Arg(args, "field_code")) && Truthy(Arg(args, "field"))
             && !Arg(args, "field").JObj?) ==> UpdateField(args) == Err(FieldNotObject)
    ensures (Truthy(Arg(args, "app_id")) && Truthy(Arg(args, "field_code")) && Arg(args, "field").JObj?
             && Truthy(Arg(args, "field")) && !Truthy(Get(Arg(args, "field"), "type")))
      ==> UpdateField(args) == Err(TypeMissing)
  {
  }

  /** A well-formed request whose field has one of the five blocked types is refused, naming the type. */
  lemma UpdateFieldRejectsSystemTypes(args: Args, t: string)
    requires Truthy(Arg(args, "app_id")) && Truthy(Arg(args, "field_code")) && Arg(args, "field").JObj?
    requires Truthy(Arg(args, "field")) && t in UpdateBlockedTypes && Get(Arg(args, "field"), "type") == JStr(t)
    ensures UpdateField(args) == Err(SystemFieldTypeNotUpdatable(t))
  {
  }

  /**
   * An accepted update holds exactly one property, under the field code,
   * and it is the validated field, whose type is not a blocked one.
   */
  lemma UpdateFieldProperties(args: Args)
    requires UpdateField(args).Ok?
    ensures var field := Arg(args, "field"); var p := UpdateField(args).value;
      field.JObj? && Arg(args, "field_code").JStr? && FieldValidator.ValidateField(field).Ok?
      && p.members == [(Arg(args, "field_code").s, FieldValidator.ValidateField(field).value)]
      && Truthy(Get(field, "type")) && !StrIn(Get(field, "type"), UpdateBlockedTypes)
  {
  }
}
