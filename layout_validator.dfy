/**
 * The strict form-layout validator (repositories/validators/layout_validator.py).
 * Its checks fill in defaults on the element they are given and raise at the
 * first rule an element breaks; here each check returns the element as it
 * stands after its defaults were filled in, or the error it raises.
 */
module LayoutValidator {
  import opened Wrappers
  import opened Json
  import Text

  datatype LayoutError =
    | TypeNotAllowed(allowed: seq<string>)
    | GroupWithOthers
    | SubtableInRow
    | LabelValueMissing(index: nat)
    | ReferenceTableCodeMissing(index: nat)
    | GroupCodeMissing
    | GroupHasFields
    | SubtableInGroup
    | GroupInGroup
    | NonRowInGroup
    | SubtableCodeMissing
    | GroupInSubtable
    | LayoutNotList
    | SizeNotObject
    | SizeNotNumeric(dimension: string)
    | SizeNotPositive(dimension: string)
    | PositionNotObject
    | IndexInvalid
    | GroupCodeRequired
    | AfterAndBefore
    | TargetInvalid
      /** A `.get` or subscript on a value that is not a dict, which raises in Python. */
    | NotADict

  const RowTypes: seq<string> := ["ROW"]
  const GroupTypes: seq<string> := ["GROUP"]
  const SubtableTypes: seq<string> := ["SUBTABLE"]
  const TopLevelTypes: seq<string> := ["ROW", "GROUP", "SUBTABLE"]
  const InlineTypes: seq<string> := ["LABEL", "SPACER", "HR", "REFERENCE_TABLE"]

  /** `element.get("type") == t`. */
  predicate TypeIs(element: Json, t: string)
    requires element.JObj?
  {
    Get(element, "type") == JStr(t)
  }

  /**
   * `validate_layout_element_type`: a missing or `None` type becomes the
   * first allowed type ("ROW" when none are given), then a type outside a
   * non-empty allowed list raises.
   */
  function ElementType(element: Json, allowed: seq<string>): (r: Result<Json, LayoutError>)
    requires element.JObj?
    ensures r.Ok? ==> r.value.JObj?
  {
    var filled :=
      if !Has(element, "type") || Get(element, "type") == JNull
      then Set(element, "type", JStr(if allowed != [] then allowed[0] else "ROW"))
      else element;
    if allowed != [] && !StrIn(Get(filled, "type"), allowed) then Err(TypeNotAllowed(allowed))
    else Ok(filled)
  }

  /**
   * The type default is filled in before the membership check, so an untyped
   * element always passes and takes the first allowed type; a typed element
   * passes exactly when its type is allowed, and is then left as it was.
   */
  lemma ElementTypeFill(element: Json, allowed: seq<string>)
    requires element.JObj?
    ensures var r := ElementType(element, allowed);
      (!Has(element, "type") || Get(element, "type") == JNull) ==>
        r.Ok? && Get(r.value, "type") == JStr(if allowed != [] then allowed[0] else "ROW")
    ensures var r := ElementType(element, allowed);
      (Has(element, "type") && Get(element, "type") != JNull) ==>
        (r.Ok? <==> allowed == [] || StrIn(Get(element, "type"), allowed)) && (r.Ok? ==> r.value == element)
    ensures var r := ElementType(element, allowed);
      r.Ok? ==> forall k :: k != "type" ==> Get(r.value, k) == Get(element, k)
  {
  }

  /** How many of the entries carry the type tag `t`. */
  function CountTyped(items: seq<Json>, t: string): (n: nat)
    requires AllObjects(items)
    ensures n <= |items|
  {
    if items == [] then 0 else (if TypeIs(items[0], t) then 1 else 0) + CountTyped(items[1..], t)
  }

  /** No entry has the tag exactly when the count is zero, and every entry has it exactly when the count is full. */
  lemma {:induction false} CountTypedExtremes(items: seq<Json>, t: string)
    requires AllObjects(items)
    ensures CountTyped(items, t) == 0 <==> forall i :: 0 <= i < |items| ==> !TypeIs(items[i], t)
    ensures CountTyped(items, t) == |items| <==> forall i :: 0 <= i < |items| ==> TypeIs(items[i], t)
  {
    if items != [] {
      CountTypedExtremes(items[1..], t);
      assert forall i :: 1 <= i < |items| ==> items[i] == items[1..][i - 1];
    }
  }

  /** A row's `fields` once defaulted: `[]` when missing or `None`, a one-entry list around a non-list. */
  function RowFields(row: Json): (r: seq<Json>)
    requires row.JObj?
  {
    var fields := Get(row, "fields");
    if fields == JNull then [] else if fields.JArr? then fields.items else [fields]
  }

  /** Why the entry at `index` of a row is refused: a LABEL needs a value, a REFERENCE_TABLE a code. */
  function EntryFault(entry: Json, index: nat): (r: Option<LayoutError>)
    requires entry.JObj?
    ensures r.None? <==> (TypeIs(entry, "LABEL") ==> Truthy(Get(entry, "value")))
                         && (TypeIs(entry, "REFERENCE_TABLE") ==> Truthy(Get(entry, "code")))
  {
    if TypeIs(entry, "LABEL") && !Truthy(Get(entry, "value")) then Some(LabelValueMissing(index))
    else if TypeIs(entry, "REFERENCE_TABLE") && !Truthy(Get(entry, "code")) then Some(ReferenceTableCodeMissing(index))
    else None
  }

  /** The first refused entry of `entries[i..]`, as the row's loop meets it. */
  function EntriesFault(entries: seq<Json>, i: nat): (r: Option<LayoutError>)
    requires AllObjects(entries) && i <= |entries|
    ensures r.Some? ==> exists j :: i <= j < |entries| && r == EntryFault(entries[j], j)
    decreases |entries| - i
  {
    if i == |entries| then None
    else if EntryFault(entries[i], i).Some? then EntryFault(entries[i], i)
    else EntriesFault(entries, i + 1)
  }

  /** The row's loop finds no fault exactly when no entry has one. */
  lemma {:induction false} EntriesFaultNone(entries: seq<Json>, i: nat)
    requires AllObjects(entries) && i <= |entries|
    ensures EntriesFault(entries, i).None? <==> forall j :: i <= j < |entries| ==> EntryFault(entries[j], j).None?
    decreases |entries| - i
  {
    if i < |entries| {
      EntriesFaultNone(entries, i + 1);
      if EntriesFault(entries, i).None? {
        assert EntryFault(entries[i], i).None?;
        forall j | i <= j < |entries|
          ensures EntryFault(entries[j], j).None?
        {
          if j == i {
          }
        }
      } else if EntryFault(entries[i], i).None? {
        assert EntriesFault(entries, i + 1).Some?;
      }
    }
  }

  /**
   * `validate_row_element`: the type check, the `fields` default, then the
   * rules on the entries: GROUP entries only alone, no SUBTABLE entry, and
   * each entry's own requirement.  The inline entries' own type check never
   * changes them, since their type is already one it allows.
   */
  function ValidateRow(row: Json): (r: Result<Json, LayoutError>)
    requires row.JObj?
    ensures r.Ok? ==> r.value.JObj?
  {
    match ElementType(row, RowTypes)
    case Err(e) => Err(e)
    case Ok(typed) =>
      var fields := RowFields(typed);
      var filled := if Get(typed, "fields").JArr? then typed else Set(typed, "fields", JArr(fields));
      if !AllObjects(fields) then Err(NotADict)
      else
        var groups := CountTyped(fields, "GROUP");
        if groups > 0 && |fields| > groups then Err(GroupWithOthers)
        else if CountTyped(fields, "SUBTABLE") > 0 then Err(SubtableInRow)
        else match EntriesFault(fields, 0)
          case Some(e) => Err(e)
          case None => Ok(filled)
  }

  /**
   * A typed row passes exactly when its entries are dicts, they are either
   * all GROUP entries or none is, none is a SUBTABLE, and each entry meets
   * its own requirement; the row then holds its entries as a list.
   */
  lemma ValidateRowRules(row: Json)
    requires row.JObj? && ElementType(row, RowTypes).Ok?
    ensures var fields := RowFields(ElementType(row, RowTypes).value);
      ValidateRow(row).Ok? <==>
        AllObjects(fields)
        && ((forall i :: 0 <= i < |fields| ==> TypeIs(fields[i], "GROUP"))
            || (forall i :: 0 <= i < |fields| ==> !TypeIs(fields[i], "GROUP")))
        && (forall i :: 0 <= i < |fields| ==> !TypeIs(fields[i], "SUBTABLE"))
        && (forall i :: 0 <= i < |fields| ==> EntryFault(fields[i], i).None?)
    ensures ValidateRow(row).Ok? ==>
      Get(ValidateRow(row).value, "fields") == JArr(RowFields(ElementType(row, RowTypes).value))
  {
    var typed := ElementType(row, RowTypes).value;
    var fields := RowFields(typed);
    if AllObjects(fields) {
      CountTypedExtremes(fields, "GROUP");
      CountTypedExtremes(fields, "SUBTABLE");
      EntriesFaultNone(fields, 0);
      var groups := CountTyped(fields, "GROUP");
      assert groups == 0 || groups == |fields| ==> !(groups > 0 && |fields| > groups);
    }
  }

  /** A check applied to one element: the element as it stands afterwards, or the error raised. */
  type Check = Json -> Result<Json, LayoutError>

  /** A validator's loop over `items[i..]`: each item checked in order, the first refusal ending it. */
  function Each(check: Check, items: seq<Json>, i: nat): (r: Result<seq<Json>, LayoutError>)
    requires i <= |items|
    decreases |items| - i
  {
    if i == |items| then Ok([])
    else match check(items[i])
      case Err(e) => Err(e)
      case Ok(item) =>
        match Each(check, items, i + 1)
        case Err(e) => Err(e)
        case Ok(rest) => Ok([item] + rest)
  }

  /**
   * The loop passes exactly when every item does, and then holds each item's
   * checked form in order; otherwise it raises the error of the first item
   * refused.
   */
  lemma {:induction false} EachFirst(check: Check, items: seq<Json>, i: nat)
    requires i <= |items|
    ensures Each(check, items, i).Ok? <==> forall j :: i <= j < |items| ==> check(items[j]).Ok?
    ensures Each(check, items, i).Ok? ==> (|Each(check, items, i).value| == |items| - i
      && forall j :: i <= j < |items| ==> check(items[j]) == Ok(Each(check, items, i).value[j - i]))
    ensures Each(check, items, i).Err? ==>
      exists j :: i <= j < |items| && check(items[j]).Err? && Each(check, items, i).error == check(items[j]).error
        && forall l :: i <= l < j ==> check(items[l]).Ok?
    decreases |items| - i
  {
    if i < |items| {
      EachFirst(check, items, i + 1);
      if check(items[i]).Ok? && Each(check, items, i + 1).Err? {
        var j :| i + 1 <= j < |items| && check(items[j]).Err? && Each(check, items, i + 1).error == check(items[j]).error
          && forall l :: i + 1 <= l < j ==> check(items[l]).Ok?;
        assert forall l :: i <= l < j ==> check(items[l]).Ok?;
      }
    }
  }

  /** One child of a group: it must be a dict typed ROW, then it is validated as a row. */
  function GroupChild(item: Json): (r: Result<Json, LayoutError>)
    ensures r.Ok? ==> item.JObj? && TypeIs(item, "ROW") && r == ValidateRow(item)
  {
    if !item.JObj? then Err(NotADict)
    else if TypeIs(item, "SUBTABLE") then Err(SubtableInGroup)
    else if TypeIs(item, "GROUP") then Err(GroupInGroup)
    else if !TypeIs(item, "ROW") then Err(NonRowInGroup)
    else ValidateRow(item)
  }

  /** A group's `layout` once defaulted: `[]` when missing, a one-entry list around a non-list. */
  function GroupLayout(group: Json): (r: seq<Json>)
    requires group.JObj?
  {
    if !Has(group, "layout") then []
    else if Get(group, "layout").JArr? then Get(group, "layout").items
    else [Get(group, "layout")]
  }

  /** The part of `validate_group_element` before the children: the type check, a code, no `fields` key, `openGroup` defaulted. */
  function GroupPrelude(group: Json): (r: Result<Json, LayoutError>)
    requires group.JObj?
    ensures r.Ok? ==> r.value.JObj?
  {
    match ElementType(group, GroupTypes)
    case Err(e) => Err(e)
    case Ok(typed) =>
      if !Truthy(Get(typed, "code")) then Err(GroupCodeMissing)
      else if Has(typed, "fields") then Err(GroupHasFields)
      else if !Has(typed, "openGroup") then Ok(Set(typed, "openGroup", JBool(true)))
      else Ok(typed)
  }

  /**
   * `validate_group_element`: the checks before the children, the `layout`
   * default, then every child must be a ROW and is validated as one.
   */
  function ValidateGroup(group: Json): (r: Result<Json, LayoutError>)
    requires group.JObj?
    ensures r.Ok? ==> r.value.JObj?
  {
    match GroupPrelude(group)
    case Err(e) => Err(e)
    case Ok(prepared) =>
      match Each(GroupChild, GroupLayout(prepared), 0)
      case Err(e) => Err(e)
      case Ok(rows) => Ok(Set(prepared, "layout", JArr(rows)))
  }

  lemma GroupKeysFacts()
    ensures "type" != "openGroup" && "type" != "layout" && "openGroup" != "layout" && "code" != "type"
    ensures "fields" != "type" && "code" != "openGroup" && "fields" != "openGroup"
  {
  }

  /**
   * A group passes the checks before its children only with a code and no
   * `fields` key; it is then typed GROUP and `openGroup` keeps a given value
   * and is true otherwise.
   */
  lemma GroupPreludeRules(group: Json)
    requires group.JObj? && GroupPrelude(group).Ok?
    ensures var p := GroupPrelude(group).value;
      Truthy(Get(group, "code")) && !Has(group, "fields")
      && Get(p, "openGroup") == (if Has(group, "openGroup") then Get(group, "openGroup") else JBool(true))
      && Get(p, "type") == JStr("GROUP")
  {
    GroupKeysFacts();
    ElementTypeFill(group, GroupTypes);
  }

  /** The checks before the children leave the group's layout as it was. */
  lemma GroupPreludeLayout(group: Json)
    requires group.JObj? && GroupPrelude(group).Ok?
    ensures GroupLayout(GroupPrelude(group).value) == GroupLayout(group)
  {
    GroupKeysFacts();
    ElementTypeFill(group, GroupTypes);
    var typed := ElementType(group, GroupTypes).value;
    var p := GroupPrelude(group).value;
    SameLayout(group, typed);
    SameLayout(typed, p);
  }

  /** Two dicts that agree on `layout` have the same defaulted layout. */
  lemma SameLayout(before: Json, after: Json)
    requires before.JObj? && after.JObj?
    requires Get(after, "layout") == Get(before, "layout") && (Has(after, "layout") <==> Has(before, "layout"))
    ensures GroupLayout(after) == GroupLayout(before)
  {
  }

  /**
   * An accepted group is typed GROUP, keeps a given `openGroup` or gets
   * true, and its layout is its children checked in order.
   */
  lemma ValidateGroupSettings(group: Json)
    requires group.JObj? && ValidateGroup(group).Ok?
    ensures GroupPrelude(group).Ok? && Each(GroupChild, GroupLayout(group), 0).Ok?
    ensures var g := ValidateGroup(group).value;
      Truthy(Get(group, "code")) && !Has(group, "fields")
      && Get(g, "openGroup") == (if Has(group, "openGroup") then Get(group, "openGroup") else JBool(true))
      && Get(g, "type") == JStr("GROUP")
      && Get(g, "layout") == JArr(Each(GroupChild, GroupLayout(group), 0).value)
  {
    GroupPreludeRules(group);
    GroupPreludeLayout(group);
    GroupKeysFacts();
  }

  /** Every child of an accepted group is a dict already typed ROW, and a group is refused at its first bad child. */
  lemma GroupChildrenAreRows(items: seq<Json>)
    ensures Each(GroupChild, items, 0).Ok? <==> forall j :: 0 <= j < |items| ==> GroupChild(items[j]).Ok?
    ensures Each(GroupChild, items, 0).Ok? ==>
      forall j :: 0 <= j < |items| ==> items[j].JObj? && TypeIs(items[j], "ROW")
  {
    EachFirst(GroupChild, items, 0);
  }

  /** `any(v.get("type") == "GROUP" for v in fields.values() if isinstance(v, dict))`. */
  predicate HasGroupValue(m: Members)
  {
    exists i :: 0 <= i < |m| && m[i].1.JObj? && TypeIs(m[i].1, "GROUP")
  }

  /** `validate_subtable_element`: the type check, a code, and no GROUP among the field definitions. */
  function ValidateSubtable(subtable: Json): (r: Result<Json, LayoutError>)
    requires subtable.JObj?
    ensures r.Ok? ==> r == ElementType(subtable, SubtableTypes)
    ensures r.Ok? ==> Truthy(Get(subtable, "code"))
    ensures r.Ok? && Truthy(Get(subtable, "fields")) ==>
      Get(subtable, "fields").JObj? && !HasGroupValue(Get(subtable, "fields").members)
  {
    match ElementType(subtable, SubtableTypes)
    case Err(e) => Err(e)
    case Ok(typed) =>
      ElementTypeFill(subtable, SubtableTypes);
      var fields := Get(typed, "fields");
      if !Truthy(Get(typed, "code")) then Err(SubtableCodeMissing)
      else if !Truthy(fields) then Ok(typed)
      else if !fields.JObj? then Err(NotADict)
      else if HasGroupValue(fields.members) then Err(GroupInSubtable)
      else Ok(typed)
  }

  /** One top-level item of a form layout: typed ROW by default, then checked by its kind. */
  function TopLevelItem(item: Json): (r: Result<Json, LayoutError>)
  {
    if !item.JObj? then Err(NotADict)
    else match ElementType(item, TopLevelTypes)
      case Err(e) => Err(e)
      case Ok(typed) =>
        if TypeIs(typed, "ROW") then ValidateRow(typed)
        else if TypeIs(typed, "GROUP") then ValidateGroup(typed)
        else ValidateSubtable(typed)
  }

  /** `validate_form_layout`: the layout as it stands after every item's defaults, or the first refusal. */
  function FormLayout(layout: Json): (r: Result<seq<Json>, LayoutError>)
  {
    if !layout.JArr? then Err(LayoutNotList) else Each(TopLevelItem, layout.items, 0)
  }

  /**
   * A form layout passes exactly when each of its items does, and is
   * otherwise refused with the error of its first refused item, in document
   * order.
   */
  lemma FormLayoutFirst(layout: Json)
    requires layout.JArr?
    ensures FormLayout(layout).Ok? <==> forall j :: 0 <= j < |layout.items| ==> TopLevelItem(layout.items[j]).Ok?
    ensures FormLayout(layout).Ok? ==> |FormLayout(layout).value| == |layout.items|
    ensures FormLayout(layout).Err? ==>
      exists j :: 0 <= j < |layout.items| && TopLevelItem(layout.items[j]).Err?
        && FormLayout(layout).error == TopLevelItem(layout.items[j]).error
        && forall l :: 0 <= l < j ==> TopLevelItem(layout.items[l]).Ok?
  {
    EachFirst(TopLevelItem, layout.items, 0);
  }

  /** Only ROW, GROUP and SUBTABLE may stand at the top level: a LABEL or REFERENCE_TABLE item is refused. */
  lemma TopLevelRefusesInline(item: Json)
    requires item.JObj? && (TypeIs(item, "LABEL") || TypeIs(item, "REFERENCE_TABLE") || TypeIs(item, "SPACER") || TypeIs(item, "HR"))
    ensures TopLevelItem(item) == Err(TypeNotAllowed(TopLevelTypes))
  {
    ElementTypeFill(item, TopLevelTypes);
  }

  /** A row holding only GROUP entries, however many, passes the row rules. */
  lemma RowOfGroupsPasses(row: Json)
    requires row.JObj? && TypeIs(row, "ROW") && Get(row, "fields").JArr?
    requires var fields := Get(row, "fields").items;
      AllObjects(fields) && forall i :: 0 <= i < |fields| ==> TypeIs(fields[i], "GROUP")
    ensures ValidateRow(row) == Ok(row)
  {
    ElementTypeFill(row, RowTypes);
    ValidateRowRules(row);
    var fields := Get(row, "fields").items;
    assert forall i :: 0 <= i < |fields| ==>
      !TypeIs(fields[i], "SUBTABLE") && !TypeIs(fields[i], "LABEL") && !TypeIs(fields[i], "REFERENCE_TABLE");
  }

  /** The items already checked, followed by what the rest of the loop yields. */
  function Prepend(done: seq<Json>, rest: Result<seq<Json>, LayoutError>): (r: Result<seq<Json>, LayoutError>)
    ensures rest.Err? ==> r == rest
    ensures rest.Ok? ==> r == Ok(done + rest.value)
  {
    match rest
    case Err(e) => Err(e)
    case Ok(items) => Ok(done + items)
  }

  /** The form validator's loop over the layout, collecting each item as it stands after its checks. */
  method ValidateFormLayout(layout: Json) returns (r: Result<seq<Json>, LayoutError>)
    ensures r == FormLayout(layout)
  {
    if !layout.JArr? {
      return Err(LayoutNotList);
    }
    var items := layout.items;
    var done: seq<Json> := [];
    if Each(TopLevelItem, items, 0).Ok? {
      assert [] + Each(TopLevelItem, items, 0).value == Each(TopLevelItem, items, 0).value;
    }
    for i := 0 to |items|
      invariant Each(TopLevelItem, items, 0) == Prepend(done, Each(TopLevelItem, items, i))
    {
      var item := TopLevelItem(items[i]);
      if item.Err? {
        return Err(item.error);
      }
      var rest := Each(TopLevelItem, items, i + 1);
      if rest.Ok? {
        assert done + ([item.value] + rest.value) == (done + [item.value]) + rest.value;
      }
      done := done + [item.value];
    }
    assert done + [] == done;
    r := Ok(done);
  }

  // validate_field_size.

  /** A number the size check accepts: greater than zero, with `True` counting as 1. */
  predicate PositiveNumber(v: Json)
  {
    match v
    case JInt(i) => i > 0
    case JBool(b) => b
    case JDec(m, _) => m > 0
    case _ => false
  }

  /**
   * One size dimension: a string keeps only its ASCII digits and dots and is
   * read as a float, a number stays as it is; the result must be positive.
   */
  function DimensionValue(v: Json, dimension: string): (r: Result<Json, LayoutError>)
    ensures r.Ok? ==> PositiveNumber(r.value)
    ensures r.Ok? && !v.JStr? ==> r.value == v
  {
    match v
    case JStr(s) =>
      (match Text.ParseDigitsAndDot(Text.KeepNumeric(s))
       case None => Err(SizeNotNumeric(dimension))
       case Some(d) => if d.0 == 0 then Err(SizeNotPositive(dimension)) else Ok(JDec(d.0, d.1)))
    case JInt(i) => if i <= 0 then Err(SizeNotPositive(dimension)) else Ok(v)
    case JBool(b) => if !b then Err(SizeNotPositive(dimension)) else Ok(v)
    case JDec(m, _) => if m <= 0 then Err(SizeNotPositive(dimension)) else Ok(v)
    case _ => Err(SizeNotNumeric(dimension))
  }

  /** The check of one dimension of a size dict, replacing a string by the number read from it. */
  function SizeDimension(size: Json, dimension: string): (r: Result<Json, LayoutError>)
    requires size.JObj?
    ensures r.Ok? ==> r.value.JObj?
  {
    if !Has(size, dimension) then Ok(size)
    else match DimensionValue(Get(size, dimension), dimension)
      case Err(e) => Err(e)
      case Ok(v) => if Get(size, dimension).JStr? then Ok(Set(size, dimension, v)) else Ok(size)
  }

  /** A dimension check changes at most that dimension, and leaves it positive when present. */
  lemma SizeDimensionRules(size: Json, dimension: string)
    requires size.JObj? && SizeDimension(size, dimension).Ok?
    ensures var r := SizeDimension(size, dimension).value;
      (Has(r, dimension) <==> Has(size, dimension))
      && (Has(size, dimension) ==> PositiveNumber(Get(r, dimension)))
      && forall k :: k != dimension ==> Get(r, k) == Get(size, k) && (Has(r, k) <==> Has(size, k))
  {
  }

  /**
   * `validate_field_size`: no size passes; otherwise a dict whose width,
   * height and inner height, where present, are checked in that order.
   */
  function FieldSize(size: Json): (r: Result<Json, LayoutError>)
  {
    if !Truthy(size) then Ok(size)
    else if !size.JObj? then Err(SizeNotObject)
    else match SizeDimension(size, "width")
      case Err(e) => Err(e)
      case Ok(s1) =>
        match SizeDimension(s1, "height")
        case Err(e) => Err(e)
        case Ok(s2) => SizeDimension(s2, "innerHeight")
  }

  lemma SizeKeysFacts()
    ensures "width" != "height" && "width" != "innerHeight" && "height" != "innerHeight"
  {
  }

  /** A dimension the original size has is present and positive in the checked one. */
  predicate DimensionChecked(size: Json, checked: Json, dimension: string)
    requires size.JObj? && checked.JObj?
  {
    Has(size, dimension) ==> Has(checked, dimension) && PositiveNumber(Get(checked, dimension))
  }

  /**
   * An accepted size is the given one when empty; otherwise every dimension
   * it has is a positive number, and every other setting is left as it was.
   */
  lemma FieldSizeRules(size: Json)
    requires FieldSize(size).Ok?
    ensures !Truthy(size) ==> FieldSize(size).value == size
    ensures Truthy(size) ==> size.JObj? && FieldSize(size).value.JObj?
    ensures Truthy(size) ==>
      var r := FieldSize(size).value;
      DimensionChecked(size, r, "width") && DimensionChecked(size, r, "height") && DimensionChecked(size, r, "innerHeight")
      && forall k :: k != "width" && k != "height" && k != "innerHeight" ==> Get(r, k) == Get(size, k)
  {
    if Truthy(size) {
      SizeKeysFacts();
      var s1 := SizeDimension(size, "width").value;
      SizeDimensionRules(size, "width");
      var s2 := SizeDimension(s1, "height").value;
      SizeDimensionRules(s1, "height");
      var r := SizeDimension(s2, "innerHeight").value;
      SizeDimensionRules(s2, "innerHeight");
      assert DimensionChecked(size, s1, "width");
      assert DimensionChecked(size, s2, "width");
      assert DimensionChecked(size, r, "width");
      assert DimensionChecked(size, r, "height");
    }
  }

  /** A width written with a unit, such as "10px", is read as its number. */
  lemma UnitSuffixStripped()
    ensures DimensionValue(JStr("10px"), "width") == Ok(JDec(10, 0))
  {
    assert Text.KeepNumeric("10px") == "10";
    assert Text.DigitsValue("10") == 10 by {
      assert "10"[..1] == "1";
    }
  }

  /** A string with no digit, or with two dots, cannot be read as a number and is refused. */
  lemma DimensionNeedsDigits(s: string, dimension: string)
    requires forall i :: 0 <= i < |Text.KeepNumeric(s)| ==> !Text.IsAsciiDigit(Text.KeepNumeric(s)[i])
    ensures DimensionValue(JStr(s), dimension) == Err(SizeNotNumeric(dimension))
  {
  }

  // validate_element_position.

  /**
   * `validate_element_position`: `None` when the position passes, else the
   * error it raises.  An index must be a non-negative int and, for a GROUP
   * position, comes with a group code; otherwise `after` and `before`
   * exclude each other and name a non-empty string code.
   */
  function ElementPosition(position: Json): (r: Option<LayoutError>)
  {
    if !Truthy(position) then None
    else if !position.JObj? then Some(PositionNotObject)
    else if Has(position, "index") then
      var index := Get(position, "index");
      if !(index.JInt? || index.JBool?) || PyInt(index).value < 0 then Some(IndexInvalid)
      else if TypeIs(position, "GROUP") && !Truthy(Get(position, "groupCode")) then Some(GroupCodeRequired)
      else None
    else if Has(position, "after") || Has(position, "before") then
      if Has(position, "after") && Has(position, "before") then Some(AfterAndBefore)
      else
        var target := if Truthy(Get(position, "after")) then Get(position, "after") else Get(position, "before");
        if !Truthy(target) || !target.JStr? then Some(TargetInvalid) else None
    else None
  }

  /**
   * The position rules: an index position passes exactly when the index is a
   * non-negative int (a bool counts, as in Python) and a GROUP position names
   * its group; an after/before position passes exactly when only one of them
   * is given and it names a non-empty string.
   */
  lemma ElementPositionRules(position: Json)
    requires position.JObj? && Truthy(position)
    ensures Has(position, "index") ==>
      (ElementPosition(position).None? <==>
         ((Get(position, "index").JInt? && Get(position, "index").i >= 0) || Get(position, "index").JBool?)
         && (TypeIs(position, "GROUP") ==> Truthy(Get(position, "groupCode"))))
    ensures !Has(position, "index") && Has(position, "after") && Has(position, "before") ==>
      ElementPosition(position) == Some(AfterAndBefore)
    ensures !Has(position, "index") && (Has(position, "after") != Has(position, "before")) ==>
      var target := if Has(position, "after") then Get(position, "after") else Get(position, "before");
      (ElementPosition(position).None? <==> target.JStr? && target.s != [])
  {
  }
}
