/**
 * The two helpers of server/tools/implementations/layout_tools.py that make
 * and place a single layout element: _build_layout_element and
 * _add_element_to_layout. The random hex suffix the builder draws from
 * uuid4 is a parameter here.
 */
module LayoutEdit {
  import opened Wrappers
  import opened Json
  import opened LayoutTools
  import LayoutBuilders

  // ---------------------------------------------------------------------------
  // _build_layout_element

  /** `field_config["code"]` on an entry of a ROW's `fields` that has no code raises KeyError. */
  datatype ElementError = MissingFieldCode(index: nat)

  /** A ROW config's `fields`: `config.get("fields", [])`, iterated as a list of dicts. */
  function ConfigFields(config: Json): Json
    requires config.JObj?
  {
    GetOr(config, "fields", JArr([]))
  }

  predicate RowConfig(config: Json)
  {
    config.JObj? && ConfigFields(config).JArr? && AllObjects(ConfigFields(config).items)
  }

  /** The `size` of a row entry: `width` and then `height`, each only when truthy. */
  function EntrySize(fieldConfig: Json): Json
    requires fieldConfig.JObj?
  {
    var width := Get(fieldConfig, "width");
    var height := Get(fieldConfig, "height");
    JObj((if Truthy(width) then [("width", width)] else []) + (if Truthy(height) then [("height", height)] else []))
  }

  /** The FIELD entry built from one entry of a ROW config. */
  function EntryOf(fieldConfig: Json): Json
    requires fieldConfig.JObj? && Has(fieldConfig, "code")
  {
    Display(["type", "code", "size"], [JStr("FIELD"), Get(fieldConfig, "code"), EntrySize(fieldConfig)])
  }

  /** The first entry of a ROW config without a code, if any. */
  function FirstWithoutCode(fieldConfigs: seq<Json>): (r: Option<nat>)
    requires AllObjects(fieldConfigs)
    ensures r.Some? ==>
      r.value < |fieldConfigs| && !Has(fieldConfigs[r.value], "code")
      && forall j :: 0 <= j < r.value ==> Has(fieldConfigs[j], "code")
    ensures r.None? ==> forall j :: 0 <= j < |fieldConfigs| ==> Has(fieldConfigs[j], "code")
  {
    if fieldConfigs == [] then None
    else if !Has(fieldConfigs[0], "code") then Some(0)
    else
      match FirstWithoutCode(fieldConfigs[1..])
      case None => None
      case Some(j) => Some(j + 1)
  }

  lemma FirstWithoutCodeAt(fieldConfigs: seq<Json>, i: nat)
    requires AllObjects(fieldConfigs) && i < |fieldConfigs| && !Has(fieldConfigs[i], "code")
    requires forall j :: 0 <= j < i ==> Has(fieldConfigs[j], "code")
    ensures FirstWithoutCode(fieldConfigs) == Some(i)
  {
  }

  /** The FIELD entries of a ROW config whose entries all have codes. */
  function EntriesOf(fieldConfigs: seq<Json>): (r: seq<Json>)
    requires AllObjects(fieldConfigs) && FirstWithoutCode(fieldConfigs).None?
    ensures |r| == |fieldConfigs|
  {
    seq(|fieldConfigs|, i requires 0 <= i < |fieldConfigs| => EntryOf(fieldConfigs[i]))
  }

  /** The ROW _build_layout_element makes, or the KeyError of its first entry without a code. */
  function RowElement(config: Json): (r: Result<Json, ElementError>)
    requires RowConfig(config)
    ensures r.Err? <==>
      exists j :: 0 <= j < |ConfigFields(config).items| && !Has(ConfigFields(config).items[j], "code")
    ensures r.Err? ==>
      var j := r.error.index;
      && j < |ConfigFields(config).items| && !Has(ConfigFields(config).items[j], "code")
      && forall i :: 0 <= i < j ==> Has(ConfigFields(config).items[i], "code")
  {
    var fieldConfigs := ConfigFields(config).items;
    match FirstWithoutCode(fieldConfigs)
    case Some(j) => Err(MissingFieldCode(j))
    case None => Ok(LayoutBuilders.RowOf(EntriesOf(fieldConfigs)))
  }

  /**
   * The element _build_layout_element makes for any type but ROW, with
   * `hex` standing for `uuid.uuid4().hex[:8]`: the type first, then the
   * keys that type takes, with their defaults.
   */
  function OtherElement(elementType: string, config: Json, hex: string): Json
    requires config.JObj?
  {
    var t := JStr(elementType);
    if elementType in ["SUBTABLE", "REFERENCE_TABLE"] then
      Display(["type", "code"], [t, GetOr(config, "code", JStr(""))])
    else if elementType == "GROUP" then
      Display(["type", "code", "label", "layout"],
        [t, GetOr(config, "code", JStr("group_" + hex)), GetOr(config, "label", JStr("")), GetOr(config, "layout", JArr([]))])
    else if elementType == "LABEL" then
      Display(["type", "label"], [t, GetOr(config, "label", JStr(""))])
    else if elementType == "SPACER" then
      var width := Get(config, "spacer_width");
      if Truthy(width) then Display(["type", "elementId", "size"], [t, JStr("spacer_" + hex), Display(["width"], [width])])
      else Display(["type", "elementId"], [t, JStr("spacer_" + hex)])
    else if elementType == "HR" then
      Display(["type", "elementId"], [t, JStr("hr_" + hex)])
    else Display(["type"], [t])
  }

  function LayoutElement(elementType: string, config: Json, hex: string): Result<Json, ElementError>
    requires config.JObj? && (elementType == "ROW" ==> RowConfig(config))
  {
    if elementType == "ROW" then RowElement(config) else Ok(OtherElement(elementType, config, hex))
  }

  /** One FIELD entry: `size` starts empty and receives `width`, then `height`, when truthy. */
  method BuildEntry(fieldConfig: Json) returns (entry: Json)
    requires fieldConfig.JObj? && Has(fieldConfig, "code")
    ensures entry == EntryOf(fieldConfig)
  {
    var size := [];
    if Truthy(Get(fieldConfig, "width")) {
      size := size + [("width", Get(fieldConfig, "width"))];
    }
    if Truthy(Get(fieldConfig, "height")) {
      size := size + [("height", Get(fieldConfig, "height"))];
    }
    assert JObj(size) == EntrySize(fieldConfig);
    entry := Display(["type", "code", "size"], [JStr("FIELD"), Get(fieldConfig, "code"), JObj(size)]);
  }

  /** The loop of _build_layout_element that turns a ROW config's entries into FIELD entries. */
  method BuildRowElement(config: Json) returns (r: Result<Json, ElementError>)
    requires RowConfig(config)
    ensures r == RowElement(config)
  {
    var fieldConfigs := ConfigFields(config).items;
    var rowFields := [];
    for i := 0 to |fieldConfigs|
      invariant forall j :: 0 <= j < i ==> Has(fieldConfigs[j], "code")
      invariant |rowFields| == i
      invariant forall j :: 0 <= j < i ==> rowFields[j] == EntryOf(fieldConfigs[j])
    {
      var fieldConfig := fieldConfigs[i];
      if !Has(fieldConfig, "code") {
        FirstWithoutCodeAt(fieldConfigs, i);
        return Err(MissingFieldCode(i));
      }
      var entry := BuildEntry(fieldConfig);
      rowFields := rowFields + [entry];
    }
    assert FirstWithoutCode(fieldConfigs).None?;
    assert rowFields == EntriesOf(fieldConfigs);
    return Ok(Display(["type", "fields"], [JStr("ROW"), JArr(rowFields)]));
  }

  /** _build_layout_element. */
  method BuildLayoutElement(elementType: string, config: Json, hex: string) returns (r: Result<Json, ElementError>)
    requires config.JObj? && (elementType == "ROW" ==> RowConfig(config))
    ensures r == LayoutElement(elementType, config, hex)
  {
    if elementType == "ROW" {
      r := BuildRowElement(config);
    } else {
      r := Ok(OtherElement(elementType, config, hex));
    }
  }

  /**
   * What the configuration must supply for the built element to pass
   * _validate_layout: a type, a non-empty ROW, a code for a table, a label
   * and a non-empty layout for a GROUP, a label for a LABEL.
   */
  predicate ConfigComplete(elementType: string, config: Json)
    requires config.JObj? && (elementType == "ROW" ==> RowConfig(config))
  {
    && elementType != ""
    && (elementType == "ROW" ==> ConfigFields(config).items != [])
    && (elementType in ["SUBTABLE", "REFERENCE_TABLE"] ==> Truthy(GetOr(config, "code", JStr(""))))
    && (elementType == "GROUP" ==> Truthy(GetOr(config, "label", JStr(""))) && Truthy(GetOr(config, "layout", JArr([]))))
    && (elementType == "LABEL" ==> Truthy(GetOr(config, "label", JStr(""))))
  }

  lemma EntryOfFacts(fieldConfig: Json)
    requires fieldConfig.JObj? && Has(fieldConfig, "code")
    ensures EntryOf(fieldConfig).JObj? && IsType(EntryOf(fieldConfig), "FIELD")
    ensures Get(EntryOf(fieldConfig), "code") == Get(fieldConfig, "code")
  {
    var keys := ["type", "code", "size"];
    var values := [JStr("FIELD"), Get(fieldConfig, "code"), EntrySize(fieldConfig)];
    assert Distinct(keys);
    DisplayAt(keys, values, 0);
    DisplayAt(keys, values, 1);
  }

  /** A built ROW is a layout row whose entries are FIELD entries carrying the configured codes, in order. */
  lemma RowElementFacts(config: Json)
    requires RowConfig(config) && RowElement(config).Ok?
    ensures var e := RowElement(config).value;
      var fieldConfigs := ConfigFields(config).items;
      && Node(e) && IsType(e, "ROW") && Get(e, "type") == JStr("ROW") && |RowFields(e)| == |fieldConfigs|
      && (forall i :: 0 <= i < |fieldConfigs| ==>
            IsType(RowFields(e)[i], "FIELD") && Get(RowFields(e)[i], "code") == Get(fieldConfigs[i], "code"))
      && RowEntries(RowFields(e)) == RowFields(e)
      && (ElementOk(e) <==> fieldConfigs != [])
  {
    var fieldConfigs := ConfigFields(config).items;
    var entries := EntriesOf(fieldConfigs);
    forall i | 0 <= i < |fieldConfigs|
      ensures entries[i].JObj? && IsType(entries[i], "FIELD") && Get(entries[i], "code") == Get(fieldConfigs[i], "code")
    {
      EntryOfFacts(fieldConfigs[i]);
    }
    LayoutBuilders.RowOfFacts(entries);
    assert LayoutBuilders.FieldDicts(entries);
    LayoutBuilders.RowEntriesAll(entries);
  }

  lemma TableElementValid(elementType: string, config: Json, hex: string)
    requires config.JObj? && elementType in ["SUBTABLE", "REFERENCE_TABLE"]
    ensures var e := OtherElement(elementType, config, hex);
      e.JObj? && Get(e, "type") == JStr(elementType) && (ElementOk(e) <==> Truthy(GetOr(config, "code", JStr(""))))
  {
    var keys := ["type", "code"];
    var values := [JStr(elementType), GetOr(config, "code", JStr(""))];
    assert Distinct(keys);
    DisplayAt(keys, values, 0);
    DisplayAt(keys, values, 1);
  }

  /** A built GROUP holds the configured code, label and layout, with their defaults. */
  lemma GroupElementFacts(config: Json, hex: string)
    requires config.JObj?
    ensures var e := OtherElement("GROUP", config, hex);
      && e.JObj? && Get(e, "type") == JStr("GROUP")
      && Get(e, "code") == GetOr(config, "code", JStr("group_" + hex))
      && Get(e, "label") == GetOr(config, "label", JStr(""))
      && Has(e, "layout") && Get(e, "layout") == GetOr(config, "layout", JArr([]))
  {
    var keys := ["type", "code", "label", "layout"];
    var values := [JStr("GROUP"), GetOr(config, "code", JStr("group_" + hex)), GetOr(config, "label", JStr("")), GetOr(config, "layout", JArr([]))];
    assert OtherElement("GROUP", config, hex) == Display(keys, values);
    assert Distinct(keys);
    DisplayAt(keys, values, 0);
    DisplayAt(keys, values, 1);
    DisplayAt(keys, values, 2);
    DisplayAt(keys, values, 3);
  }

  lemma GroupElementValid(config: Json, hex: string)
    requires config.JObj?
    ensures var e := OtherElement("GROUP", config, hex);
      && e.JObj? && Get(e, "type") == JStr("GROUP")
      && (ElementOk(e) <==> Truthy(GetOr(config, "label", JStr(""))) && Truthy(GetOr(config, "layout", JArr([]))))
  {
    GroupElementFacts(config, hex);
  }

  lemma LabelElementValid(config: Json, hex: string)
    requires config.JObj?
    ensures var e := OtherElement("LABEL", config, hex);
      e.JObj? && Get(e, "type") == JStr("LABEL") && (ElementOk(e) <==> Truthy(GetOr(config, "label", JStr(""))))
  {
    var keys := ["type", "label"];
    var values := [JStr("LABEL"), GetOr(config, "label", JStr(""))];
    assert Distinct(keys);
    DisplayAt(keys, values, 0);
    DisplayAt(keys, values, 1);
  }

  /** SPACER, HR and unknown types only need a non-empty type. */
  lemma PlainElementValid(elementType: string, config: Json, hex: string)
    requires config.JObj? && elementType !in ["ROW", "SUBTABLE", "REFERENCE_TABLE", "GROUP", "LABEL"]
    ensures var e := OtherElement(elementType, config, hex);
      e.JObj? && Get(e, "type") == JStr(elementType) && (ElementOk(e) <==> elementType != "")
  {
    var t := JStr(elementType);
    if elementType == "SPACER" {
      var width := Get(config, "spacer_width");
      if Truthy(width) {
        assert Distinct(["type", "elementId", "size"]);
        DisplayAt(["type", "elementId", "size"], [t, JStr("spacer_" + hex), Display(["width"], [width])], 0);
      } else {
        assert Distinct(["type", "elementId"]);
        DisplayAt(["type", "elementId"], [t, JStr("spacer_" + hex)], 0);
      }
    } else if elementType == "HR" {
      assert Distinct(["type", "elementId"]);
      DisplayAt(["type", "elementId"], [t, JStr("hr_" + hex)], 0);
    } else {
      DisplayAt(["type"], [t], 0);
    }
  }

  /** The element the builder makes passes _validate_layout exactly when the configuration is complete. */
  lemma ElementValid(elementType: string, config: Json, hex: string)
    requires config.JObj? && (elementType == "ROW" ==> RowConfig(config))
    requires LayoutElement(elementType, config, hex).Ok?
    ensures var e := LayoutElement(elementType, config, hex).value;
      e.JObj? && Get(e, "type") == JStr(elementType)
      && (ElementOk(e) <==> ConfigComplete(elementType, config))
  {
    if elementType == "ROW" {
      RowElementValid(config);
    } else {
      assert LayoutElement(elementType, config, hex).value == OtherElement(elementType, config, hex);
      OtherElementValid(elementType, config, hex);
    }
  }

  lemma RowElementValid(config: Json)
    requires RowConfig(config) && RowElement(config).Ok?
    ensures var e := RowElement(config).value;
      e.JObj? && Get(e, "type") == JStr("ROW") && (ElementOk(e) <==> ConfigComplete("ROW", config))
  {
    RowElementFacts(config);
    assert "ROW" !in ["SUBTABLE", "REFERENCE_TABLE"];
    assert ConfigComplete("ROW", config) <==> ConfigFields(config).items != [];
  }

  lemma OtherElementValid(elementType: string, config: Json, hex: string)
    requires config.JObj? && elementType != "ROW"
    ensures var e := OtherElement(elementType, config, hex);
      e.JObj? && Get(e, "type") == JStr(elementType) && (ElementOk(e) <==> ConfigComplete(elementType, config))
  {
    if elementType in ["SUBTABLE", "REFERENCE_TABLE"] {
      TableElementValid(elementType, config, hex);
      assert ConfigComplete(elementType, config) <==> Truthy(GetOr(config, "code", JStr("")));
    } else if elementType == "GROUP" {
      GroupElementValid(config, hex);
      assert ConfigComplete(elementType, config) <==>
        Truthy(GetOr(config, "label", JStr(""))) && Truthy(GetOr(config, "layout", JArr([])));
    } else if elementType == "LABEL" {
      LabelElementValid(config, hex);
      assert ConfigComplete(elementType, config) <==> Truthy(GetOr(config, "label", JStr("")));
    } else {
      PlainElementValid(elementType, config, hex);
      assert ConfigComplete(elementType, config) <==> elementType != "";
    }
  }

  // ---------------------------------------------------------------------------
  // _add_element_to_layout

  /** Where Python's `list.insert(i, x)` puts `x` in a list of `n` items: a negative `i` counts from the end, and both ends clamp. */
  function InsertPos(n: nat, i: int): (j: nat)
    ensures j <= n
    ensures 0 <= i <= n ==> j == i
    ensures i > n ==> j == n
    ensures i < 0 && 0 <= i + n ==> j == i + n
    ensures i + n < 0 ==> j == 0
  {
    if i < 0 then (if i + n < 0 then 0 else i + n) else if i > n then n else i
  }

  /** `s.insert(i, x)`, as the new list. */
  function InsertAt<T>(s: seq<T>, i: int, x: T): (r: seq<T>)
    ensures |r| == |s| + 1 && r[InsertPos(|s|, i)] == x
    ensures r[..InsertPos(|s|, i)] + r[InsertPos(|s|, i) + 1..] == s
  {
    var j := InsertPos(|s|, i);
    assert (s[..j] + [x] + s[j..])[..j] == s[..j];
    assert (s[..j] + [x] + s[j..])[j + 1..] == s[j..];
    s[..j] + [x] + s[j..]
  }

  /** `list.insert` raises TypeError for an index that is not an int (a bool is one). */
  datatype AddError = IndexNotInt(index: Json)

  /** A GROUP element whose code is `groupCode`. */
  predicate NamedGroup(e: Json, groupCode: Json)
    requires e.JObj?
  {
    IsType(e, "GROUP") && PyEq(Get(e, "code"), groupCode)
  }

  /** The first top-level GROUP whose code is `groupCode`. */
  function GroupIndex(layout: seq<Json>, groupCode: Json): (r: Option<nat>)
    requires AllObjects(layout)
    ensures r.Some? ==>
      r.value < |layout| && NamedGroup(layout[r.value], groupCode)
      && forall k :: 0 <= k < r.value ==> !NamedGroup(layout[k], groupCode)
    ensures r.None? ==> forall k :: 0 <= k < |layout| ==> !NamedGroup(layout[k], groupCode)
  {
    if layout == [] then None
    else if NamedGroup(layout[0], groupCode) then Some(0)
    else
      match GroupIndex(layout[1..], groupCode)
      case None => None
      case Some(k) => Some(k + 1)
  }

  /** The first row entry whose code is `target`. */
  function FieldHit(fields: seq<Json>, target: Json): (r: Option<nat>)
    requires AllObjects(fields)
    ensures r.Some? ==> r.value < |fields|
  {
    if fields == [] then None
    else if PyEq(Get(fields[0], "code"), target) then Some(0)
    else
      match FieldHit(fields[1..], target)
      case None => None
      case Some(k) => Some(k + 1)
  }

  /** `FieldHit` names an entry with the target's code and none before it, or says that no entry has it. */
  lemma {:induction false} FieldHitFirst(fields: seq<Json>, target: Json)
    requires AllObjects(fields)
    ensures var r := FieldHit(fields, target);
      r.Some? ==>
        r.value < |fields| && PyEq(Get(fields[r.value], "code"), target)
        && forall k :: 0 <= k < r.value ==> !PyEq(Get(fields[k], "code"), target)
    ensures FieldHit(fields, target).None? ==> forall k :: 0 <= k < |fields| ==> !PyEq(Get(fields[k], "code"), target)
  {
    if fields != [] && !PyEq(Get(fields[0], "code"), target) {
      var rest := fields[1..];
      FieldHitFirst(rest, target);
      forall k | 1 <= k < |fields|
        ensures fields[k] == rest[k - 1]
      {
      }
    }
  }

  /** What searching one element finds: the element itself, something inside it (the element as changed), or nothing. */
  datatype Hit = Miss | Here | Inside(node: Json)

  /** The offset of the insertion from the position of the match. */
  function Offset(isAfter: bool): nat
  {
    if isAfter then 1 else 0
  }

  /** The inner `search_and_insert` on one element: its own code, then a GROUP's layout, then a ROW's entries. */
  function SearchNode(e: Json, target: Json, isAfter: bool, element: Json): Hit
    requires Node(e)
    decreases e
  {
    if PyEq(Get(e, "code"), target) then Here
    else if IsType(e, "GROUP") && Has(e, "layout") then
      match SearchItems(Get(e, "layout").items, target, isAfter, element)
      case None => Miss
      case Some(nested) => Inside(Set(e, "layout", JArr(nested)))
    else if IsType(e, "ROW") && Has(e, "fields") then RowInsert(e, target, isAfter, element)
    else Miss
  }

  /** The row-entry part of `search_and_insert`: insert next to the first entry whose code is the target. */
  function RowInsert(e: Json, target: Json, isAfter: bool, element: Json): Hit
    requires Node(e) && IsType(e, "ROW") && Has(e, "fields")
  {
    var fields := Get(e, "fields").items;
    match FieldHit(fields, target)
    case None => Miss
    case Some(j) => Inside(Set(e, "fields", JArr(fields[..j + Offset(isAfter)] + [element] + fields[j + Offset(isAfter)..])))
  }

  /** A search result with `prefix` put back in front. */
  function Behind(prefix: seq<Json>, r: Option<seq<Json>>): Option<seq<Json>>
  {
    match r
    case None => None
    case Some(rest) => Some(prefix + rest)
  }

  /** `search_and_insert(items)`: the list after inserting next to the first match, or None when nothing matches. */
  function SearchItems(items: seq<Json>, target: Json, isAfter: bool, element: Json): Option<seq<Json>>
    requires Tree(items)
    decreases items
  {
    if items == [] then None
    else
      match SearchNode(items[0], target, isAfter, element)
      case Here => Some(items[..Offset(isAfter)] + [element] + items[Offset(isAfter)..])
      case Inside(n) => Some([n] + items[1..])
      case Miss => Behind([items[0]], SearchItems(items[1..], target, isAfter, element))
  }

  /** Whether an element carries `target`: as its own code, anywhere in a GROUP's layout, or as the code of a ROW's entry. */
  predicate NodeHas(e: Json, target: Json)
    requires Node(e)
    decreases e
  {
    || PyEq(Get(e, "code"), target)
    || (IsType(e, "GROUP") && Has(e, "layout") && TreeHas(Get(e, "layout").items, target))
    || (IsType(e, "ROW") && Has(e, "fields") &&
        exists j :: 0 <= j < |Get(e, "fields").items| && PyEq(Get(Get(e, "fields").items[j], "code"), target))
  }

  predicate TreeHas(items: seq<Json>, target: Json)
    requires Tree(items)
    decreases items
  {
    exists i :: 0 <= i < |items| && NodeHas(items[i], target)
  }

  /** In a ROW, the search finds an entry exactly when some entry carries the target. */
  lemma RowSearchFound(e: Json, target: Json, isAfter: bool, element: Json)
    requires Node(e) && IsType(e, "ROW") && Has(e, "fields")
    ensures RowInsert(e, target, isAfter, element) != Miss <==>
      exists j :: 0 <= j < |Get(e, "fields").items| && PyEq(Get(Get(e, "fields").items[j], "code"), target)
  {
    var fields := Get(e, "fields").items;
    var hit := FieldHit(fields, target);
    FieldHitFirst(fields, target);
    if hit.Some? {
      assert PyEq(Get(fields[hit.value], "code"), target);
    }
  }

  /** The search finds something in an element exactly when the element carries the target. */
  lemma {:induction false} SearchNodeFound(e: Json, target: Json, isAfter: bool, element: Json)
    requires Node(e)
    ensures SearchNode(e, target, isAfter, element) != Miss <==> NodeHas(e, target)
    decreases e, 1
  {
    if PyEq(Get(e, "code"), target) {
    } else if IsType(e, "GROUP") && Has(e, "layout") {
      SearchItemsFound(Get(e, "layout").items, target, isAfter, element);
      GroupSearch(e, target, isAfter, element);
    } else if IsType(e, "ROW") && Has(e, "fields") {
      RowSearchFound(e, target, isAfter, element);
      RowSearch(e, target, isAfter, element);
    } else {
      assert SearchNode(e, target, isAfter, element) == Miss && !NodeHas(e, target);
    }
  }

  lemma GroupSearch(e: Json, target: Json, isAfter: bool, element: Json)
    requires Node(e) && !PyEq(Get(e, "code"), target) && IsType(e, "GROUP") && Has(e, "layout")
    ensures SearchNode(e, target, isAfter, element) != Miss
      <==> SearchItems(Get(e, "layout").items, target, isAfter, element).Some?
    ensures NodeHas(e, target) <==> TreeHas(Get(e, "layout").items, target)
  {
  }

  lemma RowSearch(e: Json, target: Json, isAfter: bool, element: Json)
    requires Node(e) && !PyEq(Get(e, "code"), target) && IsType(e, "ROW") && Has(e, "fields")
    ensures SearchNode(e, target, isAfter, element) == RowInsert(e, target, isAfter, element)
    ensures NodeHas(e, target) <==>
      exists j :: 0 <= j < |Get(e, "fields").items| && PyEq(Get(Get(e, "fields").items[j], "code"), target)
  {
    assert !IsType(e, "GROUP");
  }

  /** The search of a list succeeds exactly when some element carries the target. */
  lemma {:induction false} SearchItemsFound(items: seq<Json>, target: Json, isAfter: bool, element: Json)
    requires Tree(items)
    ensures SearchItems(items, target, isAfter, element).Some? <==> TreeHas(items, target)
    decreases items, 0
  {
    if items != [] {
      SearchNodeFound(items[0], target, isAfter, element);
      SearchItemsFound(items[1..], target, isAfter, element);
      TreeHasCons(items, target);
      SearchItemsCons(items, target, isAfter, element);
    }
  }

  lemma TreeHasCons(items: seq<Json>, target: Json)
    requires Tree(items) && items != []
    ensures TreeHas(items, target) <==> NodeHas(items[0], target) || TreeHas(items[1..], target)
  {
    if TreeHas(items[1..], target) {
      var i :| 0 <= i < |items[1..]| && NodeHas(items[1..][i], target);
      assert NodeHas(items[i + 1], target);
    }
    if TreeHas(items, target) && !NodeHas(items[0], target) {
      var i :| 0 <= i < |items| && NodeHas(items[i], target);
      assert NodeHas(items[1..][i - 1], target);
    }
  }

  lemma SearchItemsCons(items: seq<Json>, target: Json, isAfter: bool, element: Json)
    requires Tree(items) && items != []
    ensures SearchItems(items, target, isAfter, element).Some? <==>
      SearchNode(items[0], target, isAfter, element) != Miss || SearchItems(items[1..], target, isAfter, element).Some?
  {
  }

  lemma BehindBehind(a: seq<Json>, b: seq<Json>, r: Option<seq<Json>>)
    ensures Behind(a, Behind(b, r)) == Behind(a + b, r)
  {
    match r
    case None =>
    case Some(rest) =>
      assert a + (b + rest) == (a + b) + rest;
  }

  lemma BehindEmpty(r: Option<seq<Json>>)
    ensures Behind([], r) == r
  {
    match r
    case None =>
    case Some(rest) =>
      assert [] + rest == rest;
  }

  /** A search that starts at an element that does not match goes on behind it. */
  lemma SearchSkip(items: seq<Json>, target: Json, isAfter: bool, element: Json)
    requires Tree(items) && items != [] && SearchNode(items[0], target, isAfter, element) == Miss
    ensures Tree(items[1..])
    ensures SearchItems(items, target, isAfter, element) == Behind([items[0]], SearchItems(items[1..], target, isAfter, element))
  {
  }

  /** Elements that do not match are skipped: the search of a list is the search of what follows them, behind them. */
  lemma {:induction false} SearchFrom(items: seq<Json>, i: nat, target: Json, isAfter: bool, element: Json)
    requires Tree(items) && i <= |items|
    requires forall k :: 0 <= k < i ==> SearchNode(items[k], target, isAfter, element) == Miss
    ensures SearchItems(items, target, isAfter, element) == Behind(items[..i], SearchItems(items[i..], target, isAfter, element))
  {
    if i == 0 {
      assert items[0..] == items && items[..0] == [];
      BehindEmpty(SearchItems(items, target, isAfter, element));
    } else {
      var tail := items[1..];
      SearchSkip(items, target, isAfter, element);
      MissesShift(items, i, target, isAfter, element);
      SearchFrom(tail, i - 1, target, isAfter, element);
      TailSlices(items, i);
      BehindBehind([items[0]], tail[..i - 1], SearchItems(items[i..], target, isAfter, element));
    }
  }

  lemma MissesShift(items: seq<Json>, i: nat, target: Json, isAfter: bool, element: Json)
    requires Tree(items) && 0 < i <= |items|
    requires forall k :: 0 <= k < i ==> SearchNode(items[k], target, isAfter, element) == Miss
    ensures Tree(items[1..])
    ensures forall k :: 0 <= k < i - 1 ==> SearchNode(items[1..][k], target, isAfter, element) == Miss
  {
    forall k | 0 <= k < i - 1
      ensures SearchNode(items[1..][k], target, isAfter, element) == Miss
    {
      assert items[1..][k] == items[k + 1];
    }
  }

  lemma TailSlices<T>(s: seq<T>, i: nat)
    requires 0 < i <= |s|
    ensures s[1..][i - 1..] == s[i..] && [s[0]] + s[1..][..i - 1] == s[..i]
  {
  }

  /** A search that starts at a matching element stops there. */
  lemma SearchHead(items: seq<Json>, target: Json, isAfter: bool, element: Json)
    requires Tree(items) && items != [] && SearchNode(items[0], target, isAfter, element) != Miss
    ensures SearchItems(items, target, isAfter, element) ==
      match SearchNode(items[0], target, isAfter, element)
      case Inside(n) => Some([n] + items[1..])
      case Here => Some(items[..Offset(isAfter)] + [element] + items[Offset(isAfter)..])
      case Miss => None
  {
  }

  /** Elements before the first that carries the target are passed over. */
  lemma SearchMisses(items: seq<Json>, i: nat, target: Json, isAfter: bool, element: Json)
    requires Tree(items) && i <= |items|
    requires forall k :: 0 <= k < i ==> !NodeHas(items[k], target)
    ensures forall k :: 0 <= k < i ==> SearchNode(items[k], target, isAfter, element) == Miss
  {
    forall k | 0 <= k < i
      ensures SearchNode(items[k], target, isAfter, element) == Miss
    {
      SearchNodeFound(items[k], target, isAfter, element);
    }
  }

  /** The search, resumed at a matching element, puts the element there and keeps what came before. */
  lemma SearchAt(items: seq<Json>, i: nat, target: Json, isAfter: bool, element: Json)
    requires Tree(items) && i < |items| && SearchNode(items[i], target, isAfter, element) != Miss
    ensures Tree(items[i..])
    ensures Behind(items[..i], SearchItems(items[i..], target, isAfter, element)) ==
      match SearchNode(items[i], target, isAfter, element)
      case Inside(n) => Some(items[i := n])
      case Here => Some(items[..i + Offset(isAfter)] + [element] + items[i + Offset(isAfter)..])
      case Miss => None
  {
    var tail := items[i..];
    assert tail[0] == items[i] && tail[1..] == items[i + 1..];
    SearchHead(tail, target, isAfter, element);
    match SearchNode(items[i], target, isAfter, element)
    case Inside(n) =>
      SpliceUpdate(items, i, n);
    case Here =>
      SpliceInsert(items, i, Offset(isAfter), element);
    case Miss =>
  }

  lemma SpliceUpdate<T>(s: seq<T>, i: nat, x: T)
    requires i < |s|
    ensures s[..i] + ([x] + s[i..][1..]) == s[i := x]
  {
  }

  lemma SpliceInsert<T>(s: seq<T>, i: nat, o: nat, x: T)
    requires i < |s| && o <= 1
    ensures s[..i] + (s[i..][..o] + [x] + s[i..][o..]) == s[..i + o] + [x] + s[i + o..]
  {
    assert s[..i] + s[i..][..o] == s[..i + o];
  }

  /**
   * The first element in the list that carries the target is the one the
   * element goes next to (its own code) or into (a GROUP's layout or a
   * ROW's entries); everything before and after it is unchanged.
   */
  lemma SearchFirst(items: seq<Json>, i: nat, target: Json, isAfter: bool, element: Json)
    requires Tree(items) && i < |items| && NodeHas(items[i], target)
    requires forall k :: 0 <= k < i ==> !NodeHas(items[k], target)
    ensures SearchNode(items[i], target, isAfter, element) != Miss
    ensures SearchItems(items, target, isAfter, element) ==
      match SearchNode(items[i], target, isAfter, element)
      case Inside(n) => Some(items[i := n])
      case Here => Some(items[..i + Offset(isAfter)] + [element] + items[i + Offset(isAfter)..])
      case Miss => None
  {
    SearchNodeFound(items[i], target, isAfter, element);
    SearchMisses(items, i, target, isAfter, element);
    SearchFrom(items, i, target, isAfter, element);
    SearchAt(items, i, target, isAfter, element);
  }

  /** The code `after`/`before` name: `position.get("after") or position.get("before")`. */
  function Target(position: Json): Json
    requires position.JObj?
  {
    var after := Get(position, "after");
    if Truthy(after) then after else Get(position, "before")
  }

  /** The insertion into the first top-level GROUP whose code is `groupCode`; no such group leaves the layout as it is. */
  function AddToGroup(layout: seq<Json>, groupCode: Json, index: Json, element: Json): Result<seq<Json>, AddError>
    requires Tree(layout)
  {
    match GroupIndex(layout, groupCode)
    case None => Ok(layout)
    case Some(g) =>
      match LayoutBuilders.RangeStep(index)
      case None => Err(IndexNotInt(index))
      case Some(i) => Ok(layout[g := Set(layout[g], "layout", JArr(InsertAt(GroupItems(layout[g]), i, element)))])
  }

  /** `if position is None: position = {}`. */
  function PositionOrEmpty(position: Json): (r: Json)
    requires position.JObj? || position.JNull?
    ensures r.JObj?
    ensures position.JNull? ==> r == JObj([])
    ensures position.JObj? ==> r == position
  {
    if position.JNull? then JObj([]) else position
  }

  /**
   * _add_element_to_layout on a copy of the top-level list: with `index`,
   * a list insert at top level or, for `type` GROUP with a `groupCode`,
   * into the first such group's layout; with `after` or `before`, next to
   * the first element carrying the target code; otherwise, a `None`
   * position included, at the end.
   */
  function AddElement(layout: seq<Json>, element: Json, position: Json): Result<seq<Json>, AddError>
    requires Tree(layout) && (position.JObj? || position.JNull?)
  {
    var position := PositionOrEmpty(position);
    if Has(position, "index") then
      var index := Get(position, "index");
      if Get(position, "type") == JStr("GROUP") && Has(position, "groupCode") then
        AddToGroup(layout, Get(position, "groupCode"), index, element)
      else
        match LayoutBuilders.RangeStep(index)
        case None => Err(IndexNotInt(index))
        case Some(i) => Ok(InsertAt(layout, i, element))
    else if Has(position, "after") || Has(position, "before") then
      match SearchItems(layout, Target(position), Has(position, "after"), element)
      case None => Ok(layout)
      case Some(updated) => Ok(updated)
    else Ok(layout + [element])
  }

  /** With no position, or one without index, `after` or `before`, the element goes at the end and everything else stays. */
  lemma AddAtEnd(layout: seq<Json>, element: Json, position: Json)
    requires Tree(layout)
    requires position.JNull? || (position.JObj? && !Has(position, "index") && !Has(position, "after") && !Has(position, "before"))
    ensures AddElement(layout, element, position).Ok?
    ensures var r := AddElement(layout, element, position).value;
      |r| == |layout| + 1 && r[|layout|] == element && r[..|layout|] == layout
  {
  }

  /** With an int index and no group, the element is inserted at top level with list-insert semantics, and removing it gives the layout back. */
  lemma AddAtIndex(layout: seq<Json>, element: Json, position: Json)
    requires Tree(layout) && position.JObj? && Has(position, "index")
    requires !(Get(position, "type") == JStr("GROUP") && Has(position, "groupCode"))
    ensures AddElement(layout, element, position).Err? <==> LayoutBuilders.RangeStep(Get(position, "index")).None?
    ensures AddElement(layout, element, position).Ok? ==>
      var r := AddElement(layout, element, position).value;
      var j := InsertPos(|layout|, LayoutBuilders.RangeStep(Get(position, "index")).value);
      |r| == |layout| + 1 && r[j] == element && r[..j] + r[j + 1..] == layout
  {
  }

  /** When no top-level GROUP has the code, the layout is unchanged, even for an index that is not an int. */
  lemma AddToNoGroup(layout: seq<Json>, groupCode: Json, index: Json, element: Json)
    requires Tree(layout)
    requires forall k :: 0 <= k < |layout| ==> !(IsType(layout[k], "GROUP") && PyEq(Get(layout[k], "code"), groupCode))
    ensures AddToGroup(layout, groupCode, index, element) == Ok(layout)
  {
  }

  /**
   * Otherwise only the first top-level group with the code changes, and
   * only in its `layout`, which receives the element with list-insert
   * semantics; an index that is not an int is an error.
   */
  lemma AddToFirstGroup(layout: seq<Json>, groupCode: Json, index: Json, element: Json, g: nat)
    requires Tree(layout) && g < |layout| && IsType(layout[g], "GROUP") && PyEq(Get(layout[g], "code"), groupCode)
    requires forall k :: 0 <= k < g ==> !(IsType(layout[k], "GROUP") && PyEq(Get(layout[k], "code"), groupCode))
    ensures LayoutBuilders.RangeStep(index).None? ==> AddToGroup(layout, groupCode, index, element) == Err(IndexNotInt(index))
    ensures LayoutBuilders.RangeStep(index).Some? ==>
      var r := AddToGroup(layout, groupCode, index, element);
      && r.Ok? && |r.value| == |layout|
      && (forall k :: 0 <= k < |layout| && k != g ==> r.value[k] == layout[k])
      && r.value[g].JObj?
      && Get(r.value[g], "layout") == JArr(InsertAt(GroupItems(layout[g]), LayoutBuilders.RangeStep(index).value, element))
      && (forall key :: key != "layout" ==> Get(r.value[g], key) == Get(layout[g], key))
  {
    GroupAt(layout, groupCode, g);
  }

  /** With `after` or `before`, the layout is unchanged when no element carries the target. */
  lemma AddBesideNothing(layout: seq<Json>, element: Json, position: Json)
    requires Tree(layout) && position.JObj? && !Has(position, "index")
    requires Has(position, "after") || Has(position, "before")
    requires !TreeHas(layout, Target(position))
    ensures AddElement(layout, element, position) == Ok(layout)
  {
    SearchItemsFound(layout, Target(position), Has(position, "after"), element);
  }

  /**
   * Otherwise the first element that carries the target (in list order,
   * looking into each element before the next) receives the element
   * beside it or inside it, and nothing else changes.
   */
  lemma AddBesideFirst(layout: seq<Json>, element: Json, position: Json, i: nat)
    requires Tree(layout) && position.JObj? && !Has(position, "index")
    requires Has(position, "after") || Has(position, "before")
    requires i < |layout| && NodeHas(layout[i], Target(position))
    requires forall k :: 0 <= k < i ==> !NodeHas(layout[k], Target(position))
    ensures var isAfter := Has(position, "after");
      AddElement(layout, element, position) ==
        match SearchNode(layout[i], Target(position), isAfter, element)
        case Inside(n) => Ok(layout[i := n])
        case Here => Ok(layout[..i + Offset(isAfter)] + [element] + layout[i + Offset(isAfter)..])
        case Miss => Ok(layout)
  {
    SearchFirst(layout, i, Target(position), Has(position, "after"), element);
  }

  /** The inner loop of `search_and_insert` over a ROW's entries. */
  method FindEntry(fields: seq<Json>, target: Json) returns (r: Option<nat>)
    requires AllObjects(fields)
    ensures r == FieldHit(fields, target)
  {
    for j := 0 to |fields|
      invariant forall m :: 0 <= m < j ==> !PyEq(Get(fields[m], "code"), target)
    {
      if PyEq(Get(fields[j], "code"), target) {
        FieldHitAt(fields, target, j);
        return Some(j);
      }
    }
    FieldHitFirst(fields, target);
    return None;
  }

  /** The first entry with the target's code is the one `FieldHit` names. */
  lemma FieldHitAt(fields: seq<Json>, target: Json, j: nat)
    requires AllObjects(fields) && j < |fields| && PyEq(Get(fields[j], "code"), target)
    requires forall m :: 0 <= m < j ==> !PyEq(Get(fields[m], "code"), target)
    ensures FieldHit(fields, target) == Some(j)
    decreases j
  {
    if j > 0 {
      var rest := fields[1..];
      forall m | 0 <= m < j - 1
        ensures !PyEq(Get(rest[m], "code"), target)
      {
        assert rest[m] == fields[m + 1];
      }
      assert rest[j - 1] == fields[j] && !PyEq(Get(fields[0], "code"), target);
      FieldHitAt(rest, target, j - 1);
    }
  }

  /** The search, when the elements before `i` do not match and `items[i]` does. */
  lemma SearchStops(items: seq<Json>, i: nat, target: Json, isAfter: bool, element: Json)
    requires Tree(items) && i < |items| && SearchNode(items[i], target, isAfter, element) != Miss
    requires forall k :: 0 <= k < i ==> SearchNode(items[k], target, isAfter, element) == Miss
    ensures SearchItems(items, target, isAfter, element) == Some(Spliced(items, i, SearchNode(items[i], target, isAfter, element), isAfter, element))
  {
    SearchFrom(items, i, target, isAfter, element);
    SearchAt(items, i, target, isAfter, element);
  }

  /** The list once the element at `i` has matched: the new element beside it, or the element rebuilt around it. */
  function Spliced(items: seq<Json>, i: nat, hit: Hit, isAfter: bool, element: Json): seq<Json>
    requires i < |items|
  {
    match hit
    case Inside(n) => items[i := n]
    case Here => items[..i + Offset(isAfter)] + [element] + items[i + Offset(isAfter)..]
    case Miss => items
  }

  /** The search, when no element matches. */
  lemma SearchFails(items: seq<Json>, target: Json, isAfter: bool, element: Json)
    requires Tree(items)
    requires forall k :: 0 <= k < |items| ==> SearchNode(items[k], target, isAfter, element) == Miss
    ensures SearchItems(items, target, isAfter, element) == None
  {
    SearchFrom(items, |items|, target, isAfter, element);
    assert items[|items|..] == [];
  }

  /** One step of `search_and_insert`'s loop: the element's own code, then a GROUP's layout, then a ROW's entries. */
  method InsertInNode(item: Json, target: Json, isAfter: bool, element: Json) returns (hit: Hit)
    requires Node(item)
    ensures hit == SearchNode(item, target, isAfter, element)
    decreases item, 1
  {
    if PyEq(Get(item, "code"), target) {
      return Here;
    } else if IsType(item, "GROUP") && Has(item, "layout") {
      var found, nested := SearchAndInsert(Get(item, "layout").items, target, isAfter, element);
      if found {
        return Inside(Set(item, "layout", JArr(nested)));
      }
      return Miss;
    } else if IsType(item, "ROW") && Has(item, "fields") {
      assert SearchNode(item, target, isAfter, element) == RowInsert(item, target, isAfter, element);
      var fields := Get(item, "fields").items;
      var j := FindEntry(fields, target);
      if j.Some? {
        var at := j.value + Offset(isAfter);
        return Inside(Set(item, "fields", JArr(fields[..at] + [element] + fields[at..])));
      }
      return Miss;
    }
    return Miss;
  }

  /** `search_and_insert`: the loop over the list, returning at the first element that matches or holds a match. */
  method SearchAndInsert(items: seq<Json>, target: Json, isAfter: bool, element: Json) returns (found: bool, updated: seq<Json>)
    requires Tree(items)
    ensures found == SearchItems(items, target, isAfter, element).Some?
    ensures updated == if found then SearchItems(items, target, isAfter, element).value else items
    decreases items, 0
  {
    for i := 0 to |items|
      invariant forall k :: 0 <= k < i ==> SearchNode(items[k], target, isAfter, element) == Miss
    {
      var hit := InsertInNode(items[i], target, isAfter, element);
      if hit != Miss {
        SearchStops(items, i, target, isAfter, element);
        return true, Spliced(items, i, hit, isAfter, element);
      }
      MissesGrow(items, i, target, isAfter, element);
    }
    SearchFails(items, target, isAfter, element);
    return false, items;
  }

  lemma MissesGrow(items: seq<Json>, i: nat, target: Json, isAfter: bool, element: Json)
    requires Tree(items) && i < |items| && SearchNode(items[i], target, isAfter, element) == Miss
    requires forall k :: 0 <= k < i ==> SearchNode(items[k], target, isAfter, element) == Miss
    ensures forall k :: 0 <= k < i + 1 ==> SearchNode(items[k], target, isAfter, element) == Miss
  {
  }

  lemma GroupAt(layout: seq<Json>, groupCode: Json, g: nat)
    requires Tree(layout) && g < |layout| && IsType(layout[g], "GROUP") && PyEq(Get(layout[g], "code"), groupCode)
    requires forall k :: 0 <= k < g ==> !(IsType(layout[k], "GROUP") && PyEq(Get(layout[k], "code"), groupCode))
    ensures GroupIndex(layout, groupCode) == Some(g)
  {
  }

  lemma GroupsPassed(layout: seq<Json>, groupCode: Json, g: nat)
    requires Tree(layout) && g < |layout| && !(IsType(layout[g], "GROUP") && PyEq(Get(layout[g], "code"), groupCode))
    requires forall k :: 0 <= k < g ==> !(IsType(layout[k], "GROUP") && PyEq(Get(layout[k], "code"), groupCode))
    ensures forall k :: 0 <= k < g + 1 ==> !(IsType(layout[k], "GROUP") && PyEq(Get(layout[k], "code"), groupCode))
  {
  }

  /** The loop over the top-level list that finds the group to insert into. */
  method InsertIntoGroup(layout: seq<Json>, groupCode: Json, index: Json, element: Json) returns (r: Result<seq<Json>, AddError>)
    requires Tree(layout)
    ensures r == AddToGroup(layout, groupCode, index, element)
  {
    for g := 0 to |layout|
      invariant forall k :: 0 <= k < g ==> !(IsType(layout[k], "GROUP") && PyEq(Get(layout[k], "code"), groupCode))
    {
      var item := layout[g];
      if IsType(item, "GROUP") && PyEq(Get(item, "code"), groupCode) {
        GroupAt(layout, groupCode, g);
        var nested := GroupItems(item);
        var i := LayoutBuilders.RangeStep(index);
        if i.None? {
          return Err(IndexNotInt(index));
        }
        return Ok(layout[g := Set(item, "layout", JArr(InsertAt(nested, i.value, element)))]);
      }
      GroupsPassed(layout, groupCode, g);
    }
    AddToNoGroup(layout, groupCode, index, element);
    return Ok(layout);
  }

  /** _add_element_to_layout. */
  method AddElementToLayout(layout: seq<Json>, element: Json, position: Json) returns (r: Result<seq<Json>, AddError>)
    requires Tree(layout) && (position.JObj? || position.JNull?)
    ensures r == AddElement(layout, element, position)
  {
    var position := position;
    if position.JNull? {
      position := JObj([]);
    }
    var updated := layout;
    if Has(position, "index") {
      var index := Get(position, "index");
      if Get(position, "type") == JStr("GROUP") && Has(position, "groupCode") {
        r := InsertIntoGroup(updated, Get(position, "groupCode"), index, element);
        return;
      }
      var i := LayoutBuilders.RangeStep(index);
      if i.None? {
        return Err(IndexNotInt(index));
      }
      updated := InsertAt(updated, i.value, element);
    } else if Has(position, "after") || Has(position, "before") {
      var after := Get(position, "after");
      var target := if Truthy(after) then after else Get(position, "before");
      var found;
      found, updated := SearchAndInsert(updated, target, Has(position, "after"), element);
    } else {
      updated := updated + [element];
    }
    return Ok(updated);
  }
}
