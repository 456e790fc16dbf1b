/**
 * The layout helpers of utils/layout_utils.py: collecting the field codes a
 * form layout places, finding the custom fields it leaves out, appending
 * entries for them, and raising the width of lookup fields.
 */
module LayoutUtils {
  import opened Wrappers
  import opened Json
  import Constants
  import FieldHandlers

  // ---------------------------------------------------------------------------
  // Layout trees the walkers can traverse

  /** A ROW element that carries a `fields` entry, the rows the walkers descend into. */
  predicate IsRow(item: Json)
  {
    item.JObj? && IsStr(item, "type", "ROW") && Has(item, "fields")
  }

  /** A GROUP element that carries a nested `layout`. */
  predicate IsGroup(item: Json)
  {
    item.JObj? && IsStr(item, "type", "GROUP") && Has(item, "layout")
  }

  /**
   * A layout the walkers traverse without raising: each element is a dict, a
   * row's `fields` is a list of dicts, and a group's nested layout is
   * traversable in turn.  A value that is not a list is skipped by the walkers.
   */
  predicate Walkable(layout: Json)
    decreases layout
  {
    layout.JArr? ==> forall i :: 0 <= i < |layout.items| ==> WalkableItem(layout.items[i])
  }

  predicate WalkableItem(item: Json)
    decreases item
  {
    item.JObj?
    && (IsRow(item) ==> Get(item, "fields").JArr? && AllObjects(Get(item, "fields").items))
    && (IsGroup(item) ==> Walkable(Get(item, "layout")))
  }

  predicate WalkableItems(items: seq<Json>)
  {
    forall i :: 0 <= i < |items| ==> WalkableItem(items[i])
  }

  // ---------------------------------------------------------------------------
  // extract_fields_from_layout

  /** The truthy `code` of each field of a row, in order. */
  function RowCodes(fields: seq<Json>): (r: seq<Json>)
    requires AllObjects(fields)
    ensures forall c :: c in r ==> Truthy(c)
    ensures forall j :: 0 <= j < |fields| && Truthy(Get(fields[j], "code")) ==> Get(fields[j], "code") in r
  {
    if fields == [] then []
    else
      var last := fields[|fields| - 1];
      var rest := RowCodes(fields[..|fields| - 1]);
      assert forall j :: 0 <= j < |fields| - 1 ==> fields[..|fields| - 1][j] == fields[j];
      rest + (if Truthy(Get(last, "code")) then [Get(last, "code")] else [])
  }

  /**
   * The codes one layout element places: every truthy field code of a row,
   * whatever the fields' types; the codes of a group's nested layout; the
   * code of a subtable.  The three cases are tried in that order.
   */
  function ExtractItem(item: Json): (r: seq<Json>)
    requires WalkableItem(item)
    ensures forall c :: c in r ==> Truthy(c)
    decreases item
  {
    if IsRow(item) then RowCodes(Get(item, "fields").items)
    else if IsGroup(item) then Extract(Get(item, "layout"))
    else if IsStr(item, "type", "SUBTABLE") && Truthy(Get(item, "code")) then [Get(item, "code")]
    else []
  }

  /** The codes a sequence of elements places, in document order. */
  function ExtractItems(items: seq<Json>): (r: seq<Json>)
    requires WalkableItems(items)
    ensures forall c :: c in r ==> Truthy(c)
    decreases items
  {
    if items == [] then []
    else ExtractItems(items[..|items| - 1]) + ExtractItem(items[|items| - 1])
  }

  /** The codes a layout places, duplicates included; nothing for a value that is not a list. */
  function Extract(layout: Json): (r: seq<Json>)
    requires Walkable(layout)
    ensures !layout.JArr? ==> r == []
    ensures forall c :: c in r ==> Truthy(c)
    decreases layout
  {
    if !Truthy(layout) || !layout.JArr? then [] else ExtractItems(layout.items)
  }

  /** One more element adds its own codes after those of the elements before it. */
  lemma ExtractItemsSnoc(items: seq<Json>, i: nat)
    requires WalkableItems(items) && i < |items|
    ensures WalkableItems(items[..i]) && WalkableItems(items[..i + 1])
    ensures ExtractItems(items[..i + 1]) == ExtractItems(items[..i]) + ExtractItem(items[i])
  {
    assert items[..i + 1][..i] == items[..i];
    assert forall j :: 0 <= j < i + 1 ==> items[..i + 1][j] == items[j];
  }

  /** One more field adds its code, when truthy, after the codes of the fields before it. */
  lemma RowCodesSnoc(fields: seq<Json>, j: nat)
    requires AllObjects(fields) && j < |fields|
    ensures AllObjects(fields[..j]) && AllObjects(fields[..j + 1])
    ensures RowCodes(fields[..j + 1]) ==
      RowCodes(fields[..j]) + (if Truthy(Get(fields[j], "code")) then [Get(fields[j], "code")] else [])
  {
    assert fields[..j + 1][..j] == fields[..j];
    assert forall k :: 0 <= k < j + 1 ==> fields[..j + 1][k] == fields[k];
  }

  /** Extraction distributes over concatenation, so codes come out in document order. */
  lemma {:induction false} ExtractItemsAppend(a: seq<Json>, b: seq<Json>)
    requires WalkableItems(a) && WalkableItems(b)
    ensures WalkableItems(a + b)
    ensures ExtractItems(a + b) == ExtractItems(a) + ExtractItems(b)
    decreases |b|
  {
    assert WalkableItems(a + b) by {
      forall i | 0 <= i < |a + b| ensures WalkableItem((a + b)[i]) {
        if i < |a| { assert (a + b)[i] == a[i]; } else { assert (a + b)[i] == b[i - |a|]; }
      }
    }
    if b == [] {
      assert a + b == a;
    } else {
      var b' := b[..|b| - 1];
      assert (a + b)[..|a + b| - 1] == a + b';
      assert (a + b)[|a + b| - 1] == b[|b| - 1];
      assert WalkableItems(b');
      ExtractItemsAppend(a, b');
    }
  }

  /** A list layout's codes are those of its elements, an empty list included. */
  lemma ExtractList(layout: Json)
    requires layout.JArr? && Walkable(layout)
    ensures WalkableItems(layout.items) && Extract(layout) == ExtractItems(layout.items)
  {
  }

  /**
   * The recursive walker with its accumulator: appends the codes `layout`
   * places to `codes`, element by element.
   */
  method CollectCodes(layout: Json, codes: seq<Json>) returns (out: seq<Json>)
    requires Walkable(layout)
    ensures out == codes + Extract(layout)
    decreases layout
  {
    if !Truthy(layout) || !layout.JArr? {
      return codes;
    }
    var items := layout.items;
    assert WalkableItems(items);
    out := codes;
    for i := 0 to |items|
      invariant out == codes + ExtractItems(items[..i])
    {
      ExtractItemsSnoc(items, i);
      out := CollectItem(items[i], out);
    }
    assert items[..|items|] == items;
  }

  /**
   * One element of the walk: the truthy code of each field of a row, the
   * codes of a group's nested layout, or the code of a subtable.
   */
  method CollectItem(item: Json, codes: seq<Json>) returns (out: seq<Json>)
    requires WalkableItem(item)
    ensures out == codes + ExtractItem(item)
    decreases item
  {
    out := codes;
    if IsRow(item) {
      var fields := Get(item, "fields").items;
      for j := 0 to |fields|
        invariant out == codes + RowCodes(fields[..j])
      {
        RowCodesSnoc(fields, j);
        if Truthy(Get(fields[j], "code")) {
          out := out + [Get(fields[j], "code")];
        }
      }
      assert fields[..|fields|] == fields;
    } else if IsGroup(item) {
      out := CollectCodes(Get(item, "layout"), out);
    } else if IsStr(item, "type", "SUBTABLE") && Truthy(Get(item, "code")) {
      out := out + [Get(item, "code")];
    }
  }

  /** extract_fields_from_layout: the codes the layout places, in document order. */
  method ExtractFieldsFromLayout(layout: Json) returns (codes: seq<Json>)
    requires Walkable(layout)
    ensures codes == Extract(layout)
    ensures forall c :: c in codes ==> Truthy(c)
  {
    codes := CollectCodes(layout, []);
  }

  // ---------------------------------------------------------------------------
  // validate_fields_in_layout

  /** A form's field map: a dict from field code to field definition dict. */
  predicate FieldMap(fields: Json)
  {
    fields.JObj? && forall i :: 0 <= i < |fields.members| ==> fields.members[i].1.JObj?
  }

  /** The codes of the custom fields, those whose type is not a system type, in map order. */
  function CustomCodes(m: Members): (r: seq<string>)
    requires forall i :: 0 <= i < |m| ==> m[i].1.JObj?
    ensures forall c :: c in r <==>
      exists i :: 0 <= i < |m| && m[i].0 == c && !StrIn(Get(m[i].1, "type"), Constants.SystemFieldTypes)
    ensures Subseq(r, Keys(m))
  {
    if m == [] then []
    else
      var rest := CustomCodes(m[1..]);
      assert forall i :: 1 <= i < |m| ==> m[1..][i - 1] == m[i];
      assert Keys(m) == [m[0].0] + Keys(m[1..]);
      SubseqSkip(rest, Keys(m[1..]), m[0].0);
      if !StrIn(Get(m[0].1, "type"), Constants.SystemFieldTypes) then [m[0].0] + rest else rest
  }

  /** `r` is `s` with some elements left out, the rest kept in order. */
  predicate Subseq<T(==)>(r: seq<T>, s: seq<T>)
  {
    if r == [] then true
    else if s == [] then false
    else if r[0] == s[0] then Subseq(r[1..], s[1..])
    else Subseq(r, s[1..])
  }

  /** Leaving out one more element of `s` keeps a subsequence a subsequence. */
  lemma {:induction false} SubseqSkip<T>(r: seq<T>, s: seq<T>, x: T)
    requires Subseq(r, s)
    ensures Subseq(r, [x] + s)
    decreases |s|, 1
  {
    if r != [] && r[0] == x {
      assert ([x] + s)[1..] == s;
      SubseqShift(r, s);
    }
  }

  /** Dropping the first element of a subsequence of `s` leaves a subsequence of `s`. */
  lemma {:induction false} SubseqShift<T>(r: seq<T>, s: seq<T>)
    requires r != [] && Subseq(r, s)
    ensures Subseq(r[1..], s)
    decreases |s|, 0
  {
    if r[0] == s[0] {
      if r[1..] != [] {
        SubseqSkip(r[1..], s[1..], s[0]);
        assert [s[0]] + s[1..] == s;
      }
    } else {
      SubseqShift(r, s[1..]);
      if r[1..] != [] {
        SubseqSkip(r[1..], s[1..], s[0]);
        assert [s[0]] + s[1..] == s;
      }
    }
  }

  /** The codes among `codes` that `found` does not hold as strings, in order. */
  function NotFound(codes: seq<string>, found: seq<Json>): (r: seq<string>)
    ensures forall c :: c in r <==> c in codes && JStr(c) !in found
    ensures Subseq(r, codes)
  {
    if codes == [] then []
    else
      var rest := NotFound(codes[1..], found);
      assert forall c :: c in codes <==> c == codes[0] || c in codes[1..];
      assert codes == [codes[0]] + codes[1..];
      SubseqSkip(rest, codes[1..], codes[0]);
      if JStr(codes[0]) !in found then [codes[0]] + rest else rest
  }

  /**
   * validate_fields_in_layout: the custom fields the layout does not place,
   * in the order of the field map; nothing when there is no field map.
   */
  function MissingFields(layout: Json, allFields: Json): (r: seq<string>)
    requires Walkable(layout)
    requires !Truthy(allFields) || FieldMap(allFields)
    ensures !Truthy(allFields) ==> r == []
    ensures Truthy(allFields) ==> forall c :: c in r <==>
      (c in CustomCodes(allFields.members) && JStr(c) !in Extract(layout))
    ensures Truthy(allFields) ==> Subseq(r, CustomCodes(allFields.members))
  {
    if !Truthy(allFields) then [] else NotFound(CustomCodes(allFields.members), Extract(layout))
  }

  // ---------------------------------------------------------------------------
  // add_missing_fields_to_layout

  /** The messages add_missing_fields_to_layout reports, by kind; their wording is not modelled. */
  datatype Warning =
    | MissingWarning(codes: seq<string>)
    | AutoFixHint
    | SubtableAdded(code: string)
    | FieldAdded(code: string)

  datatype Patched = Patched(layout: Json, warnings: seq<Warning>)

  /** The element appended for a missing field: a SUBTABLE element, or a one-field ROW. */
  function EntryFor(code: string, def: Json): Json
    requires def.JObj?
  {
    if IsStr(def, "type", "SUBTABLE") then Display(["type", "code"], [JStr("SUBTABLE"), JStr(code)])
    else Display(["type", "fields"], [JStr("ROW"), JArr([Display(["type", "code"], [Get(def, "type"), JStr(code)])])])
  }

  /** An appended element is traversable and places exactly its own code. */
  lemma EntryForPlaces(code: string, def: Json)
    requires def.JObj? && code != ""
    ensures WalkableItem(EntryFor(code, def)) && ExtractItem(EntryFor(code, def)) == [JStr(code)]
  {
    assert Distinct(["type", "code"]) && Distinct(["type", "fields"]);
    var r := EntryFor(code, def);
    if IsStr(def, "type", "SUBTABLE") {
      DisplayAt(["type", "code"], [JStr("SUBTABLE"), JStr(code)], 0);
      DisplayAt(["type", "code"], [JStr("SUBTABLE"), JStr(code)], 1);
      DisplayKeys(["type", "code"], [JStr("SUBTABLE"), JStr(code)], "fields");
      DisplayKeys(["type", "code"], [JStr("SUBTABLE"), JStr(code)], "layout");
      assert !IsRow(r) && !IsGroup(r);
    } else {
      var field := Display(["type", "code"], [Get(def, "type"), JStr(code)]);
      DisplayAt(["type", "code"], [Get(def, "type"), JStr(code)], 1);
      DisplayAt(["type", "fields"], [JStr("ROW"), JArr([field])], 0);
      DisplayAt(["type", "fields"], [JStr("ROW"), JArr([field])], 1);
      assert IsRow(r) && Get(r, "fields").items == [field];
      assert [field][..0] == [];
      assert RowCodes([field]) == [JStr(code)];
    }
  }

  /** The definition the field map holds for `code`, or `None`. */
  function DefOf(allFields: Json, code: string): (r: Json)
    requires FieldMap(allFields)
    ensures r.JObj? || r == JNull
  {
    match IndexOf(allFields.members, code)
    case Some(i) => allFields.members[i].1
    case None => JNull
  }

  lemma DefOfGet(allFields: Json, code: string)
    requires FieldMap(allFields)
    ensures DefOf(allFields, code) == Get(allFields, code)
  {
  }

  /** The elements appended for `codes`, in order; a code without a non-empty definition gets none. */
  function AddedEntries(codes: seq<string>, allFields: Json): (r: seq<Json>)
    requires FieldMap(allFields)
    ensures |r| <= |codes|
  {
    if codes == [] then []
    else
      var code := codes[|codes| - 1];
      var def := DefOf(allFields, code);
      AddedEntries(codes[..|codes| - 1], allFields) + (if Truthy(def) then [EntryFor(code, def)] else [])
  }

  /** The warning for each appended element, in the same order. */
  function AddedWarnings(codes: seq<string>, allFields: Json): (r: seq<Warning>)
    requires FieldMap(allFields)
    ensures |r| == |AddedEntries(codes, allFields)|
  {
    if codes == [] then []
    else
      var code := codes[|codes| - 1];
      var def := DefOf(allFields, code);
      AddedWarnings(codes[..|codes| - 1], allFields)
        + (if !Truthy(def) then []
           else if IsStr(def, "type", "SUBTABLE") then [SubtableAdded(code)]
           else [FieldAdded(code)])
  }

  /** One more missing code adds its element and its warning after those of the codes before it. */
  lemma AddedSnoc(codes: seq<string>, allFields: Json, i: nat)
    requires FieldMap(allFields) && i < |codes|
    ensures var def := DefOf(allFields, codes[i]);
      AddedEntries(codes[..i + 1], allFields) == AddedEntries(codes[..i], allFields)
        + (if Truthy(def) then [EntryFor(codes[i], def)] else [])
      && AddedWarnings(codes[..i + 1], allFields) == AddedWarnings(codes[..i], allFields)
        + (if !Truthy(def) then []
           else if IsStr(def, "type", "SUBTABLE") then [SubtableAdded(codes[i])]
           else [FieldAdded(codes[i])])
  {
    assert codes[..i + 1][..i] == codes[..i];
  }

  /**
   * add_missing_fields_to_layout: the layout unchanged when there is no
   * field map or nothing is missing; the layout unchanged with two warnings
   * without `auto_fix`; else a copy with one element appended per missing
   * field that has a definition.
   */
  function AddMissing(layout: Json, allFields: Json, autoFix: bool): (r: Patched)
    requires Walkable(layout)
    requires !Truthy(allFields) || FieldMap(allFields)
    requires autoFix ==> layout.JArr?
  {
    if !Truthy(allFields) then Patched(layout, [])
    else
      var missing := MissingFields(layout, allFields);
      if missing == [] then Patched(layout, [])
      else if !autoFix then Patched(layout, [MissingWarning(missing), AutoFixHint])
      else Patched(JArr(layout.items + AddedEntries(missing, allFields)),
                   [MissingWarning(missing)] + AddedWarnings(missing, allFields))
  }

  /** The function's body as the source writes it, with the repairing loop in AppendMissing. */
  method AddMissingFieldsToLayout(layout: Json, allFields: Json, autoFix: bool) returns (r: Patched)
    requires Walkable(layout)
    requires !Truthy(allFields) || FieldMap(allFields)
    requires autoFix ==> layout.JArr?
    ensures r == AddMissing(layout, allFields, autoFix)
  {
    if !Truthy(allFields) {
      return Patched(layout, []);
    }
    var missing := MissingFields(layout, allFields);
    var warnings: seq<Warning> := [];
    if missing == [] {
      return Patched(layout, warnings);
    }
    warnings := warnings + [MissingWarning(missing)];
    if !autoFix {
      warnings := warnings + [AutoFixHint];
      return Patched(layout, warnings);
    }
    var newLayout;
    newLayout, warnings := AppendMissing(layout.items, missing, allFields, warnings);
    return Patched(JArr(newLayout), warnings);
  }

  /**
   * The repairing loop: appends to a copy of `items` one element per code
   * whose definition is non-empty, and a warning for each.
   */
  method AppendMissing(items: seq<Json>, missing: seq<string>, allFields: Json, warnings: seq<Warning>)
    returns (newLayout: seq<Json>, newWarnings: seq<Warning>)
    requires FieldMap(allFields)
    ensures newLayout == items + AddedEntries(missing, allFields)
    ensures newWarnings == warnings + AddedWarnings(missing, allFields)
  {
    newLayout, newWarnings := items, warnings;
    for i := 0 to |missing|
      invariant newLayout == items + AddedEntries(missing[..i], allFields)
      invariant newWarnings == warnings + AddedWarnings(missing[..i], allFields)
    {
      AddedSnoc(missing, allFields, i);
      var code := missing[i];
      var def := DefOf(allFields, code);
      if !Truthy(def) {
        continue;
      }
      if IsStr(def, "type", "SUBTABLE") {
        newLayout := newLayout + [EntryFor(code, def)];
        newWarnings := newWarnings + [SubtableAdded(code)];
      } else {
        newLayout := newLayout + [EntryFor(code, def)];
        newWarnings := newWarnings + [FieldAdded(code)];
      }
    }
    assert missing[..|missing|] == missing;
  }

  /**
   * Without a field map, or with nothing missing, the layout comes back
   * unchanged and without warnings; without `auto_fix` it comes back
   * unchanged with exactly two warnings, the first naming the missing codes.
   */
  lemma AddMissingReportOnly(layout: Json, allFields: Json, autoFix: bool)
    requires Walkable(layout)
    requires !Truthy(allFields) || FieldMap(allFields)
    requires autoFix ==> layout.JArr?
    ensures var r := AddMissing(layout, allFields, autoFix);
      (MissingFields(layout, allFields) == [] ==> r == Patched(layout, []))
      && (!autoFix ==> r.layout == layout)
      && (!autoFix && MissingFields(layout, allFields) != [] ==>
            r.warnings == [MissingWarning(MissingFields(layout, allFields)), AutoFixHint])
  {
  }

  /**
   * With `auto_fix`, the original elements stay in front unchanged and the
   * appended ones follow in the order of the missing codes, with one warning
   * after the first for each appended element.
   */
  lemma AddMissingAppends(layout: Json, allFields: Json)
    requires Walkable(layout) && layout.JArr?
    requires !Truthy(allFields) || FieldMap(allFields)
    ensures var r := AddMissing(layout, allFields, true);
      r.layout.JArr? && |layout.items| <= |r.layout.items|
      && r.layout.items[..|layout.items|] == layout.items
      && (MissingFields(layout, allFields) != [] ==>
            r.layout.items[|layout.items|..] == AddedEntries(MissingFields(layout, allFields), allFields)
            && |r.warnings| == 1 + |r.layout.items| - |layout.items|
            && r.warnings[0] == MissingWarning(MissingFields(layout, allFields)))
  {
    var r := AddMissing(layout, allFields, true);
    if Truthy(allFields) && MissingFields(layout, allFields) != [] {
      var added := AddedEntries(MissingFields(layout, allFields), allFields);
      assert r.layout.items == layout.items + added;
      assert r.layout.items[..|layout.items|] == layout.items;
      assert r.layout.items[|layout.items|..] == added;
    }
  }

  /** Every appended element is traversable. */
  lemma {:induction false} AddedEntriesWalkable(codes: seq<string>, allFields: Json)
    requires FieldMap(allFields)
    requires forall c :: c in codes ==> c != ""
    ensures WalkableItems(AddedEntries(codes, allFields))
    decreases |codes|
  {
    if codes != [] {
      var init := codes[..|codes| - 1];
      var code := codes[|codes| - 1];
      assert forall c :: c in init ==> c in codes;
      assert code in codes;
      AddedEntriesWalkable(init, allFields);
      var def := DefOf(allFields, code);
      var tail := if Truthy(def) then [EntryFor(code, def)] else [];
      if Truthy(def) {
        EntryForPlaces(code, def);
      }
      ExtractItemsAppend(AddedEntries(init, allFields), tail);
    }
  }

  /** The codes the appended elements place: each code whose definition is non-empty. */
  function PlacedCodes(codes: seq<string>, allFields: Json): (r: seq<Json>)
    requires FieldMap(allFields)
    ensures forall c :: c in codes && Truthy(DefOf(allFields, c)) ==> JStr(c) in r
  {
    if codes == [] then []
    else
      var code := codes[|codes| - 1];
      assert forall c :: c in codes ==> c == code || c in codes[..|codes| - 1];
      PlacedCodes(codes[..|codes| - 1], allFields) + (if Truthy(DefOf(allFields, code)) then [JStr(code)] else [])
  }

  /** Each code with a non-empty definition gets an element that places it, and nothing else is placed. */
  lemma {:induction false} AddedEntriesPlace(codes: seq<string>, allFields: Json)
    requires FieldMap(allFields)
    requires forall c :: c in codes ==> c != ""
    ensures WalkableItems(AddedEntries(codes, allFields))
    ensures ExtractItems(AddedEntries(codes, allFields)) == PlacedCodes(codes, allFields)
    decreases |codes|
  {
    AddedEntriesWalkable(codes, allFields);
    if codes != [] {
      var init := codes[..|codes| - 1];
      var code := codes[|codes| - 1];
      var def := DefOf(allFields, code);
      assert forall c :: c in init ==> c in codes;
      AddedEntriesPlace(init, allFields);
      var front := AddedEntries(init, allFields);
      var tail := if Truthy(def) then [EntryFor(code, def)] else [];
      if Truthy(def) {
        assert code in codes;
        EntryForPlaces(code, def);
        assert tail[..0] == [];
        assert ExtractItems(tail) == [JStr(code)];
      }
      ExtractItemsAppend(front, tail);
    }
  }

  /**
   * Repairing is idempotent when every field code is non-empty and every
   * definition is a non-empty dict: after one `auto_fix` call nothing is
   * missing, so a second call returns the layout unchanged with no warnings.
   */
  lemma AddMissingSettles(layout: Json, allFields: Json)
    requires Walkable(layout) && layout.JArr?
    requires FieldMap(allFields) && Truthy(allFields)
    requires forall i :: 0 <= i < |allFields.members| ==>
      allFields.members[i].0 != "" && Truthy(allFields.members[i].1)
    ensures var r := AddMissing(layout, allFields, true);
      Walkable(r.layout) && r.layout.JArr?
      && MissingFields(r.layout, allFields) == []
      && AddMissing(r.layout, allFields, true) == Patched(r.layout, [])
  {
    var missing := MissingFields(layout, allFields);
    var r := AddMissing(layout, allFields, true);
    if missing != [] {
      var m := allFields.members;
      forall c | c in missing ensures c != "" && Truthy(DefOf(allFields, c)) {
        assert c in CustomCodes(m);
        var i :| 0 <= i < |m| && m[i].0 == c && !StrIn(Get(m[i].1, "type"), Constants.SystemFieldTypes);
        assert IndexOf(m, c).Some?;
      }
      var added := AddedEntries(missing, allFields);
      AddedEntriesPlace(missing, allFields);
      ExtractList(layout);
      ExtractItemsAppend(layout.items, added);
      assert r.layout == JArr(layout.items + added);
      assert Walkable(r.layout);
      assert Extract(r.layout) == ExtractItems(layout.items + added) by {
        if layout.items + added == [] {
        } else {
          assert Truthy(r.layout);
        }
      }
      forall c | c in CustomCodes(m) ensures JStr(c) in Extract(r.layout) {
        if JStr(c) !in Extract(layout) {
          assert c in missing;
        }
      }
      NotFoundNone(CustomCodes(m), Extract(r.layout));
    }
  }

  lemma NotFoundNone(codes: seq<string>, found: seq<Json>)
    requires forall c :: c in codes ==> JStr(c) in found
    ensures NotFound(codes, found) == []
  {
    if codes != [] {
      NotFoundNone(codes[1..], found);
    }
  }

  // ---------------------------------------------------------------------------
  // auto_correct_field_width

  /**
   * The exceptions the width helpers let escape: a `size` that is not a dict,
   * a definition's `lookup` or its `relatedApp` that is not a dict, a width
   * or recommended width `int()` refuses, and a field code that cannot be a
   * dict key.
   */
  datatype WidthError = SizeNotDict | LookupNotDict | WidthNotInt | CodeUnhashable

  /** The guidance reported for a lookup field whose width was raised, naming the field's code. */
  datatype Guidance = LookupWidthGuidance(code: Json)

  datatype Raised = Raised(field: Json, bumped: bool)

  datatype Corrected = Corrected(field: Json, guidance: Option<Guidance>)

  /** The field's `size`, with `{}` standing in when the field has none. */
  function SizeOf(field: Json): Json
    requires field.JObj?
  {
    if Has(field, "size") then Get(field, "size") else JObj([])
  }

  /** The field's width, `None` when its size has none. */
  function WidthOf(field: Json): Json
    requires field.JObj? && SizeOf(field).JObj?
  {
    Get(SizeOf(field), "width")
  }

  /**
   * Sets the width in the field's size (creating the size when absent) to
   * `value` when the width is missing or falsy or `int(width) < int(value)`.
   * `int(value)` is only evaluated when the width is truthy.
   */
  function RaiseWidth(field: Json, value: Json): (r: Result<Raised, WidthError>)
    requires field.JObj?
  {
    var size := SizeOf(field);
    if !size.JObj? then Err(SizeNotDict)
    else
      var width := Get(size, "width");
      var raised := Raised(Set(field, "size", Set(size, "width", value)), true);
      if !Truthy(width) then Ok(raised)
      else match PyInt(width)
        case None => Err(WidthNotInt)
        case Some(w) =>
          match PyInt(value)
          case None => Err(WidthNotInt)
          case Some(v) => if w < v then Ok(raised) else Ok(Raised(field, false))
  }

  /**
   * A raise leaves a size dict holding the width; it replaces the width by
   * `value` exactly when the width was missing, falsy or numerically below
   * `value`, and otherwise returns the field untouched.  No key of the field
   * but `size`, and no key of the size but `width`, changes.
   */
  lemma RaiseWidthFacts(field: Json, value: Json)
    requires field.JObj? && RaiseWidth(field, value).Ok?
    ensures var a := RaiseWidth(field, value).value;
      a.field.JObj? && Has(a.field, "size") && SizeOf(field).JObj? && SizeOf(a.field).JObj?
      && Has(SizeOf(a.field), "width")
      && (a.bumped <==> (!Truthy(WidthOf(field)) || PyInt(WidthOf(field)).value < PyInt(value).value))
      && (a.bumped ==> WidthOf(a.field) == value)
      && (!a.bumped ==> a.field == field && Truthy(WidthOf(field)) && PyInt(value).Some?
                        && PyInt(WidthOf(field)).value >= PyInt(value).value)
      && (forall k :: k != "size" ==> Get(a.field, k) == Get(field, k) && (Has(a.field, k) <==> Has(field, k)))
      && (forall k :: k != "width" ==> Get(SizeOf(a.field), k) == Get(SizeOf(field), k))
  {
  }

  /** A width already at or above `value` is left alone. */
  lemma RaiseWidthKeeps(field: Json, value: Json)
    requires field.JObj? && SizeOf(field).JObj? && Truthy(WidthOf(field))
    requires PyInt(WidthOf(field)).Some? && PyInt(value).Some?
    requires PyInt(WidthOf(field)).value >= PyInt(value).value
    ensures RaiseWidth(field, value) == Ok(Raised(field, false))
  {
  }

  /** A width that already is `value` is not changed by raising it to `value` again. */
  lemma RaiseWidthAgain(field: Json, value: Json)
    requires field.JObj? && Has(field, "size") && SizeOf(field).JObj? && Has(SizeOf(field), "width")
    requires WidthOf(field) == value && (Truthy(value) ==> PyInt(value).Some?)
    ensures RaiseWidth(field, value).Ok? && RaiseWidth(field, value).value.field == field
  {
    var size := SizeOf(field);
    SetSame(size, "width");
    SetSame(field, "size");
  }

  /** Whether the definition marks a lookup field, and whether it recommends a width. */
  predicate IsLookupDef(def: Json)
  {
    def.JObj? && Truthy(def) && Has(def, "lookup")
  }

  predicate RecommendsWidth(def: Json)
  {
    def.JObj? && Truthy(def) && Has(def, "_recommendedMinWidth")
  }

  /**
   * auto_correct_field_width: the debug lines first read the field's size
   * and the definition's lookup, and raise when either is not a dict; then a
   * lookup field's width is raised to "250", with a guidance when it was
   * raised; then a recommended width raises it again, without guidance.
   */
  function CorrectFieldWidth(field: Json, def: Json): Result<Corrected, WidthError>
    requires field.JObj? && (!Truthy(def) || def.JObj?)
  {
    if !SizeOf(field).JObj? then Err(SizeNotDict)
    else if LookupReadFails(def) then Err(LookupNotDict)
    else
      var afterLookup :=
        if IsLookupDef(def) then RaiseWidth(field, JStr(Constants.LookupFieldMinWidth))
        else Ok(Raised(field, false));
      match afterLookup
      case Err(e) => Err(e)
      case Ok(a) =>
        var guidance := if a.bumped then Some(LookupWidthGuidance(Get(field, "code"))) else None;
        if RecommendsWidth(def) then
          match RaiseWidth(a.field, Get(def, "_recommendedMinWidth"))
          case Err(e) => Err(e)
          case Ok(b) => Ok(Corrected(b.field, guidance))
        else Ok(Corrected(a.field, guidance))
  }

  /**
   * The debug line describing a lookup definition reads
   * `field_def.get("lookup", {}).get("relatedApp", {}).get("app")`, which
   * raises `AttributeError` when the lookup, or a relatedApp it has, is not
   * a dict.  (The line before it reads `field.get("size", {}).get("width")`,
   * which raises for a size that is not a dict.)
   */
  predicate LookupReadFails(def: Json)
    requires !Truthy(def) || def.JObj?
  {
    Truthy(def) && Has(def, "lookup")
    && (!Get(def, "lookup").JObj? || !GetOr(Get(def, "lookup"), "relatedApp", JObj([])).JObj?)
  }

  /**
   * One correction block of the source: create the size when absent, read
   * the width, and assign `value` to it when it is missing or below `value`.
   */
  method RaiseInPlace(field: Json, value: Json) returns (r: Result<Raised, WidthError>)
    requires field.JObj?
    ensures r == RaiseWidth(field, value)
  {
    var corrected := field;
    if !Has(corrected, "size") {
      corrected := Set(corrected, "size", JObj([]));
    }
    var size := Get(corrected, "size");
    if !size.JObj? {
      return Err(SizeNotDict);
    }
    var width := Get(size, "width");
    var raise := !Truthy(width);
    if !raise {
      var w := PyInt(width);
      var v := PyInt(value);
      if w.None? || v.None? {
        return Err(WidthNotInt);
      }
      raise := w.value < v.value;
    }
    if raise {
      SetSet(field, "size", JObj([]), Set(size, "width", value));
      corrected := Set(corrected, "size", Set(size, "width", value));
    }
    return Ok(Raised(corrected, raise));
  }

  /**
   * The function's body as the source writes it: the lookup block, then the
   * recommended-width block, each assigning into the same copy of the field.
   */
  method AutoCorrectFieldWidth(field: Json, def: Json) returns (r: Result<Corrected, WidthError>)
    requires field.JObj? && (!Truthy(def) || def.JObj?)
    ensures r == CorrectFieldWidth(field, def)
  {
    if !SizeOf(field).JObj? {
      return Err(SizeNotDict);
    }
    if LookupReadFails(def) {
      return Err(LookupNotDict);
    }
    var corrected := field;
    var guidance: Option<Guidance> := None;
    if IsLookupDef(def) {
      var a := RaiseInPlace(corrected, JStr(Constants.LookupFieldMinWidth));
      if a.Err? {
        return Err(a.error);
      }
      corrected := a.value.field;
      if a.value.bumped {
        guidance := Some(LookupWidthGuidance(Get(field, "code")));
      }
    }
    if RecommendsWidth(def) {
      var b := RaiseInPlace(corrected, Get(def, "_recommendedMinWidth"));
      if b.Err? {
        return Err(b.error);
      }
      corrected := b.value.field;
    }
    return Ok(Corrected(corrected, guidance));
  }

  /**
   * For a lookup field the width ends up `int()`-convertible and at least
   * 250, and a guidance naming the field's code is reported exactly when the
   * given width was missing, falsy or below 250.  No other field gets one.
   */
  lemma CorrectFieldWidthLookup(field: Json, def: Json)
    requires field.JObj? && (!Truthy(def) || def.JObj?)
    requires CorrectFieldWidth(field, def).Ok?
    ensures var c := CorrectFieldWidth(field, def).value;
      c.field.JObj? && (c.guidance.Some? ==> IsLookupDef(def))
      && (IsLookupDef(def) ==>
            SizeOf(field).JObj? && SizeOf(c.field).JObj?
            && PyInt(WidthOf(c.field)).Some? && PyInt(WidthOf(c.field)).value >= FieldHandlers.MinWidth
            && (Truthy(WidthOf(field)) ==> PyInt(WidthOf(field)).Some?)
            && (c.guidance.Some? <==> !Truthy(WidthOf(field)) || PyInt(WidthOf(field)).value < FieldHandlers.MinWidth)
            && (c.guidance.Some? ==> c.guidance.value == LookupWidthGuidance(Get(field, "code"))))
  {
    FieldHandlers.MinWidthParses();
    var minimum := JStr(Constants.LookupFieldMinWidth);
    if IsLookupDef(def) {
      RaiseWidthFacts(field, minimum);
      var a := RaiseWidth(field, minimum).value;
      if RecommendsWidth(def) {
        RaiseWidthFacts(a.field, Get(def, "_recommendedMinWidth"));
      }
    } else if RecommendsWidth(def) {
      RaiseWidthFacts(field, Get(def, "_recommendedMinWidth"));
    }
  }

  /**
   * A recommended width is honoured: the width ends up being the recommended
   * value itself, or a number at least as large.
   */
  lemma CorrectFieldWidthRecommended(field: Json, def: Json)
    requires field.JObj? && RecommendsWidth(def)
    requires CorrectFieldWidth(field, def).Ok?
    ensures var c := CorrectFieldWidth(field, def).value;
      var recommended := Get(def, "_recommendedMinWidth");
      c.field.JObj? && SizeOf(c.field).JObj?
      && (WidthOf(c.field) == recommended
          || (PyInt(recommended).Some? && PyInt(WidthOf(c.field)).Some?
              && PyInt(WidthOf(c.field)).value >= PyInt(recommended).value))
  {
    var minimum := JStr(Constants.LookupFieldMinWidth);
    var a := if IsLookupDef(def) then RaiseWidth(field, minimum).value else Raised(field, false);
    if IsLookupDef(def) {
      RaiseWidthFacts(field, minimum);
    }
    RaiseWidthFacts(a.field, Get(def, "_recommendedMinWidth"));
  }

  /**
   * Only the width inside the field's size changes: every other key of the
   * field and every other key of its size keep their values, and a field
   * without a lookup or recommended width comes back as it was.
   */
  lemma CorrectFieldWidthKeeps(field: Json, def: Json)
    requires field.JObj? && (!Truthy(def) || def.JObj?)
    requires CorrectFieldWidth(field, def).Ok?
    ensures SizeOf(field).JObj? && !LookupReadFails(def)
    ensures var c := CorrectFieldWidth(field, def).value;
      c.field.JObj?
      && (forall k :: k != "size" ==> Get(c.field, k) == Get(field, k) && (Has(c.field, k) <==> Has(field, k)))
      && (SizeOf(field).JObj? && SizeOf(c.field).JObj? ==>
            forall k :: k != "width" ==> Get(SizeOf(c.field), k) == Get(SizeOf(field), k))
      && (!IsLookupDef(def) && !RecommendsWidth(def) ==> c == Corrected(field, None))
  {
    var minimum := JStr(Constants.LookupFieldMinWidth);
    var a := if IsLookupDef(def) then RaiseWidth(field, minimum).value else Raised(field, false);
    if IsLookupDef(def) {
      RaiseWidthFacts(field, minimum);
    }
    if RecommendsWidth(def) {
      RaiseWidthFacts(a.field, Get(def, "_recommendedMinWidth"));
    }
  }

  /**
   * A size that is there but is not a dict (`None`, a string, a list) raises
   * whatever the definition, and so does a definition whose lookup, or whose
   * lookup's relatedApp, is not a dict.
   */
  lemma CorrectFieldWidthRaises(field: Json, def: Json)
    requires field.JObj? && (!Truthy(def) || def.JObj?)
    ensures Has(field, "size") && !Get(field, "size").JObj? ==> CorrectFieldWidth(field, def) == Err(SizeNotDict)
    ensures !Has(field, "size") && Truthy(def) && Has(def, "lookup") && !Get(def, "lookup").JObj?
      ==> CorrectFieldWidth(field, def) == Err(LookupNotDict)
  {
  }

  /** A recommended width that is truthy is one `int()` accepts. */
  predicate NumericRecommendation(def: Json)
  {
    RecommendsWidth(def) ==>
      (Truthy(Get(def, "_recommendedMinWidth")) ==> PyInt(Get(def, "_recommendedMinWidth")).Some?)
  }

  /** A value `int()` turns into a non-zero number is truthy. */
  lemma NonZeroIsTruthy(v: Json)
    requires PyInt(v).Some? && PyInt(v).value != 0
    ensures Truthy(v)
  {
  }

  /**
   * Correcting a corrected field changes nothing and reports no guidance,
   * when the definition's recommended width (if any) is numeric.
   */
  lemma CorrectFieldWidthSettles(field: Json, def: Json)
    requires field.JObj? && (!Truthy(def) || def.JObj?) && NumericRecommendation(def)
    requires CorrectFieldWidth(field, def).Ok?
    ensures var c := CorrectFieldWidth(field, def).value;
      c.field.JObj? && CorrectFieldWidth(c.field, def) == Ok(Corrected(c.field, None))
  {
    FieldHandlers.MinWidthParses();
    var minimum := JStr(Constants.LookupFieldMinWidth);
    var c := CorrectFieldWidth(field, def).value;
    var a := if IsLookupDef(def) then RaiseWidth(field, minimum).value else Raised(field, false);
    if IsLookupDef(def) {
      RaiseWidthFacts(field, minimum);
    }
    if RecommendsWidth(def) {
      var recommended := Get(def, "_recommendedMinWidth");
      RaiseWidthFacts(a.field, recommended);
      var b := RaiseWidth(a.field, recommended).value;
      assert c.field == b.field;
      if IsLookupDef(def) {
        if b.bumped {
          NonZeroIsTruthy(recommended);
        }
        RaiseWidthKeeps(c.field, minimum);
      }
      if b.bumped {
        RaiseWidthAgain(c.field, recommended);
      } else {
        RaiseWidthKeeps(c.field, recommended);
      }
    } else if IsLookupDef(def) {
      RaiseWidthKeeps(c.field, minimum);
    }
  }

  // ---------------------------------------------------------------------------
  // auto_correct_layout_widths

  /** The field map the width walker may be given: none, or code to definition dict. */
  predicate FormFieldsOk(formFields: Json)
  {
    !Truthy(formFields) || FieldMap(formFields)
  }

  /**
   * `form_fields.get(field["code"])` when the field has a truthy code and
   * there is a field map, else `None`.  A code that is not a string finds
   * nothing, except a list or dict, which cannot be a key at all.
   */
  function DefFor(field: Json, formFields: Json): (r: Result<Json, WidthError>)
    requires field.JObj? && FormFieldsOk(formFields)
    ensures r.Ok? ==> r.value.JObj? || r.value == JNull
  {
    var code := Get(field, "code");
    if !Truthy(code) || !Truthy(formFields) then Ok(JNull)
    else match code
      case JStr(c) => Ok(DefOf(formFields, c))
      case JArr(_) => Err(CodeUnhashable)
      case JObj(_) => Err(CodeUnhashable)
      case _ => Ok(JNull)
  }

  /** A walk's result together with the guidances collected along it. */
  datatype Pass<T> = Pass(value: T, guidances: seq<Guidance>)

  /** One field of a row, corrected against its definition. */
  function CorrectField(field: Json, formFields: Json): Result<Pass<Json>, WidthError>
    requires field.JObj? && FormFieldsOk(formFields)
  {
    match DefFor(field, formFields)
    case Err(e) => Err(e)
    case Ok(def) =>
      match CorrectFieldWidth(field, def)
      case Err(e) => Err(e)
      case Ok(c) => Ok(Pass(c.field, if c.guidance.Some? then [c.guidance.value] else []))
  }

  /** The fields of a row corrected in order; the first failure ends the walk. */
  function CorrectFields(fields: seq<Json>, formFields: Json): Result<Pass<seq<Json>>, WidthError>
    requires AllObjects(fields) && FormFieldsOk(formFields)
  {
    if fields == [] then Ok(Pass([], []))
    else
      match CorrectFields(fields[..|fields| - 1], formFields)
      case Err(e) => Err(e)
      case Ok(front) =>
        match CorrectField(fields[|fields| - 1], formFields)
        case Err(e) => Err(e)
        case Ok(last) => Ok(Pass(front.value + [last.value], front.guidances + last.guidances))
  }

  /**
   * One layout element: a row gets its fields corrected, a group its nested
   * layout; any other element is kept as it is.
   */
  function CorrectItem(item: Json, formFields: Json): Result<Pass<Json>, WidthError>
    requires WalkableItem(item) && FormFieldsOk(formFields)
    decreases item
  {
    if IsRow(item) then
      match CorrectFields(Get(item, "fields").items, formFields)
      case Err(e) => Err(e)
      case Ok(p) => Ok(Pass(Set(item, "fields", JArr(p.value)), p.guidances))
    else if IsGroup(item) then
      match CorrectLayout(Get(item, "layout"), formFields)
      case Err(e) => Err(e)
      case Ok(p) => Ok(Pass(Set(item, "layout", p.value), p.guidances))
    else Ok(Pass(item, []))
  }

  function CorrectItems(items: seq<Json>, formFields: Json): Result<Pass<seq<Json>>, WidthError>
    requires WalkableItems(items) && FormFieldsOk(formFields)
    decreases items
  {
    if items == [] then Ok(Pass([], []))
    else
      match CorrectItems(items[..|items| - 1], formFields)
      case Err(e) => Err(e)
      case Ok(front) =>
        match CorrectItem(items[|items| - 1], formFields)
        case Err(e) => Err(e)
        case Ok(last) => Ok(Pass(front.value + [last.value], front.guidances + last.guidances))
  }

  /**
   * auto_correct_layout_widths: the layout with every row field's width
   * corrected, and the guidances in traversal order; a value that is not a
   * non-empty list comes back unchanged.
   */
  function CorrectLayout(layout: Json, formFields: Json): Result<Pass<Json>, WidthError>
    requires Walkable(layout) && FormFieldsOk(formFields)
    decreases layout
  {
    if !Truthy(layout) || !layout.JArr? then Ok(Pass(layout, []))
    else
      match CorrectItems(layout.items, formFields)
      case Err(e) => Err(e)
      case Ok(p) => Ok(Pass(JArr(p.value), p.guidances))
  }

  // The layout with every row field's `size` removed: what the width walker must keep.

  function StripSizes(fields: seq<Json>): seq<Json>
    requires AllObjects(fields)
  {
    if fields == [] then []
    else StripSizes(fields[..|fields| - 1]) + [Del(fields[|fields| - 1], "size")]
  }

  function SkeletonItem(item: Json): Json
    requires WalkableItem(item)
    decreases item
  {
    if IsRow(item) then Set(item, "fields", JArr(StripSizes(Get(item, "fields").items)))
    else if IsGroup(item) then Set(item, "layout", Skeleton(Get(item, "layout")))
    else item
  }

  function SkeletonItems(items: seq<Json>): seq<Json>
    requires WalkableItems(items)
    decreases items
  {
    if items == [] then []
    else SkeletonItems(items[..|items| - 1]) + [SkeletonItem(items[|items| - 1])]
  }

  function Skeleton(layout: Json): Json
    requires Walkable(layout)
    decreases layout
  {
    if !Truthy(layout) || !layout.JArr? then layout else JArr(SkeletonItems(layout.items))
  }

  /** A raise touches nothing but the field's `size`. */
  lemma RaiseWidthDel(field: Json, value: Json)
    requires field.JObj? && RaiseWidth(field, value).Ok?
    ensures RaiseWidth(field, value).value.field.JObj?
    ensures Del(RaiseWidth(field, value).value.field, "size") == Del(field, "size")
  {
    var size := SizeOf(field);
    if RaiseWidth(field, value).value.bumped {
      DelSet(field, "size", Set(size, "width", value));
    }
  }

  /** A corrected field differs from the original in its `size` at most, and keeps its code. */
  lemma CorrectFieldDel(field: Json, formFields: Json)
    requires field.JObj? && FormFieldsOk(formFields) && CorrectField(field, formFields).Ok?
    ensures var f := CorrectField(field, formFields).value.value;
      f.JObj? && Del(f, "size") == Del(field, "size") && Get(f, "code") == Get(field, "code")
  {
    var def := DefFor(field, formFields).value;
    assert CorrectField(field, formFields).value.value == CorrectFieldWidth(field, def).value.field;
    CorrectFieldWidthDel(field, def);
  }

  /** The width correction of one field changes its size and nothing else. */
  lemma CorrectFieldWidthDel(field: Json, def: Json)
    requires field.JObj? && (!Truthy(def) || def.JObj?) && CorrectFieldWidth(field, def).Ok?
    ensures var f := CorrectFieldWidth(field, def).value.field;
      f.JObj? && Del(f, "size") == Del(field, "size") && Get(f, "code") == Get(field, "code")
  {
    var minimum := JStr(Constants.LookupFieldMinWidth);
    CorrectFieldWidthKeeps(field, def);
    var a := if IsLookupDef(def) then RaiseWidth(field, minimum).value else Raised(field, false);
    if IsLookupDef(def) {
      RaiseWidthDel(field, minimum);
    }
    if RecommendsWidth(def) {
      RaiseWidthFacts(a.field, Get(def, "_recommendedMinWidth"));
      RaiseWidthDel(a.field, Get(def, "_recommendedMinWidth"));
    }
  }

  /** A successful walk over a row's fields ends with the last field's correction. */
  lemma CorrectFieldsLast(fields: seq<Json>, formFields: Json)
    requires AllObjects(fields) && FormFieldsOk(formFields) && fields != []
    requires CorrectFields(fields, formFields).Ok?
    ensures var init := fields[..|fields| - 1];
      && CorrectFields(init, formFields).Ok?
      && CorrectField(fields[|fields| - 1], formFields).Ok?
      && CorrectFields(fields, formFields).value.value
         == CorrectFields(init, formFields).value.value + [CorrectField(fields[|fields| - 1], formFields).value.value]
  {
  }

  /** Correcting a row's fields keeps their number and everything but their sizes. */
  lemma {:induction false} CorrectFieldsShape(fields: seq<Json>, formFields: Json)
    requires AllObjects(fields) && FormFieldsOk(formFields) && CorrectFields(fields, formFields).Ok?
    ensures var r := CorrectFields(fields, formFields).value.value;
      AllObjects(r) && |r| == |fields| && StripSizes(r) == StripSizes(fields)
    decreases |fields|
  {
    if fields != [] {
      var init := fields[..|fields| - 1];
      CorrectFieldsLast(fields, formFields);
      CorrectFieldsShape(init, formFields);
      CorrectFieldDel(fields[|fields| - 1], formFields);
      var r := CorrectFields(fields, formFields).value.value;
      assert r[..|r| - 1] == CorrectFields(init, formFields).value.value;
    }
  }

  /**
   * The width walker keeps the layout's shape: the same elements in the same
   * order, nested groups included, with nothing changed but the `size` of
   * row fields.
   */
  lemma {:induction false} CorrectLayoutShape(layout: Json, formFields: Json)
    requires Walkable(layout) && FormFieldsOk(formFields) && CorrectLayout(layout, formFields).Ok?
    ensures var l := CorrectLayout(layout, formFields).value.value;
      Walkable(l) && Skeleton(l) == Skeleton(layout) && (l.JArr? <==> layout.JArr?)
    decreases layout, 1
  {
    if Truthy(layout) && layout.JArr? {
      CorrectItemsShape(layout.items, formFields);
    }
  }

  lemma {:induction false} CorrectItemsShape(items: seq<Json>, formFields: Json)
    requires WalkableItems(items) && FormFieldsOk(formFields) && CorrectItems(items, formFields).Ok?
    ensures var r := CorrectItems(items, formFields).value.value;
      WalkableItems(r) && |r| == |items| && SkeletonItems(r) == SkeletonItems(items)
    decreases items
  {
    if items != [] {
      var init := items[..|items| - 1];
      assert WalkableItems(init);
      CorrectItemsShape(init, formFields);
      CorrectItemShape(items[|items| - 1], formFields);
      var r := CorrectItems(items, formFields).value.value;
      assert r[..|r| - 1] == CorrectItems(init, formFields).value.value;
    }
  }

  lemma {:induction false} CorrectItemShape(item: Json, formFields: Json)
    requires WalkableItem(item) && FormFieldsOk(formFields) && CorrectItem(item, formFields).Ok?
    ensures var r := CorrectItem(item, formFields).value.value;
      WalkableItem(r) && SkeletonItem(r) == SkeletonItem(item)
    decreases item, 0
  {
    var r := CorrectItem(item, formFields).value.value;
    if IsRow(item) {
      var fields := Get(item, "fields").items;
      CorrectFieldsShape(fields, formFields);
      var fs := CorrectFields(fields, formFields).value.value;
      assert IsRow(r) && !IsGroup(r);
      SetSet(item, "fields", JArr(fs), JArr(StripSizes(fs)));
    } else if IsGroup(item) {
      CorrectLayoutShape(Get(item, "layout"), formFields);
      var l := CorrectLayout(Get(item, "layout"), formFields).value.value;
      assert IsGroup(r) && !IsRow(r);
      SetSet(item, "layout", l, Skeleton(l));
    }
  }

  /** Every definition in the field map recommends, if anything, a numeric width. */
  predicate NumericRecommendations(formFields: Json)
  {
    !Truthy(formFields)
    || (formFields.JObj? && forall i :: 0 <= i < |formFields.members| ==> NumericRecommendation(formFields.members[i].1))
  }

  lemma DefForNumeric(field: Json, formFields: Json)
    requires field.JObj? && FormFieldsOk(formFields) && NumericRecommendations(formFields)
    requires DefFor(field, formFields).Ok?
    ensures NumericRecommendation(DefFor(field, formFields).value)
  {
  }

  /** A corrected field corrected again stays as it is and reports nothing. */
  lemma CorrectFieldSettles(field: Json, formFields: Json)
    requires field.JObj? && FormFieldsOk(formFields) && NumericRecommendations(formFields)
    requires CorrectField(field, formFields).Ok?
    ensures var f := CorrectField(field, formFields).value.value;
      f.JObj? && CorrectField(f, formFields) == Ok(Pass(f, []))
  {
    var def := DefFor(field, formFields).value;
    DefForNumeric(field, formFields);
    CorrectFieldDel(field, formFields);
    CorrectFieldWidthSettles(field, def);
    var f := CorrectField(field, formFields).value.value;
    assert DefFor(f, formFields) == DefFor(field, formFields);
  }

  /** Correcting one more field appends its result and its guidances. */
  lemma CorrectFieldsSnoc(a: seq<Json>, x: Json, formFields: Json)
    requires AllObjects(a) && x.JObj? && FormFieldsOk(formFields)
    requires CorrectFields(a, formFields).Ok? && CorrectField(x, formFields).Ok?
    ensures AllObjects(a + [x])
    ensures var p := CorrectFields(a, formFields).value;
      var q := CorrectField(x, formFields).value;
      CorrectFields(a + [x], formFields) == Ok(Pass(p.value + [q.value], p.guidances + q.guidances))
  {
    assert (a + [x])[..|a|] == a;
  }

  lemma {:induction false} CorrectFieldsSettle(fields: seq<Json>, formFields: Json)
    requires AllObjects(fields) && FormFieldsOk(formFields) && NumericRecommendations(formFields)
    requires CorrectFields(fields, formFields).Ok?
    ensures var r := CorrectFields(fields, formFields).value.value;
      AllObjects(r) && CorrectFields(r, formFields) == Ok(Pass(r, []))
    decreases |fields|
  {
    if fields != [] {
      var init := fields[..|fields| - 1];
      var x := fields[|fields| - 1];
      CorrectFieldsSettle(init, formFields);
      CorrectFieldSettles(x, formFields);
      var front := CorrectFields(init, formFields).value.value;
      var last := CorrectField(x, formFields).value.value;
      assert CorrectFields(fields, formFields).value.value == front + [last];
      FieldsSettledSnoc(front, last, formFields);
    }
  }

  /** Settled fields followed by a settled field are settled. */
  lemma FieldsSettledSnoc(a: seq<Json>, x: Json, formFields: Json)
    requires AllObjects(a) && x.JObj? && FormFieldsOk(formFields)
    requires CorrectFields(a, formFields) == Ok(Pass(a, [])) && CorrectField(x, formFields) == Ok(Pass(x, []))
    ensures AllObjects(a + [x]) && CorrectFields(a + [x], formFields) == Ok(Pass(a + [x], []))
  {
    CorrectFieldsSnoc(a, x, formFields);
    SettledJoin(CorrectFields(a, formFields).value, CorrectField(x, formFields).value, a, x);
  }

  /**
   * The width walker is idempotent: walking its result again changes nothing
   * and yields no guidance, when every recommended width is numeric.
   */
  lemma {:induction false} CorrectLayoutSettles(layout: Json, formFields: Json)
    requires Walkable(layout) && FormFieldsOk(formFields) && NumericRecommendations(formFields)
    requires CorrectLayout(layout, formFields).Ok?
    ensures var l := CorrectLayout(layout, formFields).value.value;
      Walkable(l) && CorrectLayout(l, formFields) == Ok(Pass(l, []))
    decreases layout, 1
  {
    CorrectLayoutShape(layout, formFields);
    if Truthy(layout) && layout.JArr? {
      CorrectItemsSettle(layout.items, formFields);
      CorrectItemsShape(layout.items, formFields);
    }
  }

  /** Correcting one more element appends its result and its guidances. */
  lemma CorrectItemsSnoc(a: seq<Json>, x: Json, formFields: Json)
    requires WalkableItems(a) && WalkableItem(x) && FormFieldsOk(formFields)
    requires CorrectItems(a, formFields).Ok? && CorrectItem(x, formFields).Ok?
    ensures WalkableItems(a + [x])
    ensures var p := CorrectItems(a, formFields).value;
      var q := CorrectItem(x, formFields).value;
      CorrectItems(a + [x], formFields) == Ok(Pass(p.value + [q.value], p.guidances + q.guidances))
  {
    assert (a + [x])[..|a|] == a;
  }

  lemma {:induction false} CorrectItemsSettle(items: seq<Json>, formFields: Json)
    requires WalkableItems(items) && FormFieldsOk(formFields) && NumericRecommendations(formFields)
    requires CorrectItems(items, formFields).Ok?
    ensures var r := CorrectItems(items, formFields).value.value;
      WalkableItems(r) && CorrectItems(r, formFields) == Ok(Pass(r, []))
    decreases items
  {
    if items != [] {
      var init := items[..|items| - 1];
      var x := items[|items| - 1];
      assert WalkableItems(init);
      CorrectItemsSettle(init, formFields);
      CorrectItemSettles(x, formFields);
      var front := CorrectItems(init, formFields).value.value;
      var last := CorrectItem(x, formFields).value.value;
      assert CorrectItems(items, formFields).value.value == front + [last];
      ItemsSettledSnoc(front, last, formFields);
    }
  }

  /** Settled elements followed by a settled element are settled. */
  lemma ItemsSettledSnoc(a: seq<Json>, x: Json, formFields: Json)
    requires WalkableItems(a) && WalkableItem(x) && FormFieldsOk(formFields)
    requires CorrectItems(a, formFields) == Ok(Pass(a, [])) && CorrectItem(x, formFields) == Ok(Pass(x, []))
    ensures WalkableItems(a + [x]) && CorrectItems(a + [x], formFields) == Ok(Pass(a + [x], []))
  {
    CorrectItemsSnoc(a, x, formFields);
    SettledJoin(CorrectItems(a, formFields).value, CorrectItem(x, formFields).value, a, x);
  }

  /** Joining two walks that changed nothing and said nothing changes nothing. */
  lemma SettledJoin<T>(p: Pass<seq<T>>, q: Pass<T>, a: seq<T>, x: T)
    requires p == Pass(a, []) && q == Pass(x, [])
    ensures Pass(p.value + [q.value], p.guidances + q.guidances) == Pass(a + [x], [])
  {
  }

  lemma {:induction false} CorrectItemSettles(item: Json, formFields: Json)
    requires WalkableItem(item) && FormFieldsOk(formFields) && NumericRecommendations(formFields)
    requires CorrectItem(item, formFields).Ok?
    ensures var r := CorrectItem(item, formFields).value.value;
      WalkableItem(r) && CorrectItem(r, formFields) == Ok(Pass(r, []))
    decreases item, 0
  {
    CorrectItemShape(item, formFields);
    var r := CorrectItem(item, formFields).value.value;
    if IsRow(item) {
      var fields := Get(item, "fields").items;
      CorrectFieldsSettle(fields, formFields);
      assert IsRow(r) && Get(r, "fields").items == CorrectFields(fields, formFields).value.value;
      SetSame(r, "fields");
    } else if IsGroup(item) {
      CorrectLayoutSettles(Get(item, "layout"), formFields);
      assert IsGroup(r) && !IsRow(r) && Get(r, "layout") == CorrectLayout(Get(item, "layout"), formFields).value.value;
      SetSame(r, "layout");
    }
  }

  // The walker as the source writes it: loops appending to the processed
  // list, with the guidances collected so far threaded through.

  /** A walk's outcome with the guidances collected before it put in front. */
  function After<T>(earlier: seq<Guidance>, r: Result<Pass<T>, WidthError>): Result<Pass<T>, WidthError>
  {
    match r
    case Err(e) => Err(e)
    case Ok(p) => Ok(Pass(p.value, earlier + p.guidances))
  }

  /** Once a prefix of the fields fails, the whole walk fails the same way. */
  lemma {:induction false} CorrectFieldsFailsEarly(fields: seq<Json>, formFields: Json, j: nat)
    requires AllObjects(fields) && FormFieldsOk(formFields) && j <= |fields|
    requires AllObjects(fields[..j]) && CorrectFields(fields[..j], formFields).Err?
    ensures CorrectFields(fields, formFields) == CorrectFields(fields[..j], formFields)
    decreases |fields| - j
  {
    if j == |fields| {
      assert fields[..j] == fields;
    } else {
      assert fields[..j + 1][..j] == fields[..j];
      CorrectFieldsFailsEarly(fields, formFields, j + 1);
    }
  }

  lemma {:induction false} CorrectItemsFailsEarly(items: seq<Json>, formFields: Json, j: nat)
    requires WalkableItems(items) && FormFieldsOk(formFields) && j <= |items|
    requires WalkableItems(items[..j]) && CorrectItems(items[..j], formFields).Err?
    ensures CorrectItems(items, formFields) == CorrectItems(items[..j], formFields)
    decreases |items| - j
  {
    if j == |items| {
      assert items[..j] == items;
    } else {
      assert items[..j + 1][..j] == items[..j];
      assert WalkableItems(items[..j + 1]);
      CorrectItemsFailsEarly(items, formFields, j + 1);
    }
  }

  /** The loop over a row's fields: look up each definition, correct, collect the guidance. */
  method ProcessFields(fields: seq<Json>, formFields: Json, guidances: seq<Guidance>)
    returns (r: Result<Pass<seq<Json>>, WidthError>)
    requires AllObjects(fields) && FormFieldsOk(formFields)
    ensures r == After(guidances, CorrectFields(fields, formFields))
  {
    var processed: seq<Json> := [];
    var collected := guidances;
    assert guidances + [] == guidances;
    for i := 0 to |fields|
      invariant AllObjects(fields[..i])
      invariant After(guidances, CorrectFields(fields[..i], formFields)) == Ok(Pass(processed, collected))
    {
      CorrectFieldsStep(fields, formFields, i, guidances, processed, collected);
      var def := DefFor(fields[i], formFields);
      if def.Err? {
        CorrectFieldsFailsEarly(fields, formFields, i + 1);
        return Err(def.error);
      }
      var result := AutoCorrectFieldWidth(fields[i], def.value);
      if result.Err? {
        CorrectFieldsFailsEarly(fields, formFields, i + 1);
        return Err(result.error);
      }
      assert CorrectField(fields[i], formFields) ==
        Ok(Pass(result.value.field, if result.value.guidance.Some? then [result.value.guidance.value] else []));
      if result.value.guidance.Some? {
        collected := collected + [result.value.guidance.value];
      } else {
        assert collected + [] == collected;
      }
      processed := processed + [result.value.field];
    }
    assert fields[..|fields|] == fields;
    return Ok(Pass(processed, collected));
  }

  /** One more field of a row walk that has not failed so far. */
  lemma CorrectFieldsStep(fields: seq<Json>, formFields: Json, i: nat, guidances: seq<Guidance>,
                          processed: seq<Json>, collected: seq<Guidance>)
    requires AllObjects(fields) && FormFieldsOk(formFields) && i < |fields|
    requires AllObjects(fields[..i])
    requires After(guidances, CorrectFields(fields[..i], formFields)) == Ok(Pass(processed, collected))
    ensures AllObjects(fields[..i + 1])
    ensures After(guidances, CorrectFields(fields[..i + 1], formFields)) ==
      match After(collected, CorrectField(fields[i], formFields))
      case Err(e) => Err(e)
      case Ok(q) => Ok(Pass(processed + [q.value], q.guidances))
  {
    assert fields[..i + 1][..i] == fields[..i] && fields[..i + 1][i] == fields[i];
    AfterSnoc(guidances, CorrectFields(fields[..i], formFields), CorrectField(fields[i], formFields), processed, collected);
  }

  /** One more element of a walk that has not failed so far. */
  lemma CorrectItemsStep(items: seq<Json>, formFields: Json, i: nat, guidances: seq<Guidance>,
                         processed: seq<Json>, collected: seq<Guidance>)
    requires WalkableItems(items) && FormFieldsOk(formFields) && i < |items|
    requires WalkableItems(items[..i])
    requires After(guidances, CorrectItems(items[..i], formFields)) == Ok(Pass(processed, collected))
    ensures WalkableItems(items[..i + 1])
    ensures After(guidances, CorrectItems(items[..i + 1], formFields)) ==
      match After(collected, CorrectItem(items[i], formFields))
      case Err(e) => Err(e)
      case Ok(q) => Ok(Pass(processed + [q.value], q.guidances))
  {
    assert items[..i + 1][..i] == items[..i] && items[..i + 1][i] == items[i];
    AfterSnoc(guidances, CorrectItems(items[..i], formFields), CorrectItem(items[i], formFields), processed, collected);
  }

  /** A walk extended by one step, with earlier guidances in front, as the loop threads them. */
  lemma AfterSnoc<T>(guidances: seq<Guidance>, front: Result<Pass<seq<T>>, WidthError>, last: Result<Pass<T>, WidthError>,
                     processed: seq<T>, collected: seq<Guidance>)
    requires After(guidances, front) == Ok(Pass(processed, collected))
    ensures After(guidances, match front
      case Err(e) => Err(e)
      case Ok(p) =>
        match last
        case Err(e) => Err(e)
        case Ok(q) => Ok(Pass(p.value + [q.value], p.guidances + q.guidances))) ==
      match After(collected, last)
      case Err(e) => Err(e)
      case Ok(q) => Ok(Pass(processed + [q.value], q.guidances))
  {
    if last.Ok? {
      assert guidances + (front.value.guidances + last.value.guidances) == collected + last.value.guidances;
    }
  }

  /**
   * process_layout: a value that is not a non-empty list is returned as it
   * is; otherwise each element is processed in order.
   */
  method ProcessLayout(layout: Json, formFields: Json, guidances: seq<Guidance>)
    returns (r: Result<Pass<Json>, WidthError>)
    requires Walkable(layout) && FormFieldsOk(formFields)
    ensures r == After(guidances, CorrectLayout(layout, formFields))
    decreases layout
  {
    if !Truthy(layout) || !layout.JArr? {
      assert guidances + [] == guidances;
      return Ok(Pass(layout, guidances));
    }
    var items := ProcessItems(layout.items, formFields, guidances);
    if items.Err? {
      return Err(items.error);
    }
    return Ok(Pass(JArr(items.value.value), items.value.guidances));
  }

  /** The loop over a list's elements, appending each processed element. */
  method ProcessItems(items: seq<Json>, formFields: Json, guidances: seq<Guidance>)
    returns (r: Result<Pass<seq<Json>>, WidthError>)
    requires WalkableItems(items) && FormFieldsOk(formFields)
    ensures r == After(guidances, CorrectItems(items, formFields))
    decreases items
  {
    var processed: seq<Json> := [];
    var collected := guidances;
    assert guidances + [] == guidances;
    for i := 0 to |items|
      invariant WalkableItems(items[..i])
      invariant After(guidances, CorrectItems(items[..i], formFields)) == Ok(Pass(processed, collected))
    {
      CorrectItemsStep(items, formFields, i, guidances, processed, collected);
      var result := ProcessItem(items[i], formFields, collected);
      if result.Err? {
        CorrectItemsFailsEarly(items, formFields, i + 1);
        return Err(result.error);
      }
      processed := processed + [result.value.value];
      collected := result.value.guidances;
    }
    assert items[..|items|] == items;
    return Ok(Pass(processed, collected));
  }

  /** One element: `{**item, "fields": ...}` for a row, `{**item, "layout": ...}` for a group. */
  method ProcessItem(item: Json, formFields: Json, guidances: seq<Guidance>)
    returns (r: Result<Pass<Json>, WidthError>)
    requires WalkableItem(item) && FormFieldsOk(formFields)
    ensures r == After(guidances, CorrectItem(item, formFields))
    decreases item
  {
    if IsRow(item) {
      var fields := ProcessFields(Get(item, "fields").items, formFields, guidances);
      if fields.Err? {
        return Err(fields.error);
      }
      return Ok(Pass(Set(item, "fields", JArr(fields.value.value)), fields.value.guidances));
    } else if IsGroup(item) {
      var nested := ProcessLayout(Get(item, "layout"), formFields, guidances);
      if nested.Err? {
        return Err(nested.error);
      }
      return Ok(Pass(Set(item, "layout", nested.value.value), nested.value.guidances));
    }
    assert guidances + [] == guidances;
    return Ok(Pass(item, guidances));
  }

  /** auto_correct_layout_widths: the corrected layout and the guidances, collected from an empty list. */
  method AutoCorrectLayoutWidths(layout: Json, formFields: Json) returns (r: Result<Pass<Json>, WidthError>)
    requires Walkable(layout) && FormFieldsOk(formFields)
    ensures r == CorrectLayout(layout, formFields)
  {
    r := ProcessLayout(layout, formFields, []);
    match CorrectLayout(layout, formFields)
    case Ok(p) => assert [] + p.guidances == p.guidances;
    case Err(_) =>
  }
}
