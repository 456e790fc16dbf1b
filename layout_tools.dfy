/**
 * The pure helpers of server/tools/implementations/layout_tools.py: counting,
 * summarising and checking a form layout, pruning fields from it, laying
 * fields out in rows, and inserting an element at a chosen position.
 *
 * Unlike layout_utils, these helpers treat as a placed field only a row
 * entry whose `type` is literally "FIELD".
 */
module LayoutTools {
  import opened Wrappers
  import opened Json

  // ---------------------------------------------------------------------------
  // Layouts as these helpers read them

  predicate IsType(e: Json, t: string)
    requires e.JObj?
  {
    IsStr(e, "type", t)
  }

  /**
   * A layout the helpers traverse without raising: every element is a dict,
   * a ROW's `fields`, when present, is a list of dicts, and a GROUP's
   * `layout`, when present, is such a layout in turn.
   */
  predicate Tree(items: seq<Json>)
  {
    forall i :: 0 <= i < |items| ==> Node(items[i])
  }

  predicate Node(e: Json)
    decreases e
  {
    e.JObj?
    && (IsType(e, "ROW") && Has(e, "fields") ==> Get(e, "fields").JArr? && AllObjects(Get(e, "fields").items))
    && (IsType(e, "GROUP") && Has(e, "layout") ==>
          var nested := Get(e, "layout");
          nested.JArr? && forall i :: 0 <= i < |nested.items| ==> Node(nested.items[i]))
  }

  /** `element.get("fields", [])` of a ROW. */
  function RowFields(e: Json): (r: seq<Json>)
    requires Node(e) && IsType(e, "ROW")
    ensures AllObjects(r)
  {
    if Has(e, "fields") then Get(e, "fields").items else []
  }

  /** `element.get("layout", [])` of a GROUP. */
  function GroupItems(e: Json): (r: seq<Json>)
    requires Node(e) && IsType(e, "GROUP")
    ensures Tree(r)
  {
    if Has(e, "layout") then Get(e, "layout").items else []
  }

  // ---------------------------------------------------------------------------
  // The FIELD entries of a layout, and _count_fields_in_layout

  /** The entries of a row typed "FIELD", in order. */
  function RowEntries(fields: seq<Json>): (r: seq<Json>)
    requires AllObjects(fields)
    ensures AllObjects(r) && |r| <= |fields|
  {
    if fields == [] then []
    else
      var last := fields[|fields| - 1];
      RowEntries(fields[..|fields| - 1]) + (if IsType(last, "FIELD") then [last] else [])
  }

  /** The FIELD entries of every row, at any depth, in document order. */
  function FieldEntries(items: seq<Json>): (r: seq<Json>)
    requires Tree(items)
    ensures AllObjects(r)
    decreases items
  {
    if items == [] then []
    else FieldEntries(items[..|items| - 1]) + NodeEntries(items[|items| - 1])
  }

  function NodeEntries(e: Json): (r: seq<Json>)
    requires Node(e)
    ensures AllObjects(r)
    decreases e
  {
    if IsType(e, "ROW") then RowEntries(RowFields(e))
    else if IsType(e, "GROUP") && Has(e, "layout") then FieldEntries(Get(e, "layout").items)
    else []
  }

  lemma RowEntriesSnoc(fields: seq<Json>, j: nat)
    requires AllObjects(fields) && j < |fields|
    ensures RowEntries(fields[..j + 1]) ==
      RowEntries(fields[..j]) + (if IsType(fields[j], "FIELD") then [fields[j]] else [])
  {
    assert fields[..j + 1][..j] == fields[..j];
  }

  lemma FieldEntriesSnoc(items: seq<Json>, i: nat)
    requires Tree(items) && i < |items|
    ensures Tree(items[..i]) && Tree(items[..i + 1])
    ensures FieldEntries(items[..i + 1]) == FieldEntries(items[..i]) + NodeEntries(items[i])
  {
    assert items[..i + 1][..i] == items[..i];
  }

  /** Dropping the last element of `a + b` drops it from `b`. */
  lemma DropLastAppend<T>(a: seq<T>, b: seq<T>)
    requires b != []
    ensures (a + b)[..|a + b| - 1] == a + b[..|b| - 1] && (a + b)[|a + b| - 1] == b[|b| - 1]
  {
  }

  lemma AppendEmpty<T>(s: seq<T>)
    ensures s + [] == s
  {
  }

  lemma Assoc<T>(p: seq<T>, q: seq<T>, r: seq<T>)
    ensures (p + q) + r == p + (q + r)
  {
  }

  lemma TreeAppend(a: seq<Json>, b: seq<Json>)
    requires Tree(a) && Tree(b)
    ensures Tree(a + b)
  {
    assert forall i :: 0 <= i < |a + b| ==> (a + b)[i] == if i < |a| then a[i] else b[i - |a|];
  }

  /** The FIELD entries of two layouts side by side are the entries of each, in turn. */
  lemma {:induction false} FieldEntriesAppend(a: seq<Json>, b: seq<Json>)
    requires Tree(a) && Tree(b)
    ensures Tree(a + b) && FieldEntries(a + b) == FieldEntries(a) + FieldEntries(b)
    decreases |b|
  {
    TreeAppend(a, b);
    if b == [] {
      assert a + b == a;
    } else {
      var b' := b[..|b| - 1];
      var x := b[|b| - 1];
      assert Tree(b');
      FieldEntriesAppend(a, b');
      DropLastAppend(a, b);
      Assoc(FieldEntries(a), FieldEntries(b'), NodeEntries(x));
    }
  }

  /** _count_fields_in_layout: the number of FIELD entries in rows at any depth. */
  method CountFieldsInLayout(layout: seq<Json>) returns (count: nat)
    requires Tree(layout)
    ensures count == |FieldEntries(layout)|
    decreases layout
  {
    count := 0;
    for i := 0 to |layout|
      invariant Tree(layout[..i]) && count == |FieldEntries(layout[..i])|
    {
      FieldEntriesSnoc(layout, i);
      var n := CountFieldsInElement(layout[i]);
      count := count + n;
    }
    assert layout[..|layout|] == layout;
  }

  /** The loop over a row's `fields` that counts the FIELD entries. */
  method CountRowFields(fields: seq<Json>) returns (count: nat)
    requires AllObjects(fields)
    ensures count == |RowEntries(fields)|
  {
    count := 0;
    for j := 0 to |fields|
      invariant count == |RowEntries(fields[..j])|
    {
      RowEntriesSnoc(fields, j);
      if IsType(fields[j], "FIELD") {
        count := count + 1;
      }
    }
    assert fields[..|fields|] == fields;
  }

  /** One element of the count: a ROW's FIELD entries, or a GROUP's nested count. */
  method CountFieldsInElement(element: Json) returns (count: nat)
    requires Node(element)
    ensures count == |NodeEntries(element)|
    decreases element
  {
    count := 0;
    if IsType(element, "ROW") {
      count := CountRowFields(RowFields(element));
    } else if IsType(element, "GROUP") && Has(element, "layout") {
      count := CountFieldsInLayout(Get(element, "layout").items);
    }
  }

  // ---------------------------------------------------------------------------
  // _analyze_layout_structure

  datatype GroupSummary = GroupSummary(code: Json, groupLabel: Json, fieldCount: nat)

  /**
   * The summary dict: `element_types` maps each `type` value to the number
   * of elements carrying a value `==` to it (so `True`, `1` and `1.0` share
   * one key), in first-appearance order; `field_count`
   * counts the FIELD entries of top-level rows only.
   */
  datatype Summary = Summary(
    totalElements: nat,
    elementTypes: seq<(Json, nat)>,
    fieldCount: nat,
    groups: seq<GroupSummary>,
    subtables: seq<Json>)

  /** A value Python can use as a dict key; a list or a dict raises `TypeError`. */
  predicate Hashable(j: Json)
  {
    !j.JArr? && !j.JObj?
  }

  predicate HashableTypes(items: seq<Json>)
  {
    forall i :: 0 <= i < |items| ==> items[i].JObj? && Hashable(Get(items[i], "type"))
  }

  /**
   * `counts[t] = counts.get(t, 0) + 1`, keys compared with Python's `==`:
   * a key equal to `t` (`True` for `1`, `1.0` for `1`) is counted and kept,
   * as a dict keeps the key it first stored.
   */
  function Bump(counts: seq<(Json, nat)>, t: Json): (r: seq<(Json, nat)>)
    ensures Tally(r, t) == Tally(counts, t) + 1
    ensures forall u :: !KeyEq(u, t) ==> Tally(r, u) == Tally(counts, u)
    ensures forall k :: 0 <= k < |r| ==> r[k].0 == t || HasType(counts, r[k].0)
    ensures HasKeyEq(counts, t) ==> |r| == |counts| && forall k :: 0 <= k < |r| ==> r[k].0 == counts[k].0
    ensures !HasKeyEq(counts, t) ==> r == counts + [(t, 1)]
  {
    if counts == [] then [(t, 1)]
    else if KeyEq(counts[0].0, t) then [(counts[0].0, counts[0].1 + 1)] + counts[1..]
    else [counts[0]] + Bump(counts[1..], t)
  }

  /** `counts.get(t, 0)`. */
  function Tally(counts: seq<(Json, nat)>, t: Json): nat
  {
    if counts == [] then 0
    else if KeyEq(counts[0].0, t) then counts[0].1
    else Tally(counts[1..], t)
  }

  /** No two keys are equal in Python's sense. */
  predicate DistinctTypes(counts: seq<(Json, nat)>)
  {
    forall a, b :: 0 <= a < b < |counts| ==> !KeyEq(counts[a].0, counts[b].0)
  }

  /** `t in counts`. */
  predicate HasKeyEq(counts: seq<(Json, nat)>, t: Json)
  {
    exists j :: 0 <= j < |counts| && KeyEq(counts[j].0, t)
  }

  predicate HasType(counts: seq<(Json, nat)>, u: Json)
  {
    exists j :: 0 <= j < |counts| && counts[j].0 == u
  }

  /** Counting never repeats a key. */
  lemma BumpDistinct(counts: seq<(Json, nat)>, t: Json)
    requires DistinctTypes(counts)
    ensures DistinctTypes(Bump(counts, t))
  {
    var r := Bump(counts, t);
    if !HasKeyEq(counts, t) {
      forall a, b | 0 <= a < b < |r|
        ensures !KeyEq(r[a].0, r[b].0)
      {
        if b == |counts| {
          assert r[b].0 == t && r[a].0 == counts[a].0;
        }
      }
    }
  }

  /** A count depends on the key only up to Python's `==`. */
  lemma {:induction false} TallyCongruent(counts: seq<(Json, nat)>, t: Json, u: Json)
    requires KeyEq(t, u)
    ensures Tally(counts, t) == Tally(counts, u)
  {
    if counts != [] {
      TallyCongruent(counts[1..], t, u);
    }
  }

  /** The number of elements whose `type` equals `t` in Python's sense. */
  function CountType(items: seq<Json>, t: Json): nat
    requires AllObjects(items)
  {
    if items == [] then 0
    else CountType(items[..|items| - 1], t) + (if KeyEq(Get(items[|items| - 1], "type"), t) then 1 else 0)
  }

  function GroupSummaryOf(e: Json): GroupSummary
    requires Node(e) && IsType(e, "GROUP")
  {
    GroupSummary(Get(e, "code"), Get(e, "label"), |FieldEntries(GroupItems(e))|)
  }

  /** `element_types`: the count per `type` value, keys in first-appearance order. */
  function TypeCounts(items: seq<Json>): seq<(Json, nat)>
    requires AllObjects(items)
  {
    if items == [] then []
    else Bump(TypeCounts(items[..|items| - 1]), Get(items[|items| - 1], "type"))
  }

  /** `field_count`: FIELD entries of the top-level rows. */
  function TopFieldCount(items: seq<Json>): nat
    requires Tree(items)
  {
    if items == [] then 0
    else
      var e := items[|items| - 1];
      TopFieldCount(items[..|items| - 1]) + (if IsType(e, "ROW") then |RowEntries(RowFields(e))| else 0)
  }

  /** `groups`: one entry per top-level GROUP. */
  function GroupsOf(items: seq<Json>): seq<GroupSummary>
    requires Tree(items)
  {
    if items == [] then []
    else
      var e := items[|items| - 1];
      GroupsOf(items[..|items| - 1]) + (if IsType(e, "GROUP") then [GroupSummaryOf(e)] else [])
  }

  /** `subtables`: the code of each top-level SUBTABLE. */
  function SubtablesOf(items: seq<Json>): seq<Json>
    requires AllObjects(items)
  {
    if items == [] then []
    else
      var e := items[|items| - 1];
      SubtablesOf(items[..|items| - 1]) + (if IsType(e, "SUBTABLE") then [Get(e, "code")] else [])
  }

  /** The summary dict of a layout. */
  function Summarize(items: seq<Json>): Summary
    requires Tree(items) && HashableTypes(items)
  {
    Summary(|items|, TypeCounts(items), TopFieldCount(items), GroupsOf(items), SubtablesOf(items))
  }

  lemma SummarizeSnoc(items: seq<Json>, i: nat)
    requires Tree(items) && i < |items|
    ensures Tree(items[..i]) && Tree(items[..i + 1])
    ensures var e := items[i];
      && TypeCounts(items[..i + 1]) == Bump(TypeCounts(items[..i]), Get(e, "type"))
      && TopFieldCount(items[..i + 1]) == TopFieldCount(items[..i]) + (if IsType(e, "ROW") then |RowEntries(RowFields(e))| else 0)
      && GroupsOf(items[..i + 1]) == GroupsOf(items[..i]) + (if IsType(e, "GROUP") then [GroupSummaryOf(e)] else [])
      && SubtablesOf(items[..i + 1]) == SubtablesOf(items[..i]) + (if IsType(e, "SUBTABLE") then [Get(e, "code")] else [])
  {
    assert items[..i + 1][..i] == items[..i];
  }

  /** _analyze_layout_structure, as the loop over the top-level elements. */
  method AnalyzeLayoutStructure(layout: seq<Json>) returns (summary: Summary)
    requires Tree(layout) && HashableTypes(layout)
    ensures summary == Summarize(layout)
  {
    summary := Summary(|layout|, [], 0, [], []);
    for i := 0 to |layout|
      invariant Tree(layout[..i])
      invariant summary == Summary(|layout|, TypeCounts(layout[..i]), TopFieldCount(layout[..i]),
        GroupsOf(layout[..i]), SubtablesOf(layout[..i]))
    {
      SummarizeSnoc(layout, i);
      summary := CountElement(summary, layout[i]);
    }
    assert layout[..|layout|] == layout;
  }

  /** One pass of the loop in _analyze_layout_structure: the element's type, and its FIELD entries, group or subtable. */
  method CountElement(summary: Summary, element: Json) returns (next: Summary)
    requires Node(element)
    ensures next == Summary(summary.totalElements, Bump(summary.elementTypes, Get(element, "type")),
      summary.fieldCount + (if IsType(element, "ROW") then |RowEntries(RowFields(element))| else 0),
      summary.groups + (if IsType(element, "GROUP") then [GroupSummaryOf(element)] else []),
      summary.subtables + (if IsType(element, "SUBTABLE") then [Get(element, "code")] else []))
  {
    var elementType := Get(element, "type");
    next := summary.(elementTypes := Bump(summary.elementTypes, elementType));
    if IsType(element, "ROW") {
      var count := CountRowFields(RowFields(element));
      next := next.(fieldCount := next.fieldCount + count);
    } else if IsType(element, "GROUP") {
      var count := CountFieldsInLayout(GroupItems(element));
      next := next.(groups := next.groups + [GroupSummary(Get(element, "code"), Get(element, "label"), count)]);
    } else if IsType(element, "SUBTABLE") {
      next := next.(subtables := next.subtables + [Get(element, "code")]);
    }
  }

  function SumCounts(groups: seq<GroupSummary>): nat
  {
    if groups == [] then 0 else SumCounts(groups[..|groups| - 1]) + groups[|groups| - 1].fieldCount
  }

  /** `element_types` holds, without repeated keys, the number of elements of each type. */
  lemma {:induction false} TypeCountsTally(items: seq<Json>)
    requires AllObjects(items)
    ensures DistinctTypes(TypeCounts(items))
    ensures forall t :: Tally(TypeCounts(items), t) == CountType(items, t)
  {
    if items != [] {
      var init := items[..|items| - 1];
      var t := Get(items[|items| - 1], "type");
      TypeCountsTally(init);
      BumpDistinct(TypeCounts(init), t);
      forall u
        ensures Tally(TypeCounts(items), u) == CountType(items, u)
      {
        TallyStep(items, u);
      }
    }
  }

  /**
   * The top-level `field_count` and the groups' counts together make up
   * every FIELD entry of the layout.
   */
  lemma {:induction false} FieldCountsAddUp(items: seq<Json>)
    requires Tree(items)
    ensures TopFieldCount(items) + SumCounts(GroupsOf(items)) == |FieldEntries(items)|
  {
    if items != [] {
      var init := items[..|items| - 1];
      var e := items[|items| - 1];
      FieldCountsAddUp(init);
      var gs := GroupsOf(init);
      assert FieldEntries(items) == FieldEntries(init) + NodeEntries(e);
      if IsType(e, "GROUP") {
        DropLastAppend(gs, [GroupSummaryOf(e)]);
        assert |NodeEntries(e)| == GroupSummaryOf(e).fieldCount;
      } else {
        AppendEmpty(gs);
      }
    }
  }

  /** There are as many `groups` entries as `element_types` counts GROUPs. */
  lemma {:induction false} GroupsTallied(items: seq<Json>)
    requires Tree(items)
    ensures |GroupsOf(items)| == Tally(TypeCounts(items), JStr("GROUP"))
  {
    if items != [] {
      var init := items[..|items| - 1];
      GroupsTallied(init);
      TallyStep(items, JStr("GROUP"));
      KeyEqStr(Get(items[|items| - 1], "type"), "GROUP");
    }
  }

  lemma TallyStep(items: seq<Json>, u: Json)
    requires AllObjects(items) && items != []
    ensures Tally(TypeCounts(items), u)
      == Tally(TypeCounts(items[..|items| - 1]), u) + (if KeyEq(Get(items[|items| - 1], "type"), u) then 1 else 0)
  {
    var t := Get(items[|items| - 1], "type");
    if KeyEq(t, u) {
      TallyCongruent(TypeCounts(items[..|items| - 1]), t, u);
      TallyCongruent(TypeCounts(items), t, u);
    }
  }

  /** There are as many `subtables` entries as `element_types` counts SUBTABLEs. */
  lemma {:induction false} SubtablesTallied(items: seq<Json>)
    requires AllObjects(items)
    ensures |SubtablesOf(items)| == Tally(TypeCounts(items), JStr("SUBTABLE"))
  {
    if items != [] {
      var init := items[..|items| - 1];
      SubtablesTallied(init);
      TallyStep(items, JStr("SUBTABLE"));
      KeyEqStr(Get(items[|items| - 1], "type"), "SUBTABLE");
    }
  }

  /** The summary's meaning, gathered. */
  lemma SummarizeMeaning(items: seq<Json>)
    requires Tree(items) && HashableTypes(items)
    ensures var s := Summarize(items);
      && s.totalElements == |items|
      && DistinctTypes(s.elementTypes)
      && (forall t :: Tally(s.elementTypes, t) == CountType(items, t))
      && s.fieldCount + SumCounts(s.groups) == |FieldEntries(items)|
      && |s.groups| == CountType(items, JStr("GROUP"))
      && |s.subtables| == CountType(items, JStr("SUBTABLE"))
  {
    TypeCountsTally(items);
    FieldCountsAddUp(items);
    GroupsTallied(items);
    SubtablesTallied(items);
    TypeCountOf(items, JStr("GROUP"));
    TypeCountOf(items, JStr("SUBTABLE"));
  }

  lemma TypeCountOf(items: seq<Json>, u: Json)
    requires AllObjects(items)
    ensures Tally(TypeCounts(items), u) == CountType(items, u)
  {
    TypeCountsTally(items);
  }

  /** Elements typed `True`, `1` and `1.0` are counted under one key, the first one stored. */
  lemma EqualTypesMerge()
    ensures var items := [JObj([("type", JBool(true))]), JObj([("type", JInt(1))]), JObj([("type", JDec(10, 1))])];
      TypeCounts(items) == [(JBool(true), 3)]
  {
    var items := [JObj([("type", JBool(true))]), JObj([("type", JInt(1))]), JObj([("type", JDec(10, 1))])];
    assert items[..1][..0] == [];
    assert items[..2][..1] == items[..1];
    assert items[..3][..2] == items[..2];
    assert items[..3] == items;
    assert TypeCounts(items[..1]) == [(JBool(true), 1)];
    assert TypeCounts(items[..2]) == [(JBool(true), 2)];
  }

  // ---------------------------------------------------------------------------
  // _validate_layout: every problem of every top-level element, not only the first

  datatype LayoutIssue =
    | Untyped(index: nat)
    | EmptyRow(index: nat)
    | TableWithoutCode(elementType: string, index: nat)
    | GroupWithoutLabel(index: nat)
    | EmptyGroup(index: nat)
    | LabelWithoutLabel(index: nat)

  function IssueIndex(issue: LayoutIssue): nat
  {
    issue.index
  }

  /** The problems of the element at position `i`, in the order they are reported. */
  function ElementIssues(e: Json, i: nat): (r: seq<LayoutIssue>)
    requires e.JObj?
    ensures forall k :: 0 <= k < |r| ==> IssueIndex(r[k]) == i
  {
    var t := Get(e, "type");
    if !Truthy(t) then [Untyped(i)]
    else if t == JStr("ROW") then
      (if !Truthy(GetOr(e, "fields", JArr([]))) then [EmptyRow(i)] else [])
    else if StrIn(t, ["SUBTABLE", "REFERENCE_TABLE"]) then
      (if !Truthy(Get(e, "code")) then [TableWithoutCode(t.s, i)] else [])
    else if t == JStr("GROUP") then
      (if !Truthy(Get(e, "label")) then [GroupWithoutLabel(i)] else [])
      + (if !Truthy(GetOr(e, "layout", JArr([]))) then [EmptyGroup(i)] else [])
    else if t == JStr("LABEL") then
      (if !Truthy(Get(e, "label")) then [LabelWithoutLabel(i)] else [])
    else []
  }

  /** The problems of a layout, element by element. */
  function Issues(items: seq<Json>): (r: seq<LayoutIssue>)
    requires AllObjects(items)
    ensures forall k :: 0 <= k < |r| ==> IssueIndex(r[k]) < |items|
  {
    if items == [] then []
    else Issues(items[..|items| - 1]) + ElementIssues(items[|items| - 1], |items| - 1)
  }

  lemma IssuesSnoc(items: seq<Json>, i: nat)
    requires AllObjects(items) && i < |items|
    ensures Issues(items[..i + 1]) == Issues(items[..i]) + ElementIssues(items[i], i)
  {
    assert items[..i + 1][..i] == items[..i];
  }

  /** _validate_layout, as the loop that appends a message per problem. */
  method ValidateLayout(layout: seq<Json>) returns (errors: seq<LayoutIssue>)
    requires AllObjects(layout)
    ensures errors == Issues(layout)
  {
    errors := [];
    for i := 0 to |layout|
      invariant errors == Issues(layout[..i])
    {
      IssuesSnoc(layout, i);
      var found := CheckElement(layout[i], i);
      errors := errors + found;
    }
    assert layout[..|layout|] == layout;
  }

  /** The body of `_validate_layout`'s loop: the messages for the element at position `i`. */
  method CheckElement(element: Json, i: nat) returns (found: seq<LayoutIssue>)
    requires element.JObj?
    ensures found == ElementIssues(element, i)
  {
    found := [];
    var elementType := Get(element, "type");
    if !Truthy(elementType) {
      return [Untyped(i)];
    }
    if elementType == JStr("ROW") {
      if !Truthy(GetOr(element, "fields", JArr([]))) {
        found := found + [EmptyRow(i)];
      }
    } else if StrIn(elementType, ["SUBTABLE", "REFERENCE_TABLE"]) {
      if !Truthy(Get(element, "code")) {
        found := found + [TableWithoutCode(elementType.s, i)];
      }
    } else if elementType == JStr("GROUP") {
      if !Truthy(Get(element, "label")) {
        found := found + [GroupWithoutLabel(i)];
      }
      if !Truthy(GetOr(element, "layout", JArr([]))) {
        found := found + [EmptyGroup(i)];
      }
    } else if elementType == JStr("LABEL") {
      if !Truthy(Get(element, "label")) {
        found := found + [LabelWithoutLabel(i)];
      }
    }
  }

  /** The element's own conditions, stated without reference to the messages. */
  predicate ElementOk(e: Json)
    requires e.JObj?
  {
    var t := Get(e, "type");
    && Truthy(t)
    && (t == JStr("ROW") ==> Has(e, "fields") && Truthy(Get(e, "fields")))
    && (StrIn(t, ["SUBTABLE", "REFERENCE_TABLE"]) ==> Truthy(Get(e, "code")))
    && (t == JStr("GROUP") ==> Truthy(Get(e, "label")) && Has(e, "layout") && Truthy(Get(e, "layout")))
    && (t == JStr("LABEL") ==> Truthy(Get(e, "label")))
  }

  /** No error is reported exactly when every element meets its conditions. */
  lemma {:induction false} IssuesNone(items: seq<Json>)
    requires AllObjects(items)
    ensures Issues(items) == [] <==> forall i :: 0 <= i < |items| ==> ElementOk(items[i])
  {
    if items != [] {
      var n := |items| - 1;
      IssuesNone(items[..n]);
      ElementIssuesNone(items[n], n);
      AllOkSnoc(items);
      EmptyConcat(Issues(items[..n]), ElementIssues(items[n], n));
    }
  }

  lemma AllOkSnoc(items: seq<Json>)
    requires AllObjects(items) && items != []
    ensures var n := |items| - 1;
      (forall i :: 0 <= i < |items| ==> ElementOk(items[i]))
      <==> (forall i :: 0 <= i < n ==> ElementOk(items[..n][i])) && ElementOk(items[n])
  {
    var n := |items| - 1;
    assert forall i :: 0 <= i < n ==> items[..n][i] == items[i];
  }

  lemma EmptyConcat<T>(a: seq<T>, b: seq<T>)
    ensures a + b == [] <==> a == [] && b == []
  {
    if a + b == [] {
      assert |a + b| == |a| + |b|;
    }
  }

  lemma ElementIssuesNone(e: Json, i: nat)
    requires e.JObj?
    ensures ElementIssues(e, i) == [] <==> ElementOk(e)
  {
  }

  /** Every failing element is reported, with its own position. */
  lemma {:induction false} IssuesReportEach(items: seq<Json>, i: nat)
    requires AllObjects(items) && i < |items| && !ElementOk(items[i])
    ensures exists k :: 0 <= k < |Issues(items)| && IssueIndex(Issues(items)[k]) == i
  {
    var n := |items| - 1;
    var front := Issues(items[..n]);
    var last := ElementIssues(items[n], n);
    assert Issues(items) == front + last;
    if i == n {
      assert last != [] && IssueIndex(last[0]) == i;
      assert Issues(items)[|front|] == last[0];
    } else {
      assert items[..n][i] == items[i];
      IssuesReportEach(items[..n], i);
      var k :| 0 <= k < |front| && IssueIndex(front[k]) == i;
      assert Issues(items)[k] == front[k];
    }
  }

  // ---------------------------------------------------------------------------
  // _remove_fields_from_layout_structure and _remove_deleted_fields_from_layout

  /**
   * What a pruning walk drops: the FIELD entries whose code is listed, or
   * the FIELD entries and tables whose code the field map does not define.
   */
  datatype Rule = Listed(codes: seq<string>) | Defined(allFields: Json)

  predicate RuleOk(rule: Rule)
  {
    rule.Defined? ==> rule.allFields.JObj?
  }

  /** `code in all_fields`: only a string can be a key of the field map. */
  predicate InMap(code: Json, allFields: Json)
    requires allFields.JObj?
  {
    code.JStr? && Has(allFields, code.s)
  }

  /** Whether a row entry survives. */
  predicate KeepEntry(rule: Rule, f: Json)
    requires RuleOk(rule) && f.JObj?
  {
    match rule
    case Listed(codes) => !(IsType(f, "FIELD") && StrIn(Get(f, "code"), codes))
    case Defined(m) => !IsType(f, "FIELD") || InMap(Get(f, "code"), m)
  }

  /** Whether an element that is neither a ROW nor a GROUP survives. */
  predicate KeepOther(rule: Rule, e: Json)
    requires RuleOk(rule) && e.JObj?
  {
    match rule
    case Listed(_) => true
    case Defined(m) => !StrIn(Get(e, "type"), ["SUBTABLE", "REFERENCE_TABLE"]) || InMap(Get(e, "code"), m)
  }

  /** The entries of a row that survive, in order. */
  function KeptFields(rule: Rule, fields: seq<Json>): (r: seq<Json>)
    requires RuleOk(rule) && AllObjects(fields)
    ensures AllObjects(r) && |r| <= |fields|
  {
    if fields == [] then []
    else
      var last := fields[|fields| - 1];
      KeptFields(rule, fields[..|fields| - 1]) + (if KeepEntry(rule, last) then [last] else [])
  }

  /**
   * The pruned layout: a ROW keeps its surviving entries and is dropped
   * when none survive, a GROUP keeps its pruned layout and is dropped when
   * that is empty, and any other element stays or goes by the rule.
   */
  function Prune(rule: Rule, items: seq<Json>): (r: seq<Json>)
    requires RuleOk(rule) && Tree(items)
    ensures Tree(r)
    decreases items
  {
    if items == [] then []
    else
      var init := Prune(rule, items[..|items| - 1]);
      var last := PruneNode(rule, items[|items| - 1]);
      TreeAppend(init, last);
      init + last
  }

  /** The pruned element, or nothing when it is dropped. */
  function PruneNode(rule: Rule, e: Json): (r: seq<Json>)
    requires RuleOk(rule) && Node(e)
    ensures Tree(r) && |r| <= 1
    decreases e
  {
    if IsType(e, "ROW") then
      var kept := KeptFields(rule, RowFields(e));
      if kept == [] then [] else [Set(e, "fields", JArr(kept))]
    else if IsType(e, "GROUP") then
      var nested := if Has(e, "layout") then Prune(rule, Get(e, "layout").items) else [];
      if nested == [] then [] else [Set(e, "layout", JArr(nested))]
    else if KeepOther(rule, e) then [e]
    else []
  }

  lemma KeptFieldsSnoc(rule: Rule, fields: seq<Json>, j: nat)
    requires RuleOk(rule) && AllObjects(fields) && j < |fields|
    ensures KeptFields(rule, fields[..j + 1]) ==
      KeptFields(rule, fields[..j]) + (if KeepEntry(rule, fields[j]) then [fields[j]] else [])
  {
    assert fields[..j + 1][..j] == fields[..j];
  }

  lemma PruneSnoc(rule: Rule, items: seq<Json>, i: nat)
    requires RuleOk(rule) && Tree(items) && i < |items|
    ensures Tree(items[..i]) && Tree(items[..i + 1])
    ensures Prune(rule, items[..i + 1]) == Prune(rule, items[..i]) + PruneNode(rule, items[i])
  {
    assert items[..i + 1][..i] == items[..i];
  }

  /** The loop over a row's entries that keeps the surviving ones. */
  method KeepRowFields(rule: Rule, fields: seq<Json>) returns (kept: seq<Json>)
    requires RuleOk(rule) && AllObjects(fields)
    ensures kept == KeptFields(rule, fields)
  {
    kept := [];
    for j := 0 to |fields|
      invariant kept == KeptFields(rule, fields[..j])
    {
      KeptFieldsSnoc(rule, fields, j);
      if KeepEntry(rule, fields[j]) {
        kept := kept + [fields[j]];
      }
    }
    assert fields[..|fields|] == fields;
  }

  /** The loop over the elements of a layout, appending each surviving element. */
  method PruneLayout(rule: Rule, layout: seq<Json>) returns (pruned: seq<Json>)
    requires RuleOk(rule) && Tree(layout)
    ensures pruned == Prune(rule, layout)
    decreases layout
  {
    pruned := [];
    for i := 0 to |layout|
      invariant Tree(layout[..i]) && pruned == Prune(rule, layout[..i])
    {
      PruneSnoc(rule, layout, i);
      var part := PruneElement(rule, layout[i]);
      pruned := pruned + part;
    }
    assert layout[..|layout|] == layout;
  }

  /** One element: a copy of a ROW or GROUP with its contents pruned, or the element itself. */
  method PruneElement(rule: Rule, element: Json) returns (part: seq<Json>)
    requires RuleOk(rule) && Node(element)
    ensures part == PruneNode(rule, element)
    decreases element
  {
    part := [];
    if IsType(element, "ROW") {
      var kept := KeepRowFields(rule, RowFields(element));
      if kept != [] {
        part := [Set(element, "fields", JArr(kept))];
      }
    } else if IsType(element, "GROUP") {
      var nested := [];
      if Has(element, "layout") {
        nested := PruneLayout(rule, Get(element, "layout").items);
      }
      if nested != [] {
        part := [Set(element, "layout", JArr(nested))];
      }
    } else if KeepOther(rule, element) {
      part := [element];
    }
  }

  /** _remove_fields_from_layout_structure: drop the FIELD entries whose code is listed. */
  method RemoveFieldsFromLayoutStructure(layout: seq<Json>, fieldCodes: seq<string>) returns (updated: seq<Json>)
    requires Tree(layout)
    ensures updated == Prune(Listed(fieldCodes), layout)
  {
    updated := PruneLayout(Listed(fieldCodes), layout);
  }

  /** _remove_deleted_fields_from_layout: drop the FIELD entries and tables the field map no longer defines. */
  method RemoveDeletedFieldsFromLayout(layout: seq<Json>, allFields: Json) returns (cleaned: seq<Json>)
    requires Tree(layout) && allFields.JObj?
    ensures cleaned == Prune(Defined(allFields), layout)
  {
    cleaned := PruneLayout(Defined(allFields), layout);
  }

  // What pruning keeps

  lemma EmptyAppend<T>(s: seq<T>)
    ensures [] + s == s
  {
  }

  lemma {:induction false} KeptFieldsAppend(rule: Rule, a: seq<Json>, b: seq<Json>)
    requires RuleOk(rule) && AllObjects(a) && AllObjects(b)
    ensures AllObjects(a + b) && KeptFields(rule, a + b) == KeptFields(rule, a) + KeptFields(rule, b)
    decreases |b|
  {
    assert forall i :: 0 <= i < |a + b| ==> (a + b)[i] == if i < |a| then a[i] else b[i - |a|];
    if b == [] {
      AppendEmpty(a);
      AppendEmpty(KeptFields(rule, a));
    } else {
      var b' := b[..|b| - 1];
      var x := b[|b| - 1];
      KeptFieldsAppend(rule, a, b');
      DropLastAppend(a, b);
      Assoc(KeptFields(rule, a), KeptFields(rule, b'), if KeepEntry(rule, x) then [x] else []);
    }
  }

  /** A surviving entry is an entry that the rule keeps, and every such entry survives. */
  lemma {:induction false} KeptFieldsMembers(rule: Rule, fields: seq<Json>)
    requires RuleOk(rule) && AllObjects(fields)
    ensures forall f :: f in KeptFields(rule, fields) ==> f in fields && f.JObj? && KeepEntry(rule, f)
    ensures forall i :: 0 <= i < |fields| && KeepEntry(rule, fields[i]) ==> fields[i] in KeptFields(rule, fields)
  {
    if fields != [] {
      var init := fields[..|fields| - 1];
      KeptFieldsMembers(rule, init);
      assert forall i :: 0 <= i < |init| ==> init[i] == fields[i];
    }
  }

  /** Keeping twice keeps the same entries. */
  lemma {:induction false} KeptFieldsTwice(rule: Rule, fields: seq<Json>)
    requires RuleOk(rule) && AllObjects(fields)
    ensures KeptFields(rule, KeptFields(rule, fields)) == KeptFields(rule, fields)
  {
    if fields != [] {
      var init := fields[..|fields| - 1];
      var x := fields[|fields| - 1];
      var tail := if KeepEntry(rule, x) then [x] else [];
      KeptFieldsTwice(rule, init);
      KeptFieldsAppend(rule, KeptFields(rule, init), tail);
      if KeepEntry(rule, x) {
        assert KeptFields(rule, [x]) == KeptFields(rule, []) + [x];
      }
    }
  }

  /** Keeping the FIELD entries of a row's survivors is keeping the survivors among its FIELD entries. */
  lemma {:induction false} RowEntriesKept(rule: Rule, fields: seq<Json>)
    requires RuleOk(rule) && AllObjects(fields)
    ensures RowEntries(KeptFields(rule, fields)) == KeptFields(rule, RowEntries(fields))
  {
    if fields != [] {
      var init := fields[..|fields| - 1];
      var x := fields[|fields| - 1];
      RowEntriesKept(rule, init);
      var kept := if KeepEntry(rule, x) then [x] else [];
      var entry := if IsType(x, "FIELD") then [x] else [];
      assert RowEntries(KeptFields(rule, fields)) == RowEntries(KeptFields(rule, init)) + RowEntries(kept) by {
        RowEntriesAppend(KeptFields(rule, init), kept);
      }
      assert KeptFields(rule, RowEntries(fields)) == KeptFields(rule, RowEntries(init)) + KeptFields(rule, entry) by {
        KeptFieldsAppend(rule, RowEntries(init), entry);
      }
      if KeepEntry(rule, x) {
        assert RowEntries(kept) == RowEntries([]) + entry;
      }
      if IsType(x, "FIELD") {
        assert KeptFields(rule, entry) == KeptFields(rule, []) + kept;
      }
    }
  }

  lemma {:induction false} RowEntriesAppend(a: seq<Json>, b: seq<Json>)
    requires AllObjects(a) && AllObjects(b)
    ensures AllObjects(a + b) && RowEntries(a + b) == RowEntries(a) + RowEntries(b)
    decreases |b|
  {
    assert forall i :: 0 <= i < |a + b| ==> (a + b)[i] == if i < |a| then a[i] else b[i - |a|];
    if b == [] {
      AppendEmpty(a);
      AppendEmpty(RowEntries(a));
    } else {
      var b' := b[..|b| - 1];
      var x := b[|b| - 1];
      RowEntriesAppend(a, b');
      DropLastAppend(a, b);
      Assoc(RowEntries(a), RowEntries(b'), if IsType(x, "FIELD") then [x] else []);
    }
  }

  lemma FieldEntriesSingle(x: Json)
    requires Node(x)
    ensures Tree([x]) && FieldEntries([x]) == NodeEntries(x)
  {
    assert [x][..0] == [];
    EmptyAppend(NodeEntries(x));
  }

  /**
   * The FIELD entries left after pruning are the layout's FIELD entries
   * that the rule keeps, in the same document order.
   */
  lemma {:induction false} PruneFieldEntries(rule: Rule, items: seq<Json>)
    requires RuleOk(rule) && Tree(items)
    ensures FieldEntries(Prune(rule, items)) == KeptFields(rule, FieldEntries(items))
    decreases items
  {
    if items != [] {
      var init := items[..|items| - 1];
      var e := items[|items| - 1];
      PruneFieldEntries(rule, init);
      PruneNodeFieldEntries(rule, e);
      FieldEntriesAppend(Prune(rule, init), PruneNode(rule, e));
      KeptFieldsAppend(rule, FieldEntries(init), NodeEntries(e));
    }
  }

  lemma {:induction false} PruneNodeFieldEntries(rule: Rule, e: Json)
    requires RuleOk(rule) && Node(e)
    ensures FieldEntries(PruneNode(rule, e)) == KeptFields(rule, NodeEntries(e))
    decreases e, 1
  {
    if IsType(e, "ROW") {
      PruneRowFieldEntries(rule, e);
    } else if IsType(e, "GROUP") {
      PruneGroupFieldEntries(rule, e);
    } else if KeepOther(rule, e) {
      FieldEntriesSingle(e);
    }
  }

  lemma PruneRowFieldEntries(rule: Rule, e: Json)
    requires RuleOk(rule) && Node(e) && IsType(e, "ROW")
    ensures FieldEntries(PruneNode(rule, e)) == KeptFields(rule, NodeEntries(e))
  {
    var kept := KeptFields(rule, RowFields(e));
    RowEntriesKept(rule, RowFields(e));
    if kept != [] {
      var x := Set(e, "fields", JArr(kept));
      FieldEntriesSingle(x);
      assert RowFields(x) == kept;
    }
  }

  lemma {:induction false} PruneGroupFieldEntries(rule: Rule, e: Json)
    requires RuleOk(rule) && Node(e) && IsType(e, "GROUP")
    ensures FieldEntries(PruneNode(rule, e)) == KeptFields(rule, NodeEntries(e))
    decreases e, 0
  {
    if Has(e, "layout") {
      var items := Get(e, "layout").items;
      var nested := Prune(rule, items);
      PruneFieldEntries(rule, items);
      GroupNodeEntries(e);
      if nested != [] {
        var x := Set(e, "layout", JArr(nested));
        assert PruneNode(rule, e) == [x];
        FieldEntriesSingle(x);
        assert Get(x, "layout").items == nested;
        GroupNodeEntries(x);
      } else {
        assert PruneNode(rule, e) == [];
      }
    } else {
      assert PruneNode(rule, e) == [] && NodeEntries(e) == [];
    }
  }

  lemma GroupNodeEntries(x: Json)
    requires Node(x) && IsType(x, "GROUP") && Has(x, "layout")
    ensures NodeEntries(x) == FieldEntries(Get(x, "layout").items)
  {
  }

  lemma {:induction false} PruneAppend(rule: Rule, a: seq<Json>, b: seq<Json>)
    requires RuleOk(rule) && Tree(a) && Tree(b)
    ensures Tree(a + b) && Prune(rule, a + b) == Prune(rule, a) + Prune(rule, b)
    decreases |b|
  {
    TreeAppend(a, b);
    if b == [] {
      AppendEmpty(a);
      AppendEmpty(Prune(rule, a));
    } else {
      var b' := b[..|b| - 1];
      var x := b[|b| - 1];
      assert Tree(b');
      PruneAppend(rule, a, b');
      DropLastAppend(a, b);
      Assoc(Prune(rule, a), Prune(rule, b'), PruneNode(rule, x));
    }
  }

  lemma PruneSingle(rule: Rule, x: Json)
    requires RuleOk(rule) && Node(x)
    ensures Tree([x]) && Prune(rule, [x]) == PruneNode(rule, x)
  {
    assert [x][..0] == [];
    EmptyAppend(PruneNode(rule, x));
  }

  /** Pruning a pruned layout changes nothing. */
  lemma {:induction false} PruneTwice(rule: Rule, items: seq<Json>)
    requires RuleOk(rule) && Tree(items)
    ensures Prune(rule, Prune(rule, items)) == Prune(rule, items)
    decreases items
  {
    if items != [] {
      var init := items[..|items| - 1];
      var e := items[|items| - 1];
      PruneTwice(rule, init);
      PruneNodeTwice(rule, e);
      PruneAppend(rule, Prune(rule, init), PruneNode(rule, e));
    }
  }

  lemma {:induction false} PruneNodeTwice(rule: Rule, e: Json)
    requires RuleOk(rule) && Node(e)
    ensures Prune(rule, PruneNode(rule, e)) == PruneNode(rule, e)
    decreases e, 1
  {
    if IsType(e, "ROW") {
      PruneRowTwice(rule, e);
    } else if IsType(e, "GROUP") {
      PruneGroupTwice(rule, e);
    } else if KeepOther(rule, e) {
      PruneSingle(rule, e);
    }
  }

  lemma PruneRowTwice(rule: Rule, e: Json)
    requires RuleOk(rule) && Node(e) && IsType(e, "ROW")
    ensures Prune(rule, PruneNode(rule, e)) == PruneNode(rule, e)
  {
    var kept := KeptFields(rule, RowFields(e));
    if kept != [] {
      var x := Set(e, "fields", JArr(kept));
      PruneSingle(rule, x);
      assert RowFields(x) == kept;
      KeptFieldsTwice(rule, RowFields(e));
      SetSet(e, "fields", JArr(kept), JArr(kept));
    }
  }

  lemma {:induction false} PruneGroupTwice(rule: Rule, e: Json)
    requires RuleOk(rule) && Node(e) && IsType(e, "GROUP")
    ensures Prune(rule, PruneNode(rule, e)) == PruneNode(rule, e)
    decreases e, 0
  {
    if Has(e, "layout") {
      var nested := Prune(rule, Get(e, "layout").items);
      if nested != [] {
        var x := Set(e, "layout", JArr(nested));
        PruneSingle(rule, x);
        assert !IsType(x, "ROW") && IsType(x, "GROUP") && Has(x, "layout") && Get(x, "layout").items == nested;
        PruneTwice(rule, Get(e, "layout").items);
        SetSet(e, "layout", JArr(nested), JArr(nested));
      }
    }
  }

  /** No ROW without entries and no GROUP without elements, at any depth. */
  predicate Compact(items: seq<Json>)
    requires Tree(items)
  {
    forall i :: 0 <= i < |items| ==> CompactNode(items[i])
  }

  predicate CompactNode(e: Json)
    requires Node(e)
    decreases e
  {
    && (IsType(e, "ROW") ==> RowFields(e) != [])
    && (IsType(e, "GROUP") ==>
          Has(e, "layout") && Get(e, "layout").items != []
          && forall i :: 0 <= i < |Get(e, "layout").items| ==> CompactNode(Get(e, "layout").items[i]))
  }

  /** Pruning leaves no emptied row or group behind. */
  lemma {:induction false} PruneCompact(rule: Rule, items: seq<Json>)
    requires RuleOk(rule) && Tree(items)
    ensures Compact(Prune(rule, items))
    decreases items
  {
    if items != [] {
      var init := items[..|items| - 1];
      var e := items[|items| - 1];
      PruneCompact(rule, init);
      PruneNodeCompact(rule, e);
      var a := Prune(rule, init);
      var b := PruneNode(rule, e);
      assert forall i :: 0 <= i < |a + b| ==> (a + b)[i] == if i < |a| then a[i] else b[i - |a|];
    }
  }

  lemma {:induction false} PruneNodeCompact(rule: Rule, e: Json)
    requires RuleOk(rule) && Node(e)
    ensures Compact(PruneNode(rule, e))
    decreases e
  {
    if !IsType(e, "ROW") && IsType(e, "GROUP") && Has(e, "layout") {
      var nested := Prune(rule, Get(e, "layout").items);
      PruneCompact(rule, Get(e, "layout").items);
      if nested != [] {
        var x := Set(e, "layout", JArr(nested));
        assert Get(x, "layout").items == nested;
      }
    }
  }

  /** The top-level elements that are neither rows nor groups, in order. */
  function OthersOf(items: seq<Json>): (r: seq<Json>)
    requires AllObjects(items)
    ensures AllObjects(r)
  {
    if items == [] then []
    else
      var e := items[|items| - 1];
      OthersOf(items[..|items| - 1]) + (if !IsType(e, "ROW") && !IsType(e, "GROUP") then [e] else [])
  }

  /** Those of them the rule keeps. */
  function KeptOthers(rule: Rule, others: seq<Json>): (r: seq<Json>)
    requires RuleOk(rule) && AllObjects(others)
    ensures AllObjects(r)
  {
    if others == [] then []
    else
      var e := others[|others| - 1];
      KeptOthers(rule, others[..|others| - 1]) + (if KeepOther(rule, e) then [e] else [])
  }

  lemma {:induction false} OthersAppend(a: seq<Json>, b: seq<Json>)
    requires AllObjects(a) && AllObjects(b)
    ensures AllObjects(a + b) && OthersOf(a + b) == OthersOf(a) + OthersOf(b)
    decreases |b|
  {
    assert forall i :: 0 <= i < |a + b| ==> (a + b)[i] == if i < |a| then a[i] else b[i - |a|];
    if b == [] {
      AppendEmpty(a);
      AppendEmpty(OthersOf(a));
    } else {
      var b' := b[..|b| - 1];
      var x := b[|b| - 1];
      OthersAppend(a, b');
      DropLastAppend(a, b);
      Assoc(OthersOf(a), OthersOf(b'), if !IsType(x, "ROW") && !IsType(x, "GROUP") then [x] else []);
    }
  }

  lemma {:induction false} KeptOthersAppend(rule: Rule, a: seq<Json>, b: seq<Json>)
    requires RuleOk(rule) && AllObjects(a) && AllObjects(b)
    ensures AllObjects(a + b) && KeptOthers(rule, a + b) == KeptOthers(rule, a) + KeptOthers(rule, b)
    decreases |b|
  {
    assert forall i :: 0 <= i < |a + b| ==> (a + b)[i] == if i < |a| then a[i] else b[i - |a|];
    if b == [] {
      AppendEmpty(a);
      AppendEmpty(KeptOthers(rule, a));
    } else {
      var b' := b[..|b| - 1];
      var x := b[|b| - 1];
      KeptOthersAppend(rule, a, b');
      DropLastAppend(a, b);
      Assoc(KeptOthers(rule, a), KeptOthers(rule, b'), if KeepOther(rule, x) then [x] else []);
    }
  }

  /** What a single element contributes to the other elements, before and after pruning. */
  lemma PruneNodeOthers(rule: Rule, e: Json)
    requires RuleOk(rule) && Node(e)
    ensures var o := if !IsType(e, "ROW") && !IsType(e, "GROUP") then [e] else [];
      OthersOf(PruneNode(rule, e)) == KeptOthers(rule, o)
  {
    var part := PruneNode(rule, e);
    if part != [] {
      assert part == [part[0]] && [part[0]][..0] == [];
      EmptyAppend(if !IsType(part[0], "ROW") && !IsType(part[0], "GROUP") then [part[0]] else []);
    }
    if !IsType(e, "ROW") && !IsType(e, "GROUP") {
      assert [e][..0] == [];
      EmptyAppend(if KeepOther(rule, e) then [e] else []);
    }
  }

  /**
   * Elements other than rows and groups are never rewritten: those the rule
   * keeps stay, in order, and the rest go.
   */
  lemma {:induction false} PruneOthers(rule: Rule, items: seq<Json>)
    requires RuleOk(rule) && Tree(items)
    ensures OthersOf(Prune(rule, items)) == KeptOthers(rule, OthersOf(items))
  {
    if items != [] {
      var init := items[..|items| - 1];
      var e := items[|items| - 1];
      var o := if !IsType(e, "ROW") && !IsType(e, "GROUP") then [e] else [];
      PruneOthers(rule, init);
      PruneNodeOthers(rule, e);
      OthersAppend(Prune(rule, init), PruneNode(rule, e));
      KeptOthersAppend(rule, OthersOf(init), o);
      assert Prune(rule, items) == Prune(rule, init) + PruneNode(rule, e);
      assert OthersOf(items) == OthersOf(init) + o;
    }
  }

  /** A rule that keeps every other element keeps them all. */
  lemma {:induction false} KeptOthersAll(rule: Rule, others: seq<Json>)
    requires RuleOk(rule) && AllObjects(others)
    requires forall i :: 0 <= i < |others| ==> KeepOther(rule, others[i])
    ensures KeptOthers(rule, others) == others
  {
    if others != [] {
      var init := others[..|others| - 1];
      KeptOthersAll(rule, init);
    }
  }

  lemma {:induction false} RowEntriesTyped(fields: seq<Json>)
    requires AllObjects(fields)
    ensures forall k :: 0 <= k < |RowEntries(fields)| ==> IsType(RowEntries(fields)[k], "FIELD")
  {
    if fields != [] {
      RowEntriesTyped(fields[..|fields| - 1]);
    }
  }

  /** Every entry the walk collects is typed "FIELD". */
  lemma {:induction false} FieldEntriesTyped(items: seq<Json>)
    requires Tree(items)
    ensures forall k :: 0 <= k < |FieldEntries(items)| ==> IsType(FieldEntries(items)[k], "FIELD")
    decreases items
  {
    if items != [] {
      FieldEntriesTyped(items[..|items| - 1]);
      NodeEntriesTyped(items[|items| - 1]);
    }
  }

  lemma {:induction false} NodeEntriesTyped(e: Json)
    requires Node(e)
    ensures forall k :: 0 <= k < |NodeEntries(e)| ==> IsType(NodeEntries(e)[k], "FIELD")
    decreases e
  {
    if IsType(e, "ROW") {
      RowEntriesTyped(RowFields(e));
    } else if IsType(e, "GROUP") && Has(e, "layout") {
      FieldEntriesTyped(Get(e, "layout").items);
    }
  }

  /**
   * _remove_fields_from_layout_structure: no FIELD entry with a listed code
   * is left, every other FIELD entry is, no row or group is left empty,
   * every element that is neither a row nor a group stays, and removing
   * the same codes again changes nothing.
   */
  lemma RemoveFieldsMeaning(layout: seq<Json>, codes: seq<string>)
    requires Tree(layout)
    ensures var r := Prune(Listed(codes), layout);
      && (forall f :: f in FieldEntries(r) ==> !StrIn(Get(f, "code"), codes))
      && (forall i :: 0 <= i < |FieldEntries(layout)| && !StrIn(Get(FieldEntries(layout)[i], "code"), codes) ==>
            FieldEntries(layout)[i] in FieldEntries(r))
      && Compact(r)
      && OthersOf(r) == OthersOf(layout)
      && Prune(Listed(codes), r) == r
  {
    var rule := Listed(codes);
    var entries := FieldEntries(layout);
    PruneFieldEntries(rule, layout);
    KeptFieldsMembers(rule, entries);
    FieldEntriesTyped(layout);
    PruneCompact(rule, layout);
    PruneOthers(rule, layout);
    KeptOthersAll(rule, OthersOf(layout));
    PruneTwice(rule, layout);
  }

  /**
   * _remove_deleted_fields_from_layout: a FIELD entry stays exactly when the
   * field map defines its code, a table stays exactly when the map defines
   * its code, labels, spacers and rules stay, no row or group is left
   * empty, and cleaning again changes nothing.
   */
  lemma RemoveDeletedMeaning(layout: seq<Json>, allFields: Json)
    requires Tree(layout) && allFields.JObj?
    ensures var r := Prune(Defined(allFields), layout);
      && (forall f :: f in FieldEntries(r) ==> InMap(Get(f, "code"), allFields))
      && (forall i :: 0 <= i < |FieldEntries(layout)| && InMap(Get(FieldEntries(layout)[i], "code"), allFields) ==>
            FieldEntries(layout)[i] in FieldEntries(r))
      && OthersOf(r) == KeptOthers(Defined(allFields), OthersOf(layout))
      && Compact(r)
      && Prune(Defined(allFields), r) == r
  {
    var rule := Defined(allFields);
    var entries := FieldEntries(layout);
    PruneFieldEntries(rule, layout);
    KeptFieldsMembers(rule, entries);
    FieldEntriesTyped(layout);
    PruneCompact(rule, layout);
    PruneOthers(rule, layout);
    PruneTwice(rule, layout);
  }

  // ---------------------------------------------------------------------------
  // _collect_placed_fields

  /** The `code` values of some entries, as a set. */
  function CodesOf(entries: seq<Json>): (r: set<Json>)
    requires AllObjects(entries)
  {
    if entries == [] then {}
    else CodesOf(entries[..|entries| - 1]) + {Get(entries[|entries| - 1], "code")}
  }

  /**
   * The codes a layout places: those of FIELD entries in rows, and those of
   * SUBTABLE and REFERENCE_TABLE elements, at any depth.
   */
  function Placed(items: seq<Json>): set<Json>
    requires Tree(items)
    decreases items
  {
    if items == [] then {}
    else Placed(items[..|items| - 1]) + PlacedNode(items[|items| - 1])
  }

  function PlacedNode(e: Json): set<Json>
    requires Node(e)
    decreases e
  {
    if IsType(e, "ROW") then CodesOf(RowEntries(RowFields(e)))
    else if IsType(e, "GROUP") then (if Has(e, "layout") then Placed(Get(e, "layout").items) else {})
    else if StrIn(Get(e, "type"), ["SUBTABLE", "REFERENCE_TABLE"]) then {Get(e, "code")}
    else {}
  }

  lemma PlacedSnoc(items: seq<Json>, i: nat)
    requires Tree(items) && i < |items|
    ensures Tree(items[..i]) && Tree(items[..i + 1])
    ensures Placed(items[..i + 1]) == Placed(items[..i]) + PlacedNode(items[i])
  {
    assert items[..i + 1][..i] == items[..i];
  }

  /**
   * _collect_placed_fields: the set the caller passes in, with every code the
   * layout places added to it.
   */
  method CollectPlacedFields(layout: seq<Json>, placed: set<Json>) returns (out: set<Json>)
    requires Tree(layout)
    ensures out == placed + Placed(layout)
    decreases layout
  {
    out := placed;
    for i := 0 to |layout|
      invariant Tree(layout[..i]) && out == placed + Placed(layout[..i])
    {
      PlacedSnoc(layout, i);
      out := CollectPlacedElement(layout[i], out);
    }
    assert layout[..|layout|] == layout;
  }

  /** The loop over a row's entries that adds each FIELD entry's code. */
  method CollectRowCodes(fields: seq<Json>, placed: set<Json>) returns (out: set<Json>)
    requires AllObjects(fields)
    ensures out == placed + CodesOf(RowEntries(fields))
  {
    out := placed;
    for j := 0 to |fields|
      invariant out == placed + CodesOf(RowEntries(fields[..j]))
    {
      RowEntriesSnoc(fields, j);
      var entries := RowEntries(fields[..j]);
      if IsType(fields[j], "FIELD") {
        CodesOfSnoc(entries, fields[j]);
        UnionAssoc(placed, CodesOf(entries), {Get(fields[j], "code")});
        out := out + {Get(fields[j], "code")};
      } else {
        AppendEmpty(entries);
      }
    }
    assert fields[..|fields|] == fields;
  }

  lemma CodesOfSnoc(entries: seq<Json>, f: Json)
    requires AllObjects(entries) && f.JObj?
    ensures AllObjects(entries + [f]) && CodesOf(entries + [f]) == CodesOf(entries) + {Get(f, "code")}
  {
    DropLastAppend(entries, [f]);
  }

  lemma UnionAssoc<T>(a: set<T>, b: set<T>, c: set<T>)
    ensures a + (b + c) == a + b + c
  {
  }

  method CollectPlacedElement(element: Json, placed: set<Json>) returns (out: set<Json>)
    requires Node(element)
    ensures out == placed + PlacedNode(element)
    decreases element
  {
    out := placed;
    if IsType(element, "ROW") {
      out := CollectRowCodes(RowFields(element), out);
    } else if IsType(element, "GROUP") {
      if Has(element, "layout") {
        out := CollectPlacedFields(Get(element, "layout").items, out);
      }
    } else if StrIn(Get(element, "type"), ["SUBTABLE", "REFERENCE_TABLE"]) {
      out := out + {Get(element, "code")};
    }
  }

  /** A code is in the set exactly when some entry carries it. */
  lemma {:induction false} CodesOfMembers(entries: seq<Json>)
    requires AllObjects(entries)
    ensures forall c :: c in CodesOf(entries) <==> exists k :: 0 <= k < |entries| && Get(entries[k], "code") == c
  {
    if entries != [] {
      var init := entries[..|entries| - 1];
      CodesOfMembers(init);
      assert forall k :: 0 <= k < |init| ==> init[k] == entries[k];
    }
  }

  lemma {:induction false} CodesOfAppend(a: seq<Json>, b: seq<Json>)
    requires AllObjects(a) && AllObjects(b)
    ensures AllObjects(a + b) && CodesOf(a + b) == CodesOf(a) + CodesOf(b)
    decreases |b|
  {
    assert forall i :: 0 <= i < |a + b| ==> (a + b)[i] == if i < |a| then a[i] else b[i - |a|];
    if b == [] {
      AppendEmpty(a);
    } else {
      CodesOfAppend(a, b[..|b| - 1]);
      DropLastAppend(a, b);
    }
  }

  lemma {:induction false} PlacedAppend(a: seq<Json>, b: seq<Json>)
    requires Tree(a) && Tree(b)
    ensures Tree(a + b) && Placed(a + b) == Placed(a) + Placed(b)
    decreases |b|
  {
    TreeAppend(a, b);
    if b == [] {
      AppendEmpty(a);
    } else {
      var b' := b[..|b| - 1];
      assert Tree(b');
      PlacedAppend(a, b');
      DropLastAppend(a, b);
    }
  }

  lemma PlacedSingle(x: Json)
    requires Node(x)
    ensures Tree([x]) && Placed([x]) == PlacedNode(x)
  {
    assert [x][..0] == [];
  }

  /** The codes among `s` that the field map defines. */
  function DefinedCodes(s: set<Json>, allFields: Json): (r: set<Json>)
    requires allFields.JObj?
    ensures r <= s
  {
    set c | c in s && InMap(c, allFields)
  }

  /** Among FIELD entries, the survivors' codes are the defined codes. */
  lemma {:induction false} CodesKept(entries: seq<Json>, allFields: Json)
    requires allFields.JObj? && AllObjects(entries)
    requires forall k :: 0 <= k < |entries| ==> IsType(entries[k], "FIELD")
    ensures CodesOf(KeptFields(Defined(allFields), entries)) == DefinedCodes(CodesOf(entries), allFields)
  {
    if entries != [] {
      var init := entries[..|entries| - 1];
      var x := entries[|entries| - 1];
      CodesKept(init, allFields);
      var kept := if KeepEntry(Defined(allFields), x) then [x] else [];
      CodesOfAppend(KeptFields(Defined(allFields), init), kept);
      if kept != [] {
        assert kept[..0] == [];
      }
    }
  }

  /**
   * Cleaning out deleted fields keeps exactly the placed codes the field map
   * defines.
   */
  lemma {:induction false} PrunePlaced(items: seq<Json>, allFields: Json)
    requires Tree(items) && allFields.JObj?
    ensures Placed(Prune(Defined(allFields), items)) == DefinedCodes(Placed(items), allFields)
    decreases items
  {
    if items != [] {
      var rule := Defined(allFields);
      var init := items[..|items| - 1];
      var e := items[|items| - 1];
      PrunePlaced(init, allFields);
      PruneNodePlaced(e, allFields);
      PlacedAppend(Prune(rule, init), PruneNode(rule, e));
    }
  }

  lemma {:induction false} PruneNodePlaced(e: Json, allFields: Json)
    requires Node(e) && allFields.JObj?
    ensures Placed(PruneNode(Defined(allFields), e)) == DefinedCodes(PlacedNode(e), allFields)
    decreases e, 1
  {
    if IsType(e, "ROW") {
      PruneRowPlaced(e, allFields);
    } else if IsType(e, "GROUP") {
      PruneGroupPlaced(e, allFields);
    } else {
      var part := PruneNode(Defined(allFields), e);
      if part != [] {
        PlacedSingle(e);
      }
    }
  }

  lemma PruneRowPlaced(e: Json, allFields: Json)
    requires Node(e) && allFields.JObj? && IsType(e, "ROW")
    ensures Placed(PruneNode(Defined(allFields), e)) == DefinedCodes(PlacedNode(e), allFields)
  {
    var rule := Defined(allFields);
    var fields := RowFields(e);
    var kept := KeptFields(rule, fields);
    RowEntriesKept(rule, fields);
    RowEntriesTyped(fields);
    CodesKept(RowEntries(fields), allFields);
    if kept != [] {
      var r := Set(e, "fields", JArr(kept));
      assert IsType(r, "ROW") && RowFields(r) == kept;
      PlacedSingle(r);
    }
  }

  lemma {:induction false} PruneGroupPlaced(e: Json, allFields: Json)
    requires Node(e) && allFields.JObj? && IsType(e, "GROUP")
    ensures Placed(PruneNode(Defined(allFields), e)) == DefinedCodes(PlacedNode(e), allFields)
    decreases e, 0
  {
    if Has(e, "layout") {
      var nested := Prune(Defined(allFields), Get(e, "layout").items);
      PrunePlaced(Get(e, "layout").items, allFields);
      if nested != [] {
        var r := Set(e, "layout", JArr(nested));
        assert IsType(r, "GROUP") && !IsType(r, "ROW") && Get(r, "layout").items == nested;
        PlacedSingle(r);
      }
    }
  }
}
