/**
 * The helpers of server/tools/implementations/layout_tools.py that lay
 * fields out in rows: _auto_organize_layout, which appends the fields a
 * layout leaves out, and the section, form and table builders.
 */
module LayoutBuilders {
  import opened Wrappers
  import opened Json
  import opened LayoutTools
  import LayoutUtils
  import Text

  // ---------------------------------------------------------------------------
  // Cutting a list into rows of at most `w` items

  /** `[s[i:i + w] for i in range(0, len(s), w)]`: consecutive slices of `w` items, the last possibly shorter. */
  function Chunks<T>(s: seq<T>, w: nat): seq<seq<T>>
    requires w > 0
    decreases |s|
  {
    if s == [] then []
    else if |s| <= w then [s]
    else [s[..w]] + Chunks(s[w..], w)
  }

  function Flatten<T>(chunks: seq<seq<T>>): seq<T>
  {
    if chunks == [] then [] else chunks[0] + Flatten(chunks[1..])
  }

  /** The slices, put back together, are the list itself. */
  lemma {:induction false} ChunksFlatten<T>(s: seq<T>, w: nat)
    requires w > 0
    ensures Flatten(Chunks(s, w)) == s
    decreases |s|
  {
    if |s| > w {
      ChunksFlatten(s[w..], w);
      assert ([s[..w]] + Chunks(s[w..], w))[1..] == Chunks(s[w..], w);
      assert s[..w] + s[w..] == s;
    } else if s != [] {
      assert [s][1..] == [];
    }
  }

  /** No slice is empty or longer than `w`, and every slice but the last holds exactly `w` items. */
  lemma {:induction false} ChunksSizes<T>(s: seq<T>, w: nat)
    requires w > 0
    ensures var c := Chunks(s, w);
      forall i :: 0 <= i < |c| ==> 0 < |c[i]| <= w && (i < |c| - 1 ==> |c[i]| == w)
    decreases |s|
  {
    if |s| > w {
      ChunksSizes(s[w..], w);
      var c := Chunks(s, w);
      assert forall i :: 0 < i < |c| ==> c[i] == Chunks(s[w..], w)[i - 1];
    }
  }

  /**
   * There are ceil(len(s) / w) slices: no slice for an empty list, and
   * otherwise just enough slices of `w` to hold every item.
   */
  lemma {:induction false} ChunksCount<T>(s: seq<T>, w: nat)
    requires w > 0
    ensures |Chunks(s, w)| == 0 <==> s == []
    ensures |Chunks(s, w)| * w - w < |s| <= |Chunks(s, w)| * w
    decreases |s|
  {
    if |s| > w {
      var n := |Chunks(s[w..], w)|;
      ChunksCount(s[w..], w);
      assert (n + 1) * w == n * w + w;
    }
  }

  /** A list cut after `n` full slices is sliced as its two parts are. */
  lemma {:induction false} ChunksAppend<T>(a: seq<T>, b: seq<T>, w: nat, n: nat)
    requires w > 0 && |a| == n * w
    ensures Chunks(a + b, w) == Chunks(a, w) + Chunks(b, w)
    decreases n
  {
    if n == 0 {
      assert a + b == b;
    } else {
      assert |a| == (n - 1) * w + w;
      if n == 1 {
        if b == [] {
          assert a + b == a;
        } else {
          assert (a + b)[..w] == a && (a + b)[w..] == b;
        }
      } else {
        assert (a + b)[..w] == a[..w] && (a + b)[w..] == a[w..] + b;
        ChunksAppend(a[w..], b, w, n - 1);
      }
    }
  }

  lemma SnocSplit<T>(s: seq<T>)
    requires s != []
    ensures s[..|s| - 1] + [s[|s| - 1]] == s
  {
  }

  lemma ChunksSingle<T>(s: seq<T>, w: nat)
    requires 0 < |s| <= w
    ensures Chunks(s, w) == [s]
  {
  }

  // ---------------------------------------------------------------------------
  // Rows of FIELD entries

  /** `{"type": "ROW", "fields": entries}`. */
  function RowOf(entries: seq<Json>): Json
  {
    Display(["type", "fields"], [JStr("ROW"), JArr(entries)])
  }

  function Rows(chunks: seq<seq<Json>>): (r: seq<Json>)
    ensures |r| == |chunks|
  {
    if chunks == [] then [] else [RowOf(chunks[0])] + Rows(chunks[1..])
  }

  /** Entries of a row that are all dicts typed "FIELD". */
  predicate FieldDicts(entries: seq<Json>)
  {
    AllObjects(entries) && forall k :: 0 <= k < |entries| ==> IsType(entries[k], "FIELD")
  }

  predicate AllFieldDicts(chunks: seq<seq<Json>>)
  {
    forall i :: 0 <= i < |chunks| ==> FieldDicts(chunks[i])
  }

  lemma RowOfFacts(entries: seq<Json>)
    requires AllObjects(entries)
    ensures Node(RowOf(entries)) && IsType(RowOf(entries), "ROW") && RowFields(RowOf(entries)) == entries
    ensures Has(RowOf(entries), "fields") && Get(RowOf(entries), "fields") == JArr(entries)
    ensures ElementOk(RowOf(entries)) <==> entries != []
  {
    assert Distinct(["type", "fields"]);
    DisplayAt(["type", "fields"], [JStr("ROW"), JArr(entries)], 0);
    DisplayAt(["type", "fields"], [JStr("ROW"), JArr(entries)], 1);
  }

  /** Selecting the FIELD entries of entries that are all typed "FIELD" keeps them all. */
  lemma {:induction false} RowEntriesAll(entries: seq<Json>)
    requires FieldDicts(entries)
    ensures RowEntries(entries) == entries
  {
    if entries != [] {
      var init := entries[..|entries| - 1];
      assert FieldDicts(init) by {
        assert forall k :: 0 <= k < |init| ==> init[k] == entries[k];
      }
      RowEntriesAll(init);
      assert IsType(entries[|entries| - 1], "FIELD");
      SnocSplit(entries);
    }
  }

  lemma FlattenFieldDicts(chunks: seq<seq<Json>>)
    requires AllFieldDicts(chunks)
    ensures FieldDicts(Flatten(chunks))
    decreases |chunks|
  {
    if chunks != [] {
      FlattenFieldDicts(chunks[1..]);
      var a, b := chunks[0], Flatten(chunks[1..]);
      assert forall k :: 0 <= k < |a + b| ==> (a + b)[k] == if k < |a| then a[k] else b[k - |a|];
    }
  }

  /** A row of such entries, on its own, as a layout. */
  lemma RowAlone(entries: seq<Json>)
    requires FieldDicts(entries)
    ensures Tree([RowOf(entries)])
    ensures FieldEntries([RowOf(entries)]) == entries
    ensures Placed([RowOf(entries)]) == CodesOf(entries)
  {
    RowOfFacts(entries);
    FieldEntriesSingle(RowOf(entries));
    PlacedSingle(RowOf(entries));
    RowEntriesAll(entries);
  }

  /**
   * A layout of rows holds as FIELD entries exactly the rows' entries, in
   * order, and places exactly their codes.
   */
  lemma {:induction false} RowsContents(chunks: seq<seq<Json>>)
    requires AllFieldDicts(chunks)
    ensures Tree(Rows(chunks))
    ensures FieldEntries(Rows(chunks)) == Flatten(chunks)
    ensures FieldDicts(Flatten(chunks)) && Placed(Rows(chunks)) == CodesOf(Flatten(chunks))
    decreases |chunks|
  {
    FlattenFieldDicts(chunks);
    if chunks != [] {
      var row := [RowOf(chunks[0])];
      RowsContents(chunks[1..]);
      RowAlone(chunks[0]);
      FieldEntriesAppend(row, Rows(chunks[1..]));
      PlacedAppend(row, Rows(chunks[1..]));
      FlattenFieldDicts(chunks[1..]);
      CodesOfAppend(chunks[0], Flatten(chunks[1..]));
    }
  }

  /** Rows of FIELD entries whose codes the field map defines survive cleaning unchanged. */
  lemma {:induction false} RowsKept(chunks: seq<seq<Json>>, allFields: Json)
    requires AllFieldDicts(chunks) && allFields.JObj?
    requires forall i :: 0 <= i < |chunks| ==> chunks[i] != []
    requires forall i, k :: 0 <= i < |chunks| && 0 <= k < |chunks[i]| ==> InMap(Get(chunks[i][k], "code"), allFields)
    ensures Tree(Rows(chunks)) && Prune(Defined(allFields), Rows(chunks)) == Rows(chunks)
    decreases |chunks|
  {
    RowsContents(chunks);
    if chunks != [] {
      var rule := Defined(allFields);
      var row := RowOf(chunks[0]);
      RowsKept(chunks[1..], allFields);
      RowOfFacts(chunks[0]);
      KeptFieldsAll(rule, chunks[0]);
      PruneSingle(rule, row);
      SetSame(row, "fields");
      PruneAppend(rule, [row], Rows(chunks[1..]));
    }
  }

  lemma {:induction false} KeptFieldsAll(rule: Rule, fields: seq<Json>)
    requires RuleOk(rule) && AllObjects(fields)
    requires forall k :: 0 <= k < |fields| ==> KeepEntry(rule, fields[k])
    ensures KeptFields(rule, fields) == fields
  {
    if fields != [] {
      var init := fields[..|fields| - 1];
      forall k | 0 <= k < |init|
        ensures KeepEntry(rule, init[k])
      {
        assert init[k] == fields[k];
      }
      KeptFieldsAll(rule, init);
      assert KeepEntry(rule, fields[|fields| - 1]);
      SnocSplit(fields);
    }
  }

  /** Every item of every slice is an item of the list. */
  lemma {:induction false} ChunksMembers<T>(s: seq<T>, w: nat)
    requires w > 0
    ensures forall i, k :: 0 <= i < |Chunks(s, w)| && 0 <= k < |Chunks(s, w)[i]| ==> Chunks(s, w)[i][k] in s
    decreases |s|
  {
    if |s| > w {
      ChunksMembers(s[w..], w);
      var c := Chunks(s, w);
      assert forall i :: 0 < i < |c| ==> c[i] == Chunks(s[w..], w)[i - 1];
      assert forall x :: x in s[w..] ==> x in s;
      assert forall x :: x in s[..w] ==> x in s;
    }
  }

  /** Taking `j` more items, at most `w`, after `n` full slices adds them as one more slice. */
  lemma ChunksExtend<T>(s: seq<T>, w: nat, n: nat, j: nat)
    requires w > 0 && 0 < j <= w && n * w + j <= |s|
    ensures Chunks(s[..n * w + j], w) == Chunks(s[..n * w], w) + [s[n * w..n * w + j]]
  {
    assert s[..n * w + j] == s[..n * w] + s[n * w..n * w + j];
    ChunksAppend(s[..n * w], s[n * w..n * w + j], w, n);
  }

  lemma RowsExtend(entries: seq<Json>, w: nat, n: nat, j: nat)
    requires w > 0 && 0 < j <= w && n * w + j <= |entries|
    ensures Rows(Chunks(entries[..n * w + j], w)) == Rows(Chunks(entries[..n * w], w)) + [RowOf(entries[n * w..n * w + j])]
  {
    ChunksExtend(entries, w, n, j);
    RowsAppend(Chunks(entries[..n * w], w), [entries[n * w..n * w + j]]);
  }

  lemma {:induction false} RowsAppend(a: seq<seq<Json>>, b: seq<seq<Json>>)
    ensures Rows(a + b) == Rows(a) + Rows(b)
    decreases |a|
  {
    if a == [] {
      assert a + b == b;
    } else {
      assert (a + b)[0] == a[0] && (a + b)[1..] == a[1..] + b;
      RowsAppend(a[1..], b);
    }
  }

  // ---------------------------------------------------------------------------
  // _auto_organize_layout

  /** The system codes the organiser never lays out, whatever their definition. */
  const OrganizeSkipped: seq<string> :=
    ["$id", "$revision", "作成者", "作成日時", "更新者", "更新日時",
     "CREATED_TIME", "CREATOR", "MODIFIED_TIME", "MODIFIER"]

  /** A definition the organiser lays out when the layout does not already place it. */
  predicate Organizable(entry: (string, Json))
    requires entry.1.JObj?
  {
    entry.0 !in OrganizeSkipped && !StrIn(Get(entry.1, "type"), ["SUBTABLE", "REFERENCE_TABLE"])
  }

  predicate Candidate(entry: (string, Json), placed: set<Json>)
    requires entry.1.JObj?
  {
    JStr(entry.0) !in placed && Organizable(entry)
  }

  predicate Defs(m: Members)
  {
    forall i :: 0 <= i < |m| ==> m[i].1.JObj?
  }

  /** The unplaced codes, in field-map order. */
  function Unplaced(m: Members, placed: set<Json>): seq<string>
    requires Defs(m)
  {
    if m == [] then []
    else
      var last := m[|m| - 1];
      Unplaced(m[..|m| - 1], placed) + (if Candidate(last, placed) then [last.0] else [])
  }

  /** `{"type": "FIELD", "code": code, "size": {"width": "200px"}}`. */
  function OrganizeEntry(code: string): Json
  {
    Display(["type", "code", "size"], [JStr("FIELD"), JStr(code), Display(["width"], [JStr("200px")])])
  }

  function OrganizeEntries(codes: seq<string>): (r: seq<Json>)
    ensures |r| == |codes|
  {
    seq(|codes|, i requires 0 <= i < |codes| => OrganizeEntry(codes[i]))
  }

  /** Rows fill up to `fields_per_row` entries; a value below 1 closes every row after its first entry. */
  function Width(fieldsPerRow: int): (w: nat)
    ensures w > 0
  {
    if fieldsPerRow >= 1 then fieldsPerRow else 1
  }

  /**
   * The organised layout: the layout cleaned of deleted fields, followed by
   * rows of the fields it did not place.
   */
  function AutoOrganize(allFields: Json, layout: seq<Json>, fieldsPerRow: int): seq<Json>
    requires LayoutUtils.FieldMap(allFields) && Tree(layout)
  {
    Prune(Defined(allFields), layout)
      + Rows(Chunks(OrganizeEntries(Unplaced(allFields.members, Placed(layout))), Width(fieldsPerRow)))
  }

  /** The loop over the field map that gathers the unplaced codes. */
  method CollectUnplaced(m: Members, placed: set<Json>) returns (unplaced: seq<string>)
    requires Defs(m)
    ensures unplaced == Unplaced(m, placed)
  {
    unplaced := [];
    for i := 0 to |m|
      invariant unplaced == Unplaced(m[..i], placed)
    {
      assert m[..i + 1][..i] == m[..i];
      var (fieldCode, fieldInfo) := m[i];
      if JStr(fieldCode) !in placed && fieldCode !in OrganizeSkipped {
        var fieldType := Get(fieldInfo, "type");
        if !StrIn(fieldType, ["SUBTABLE", "REFERENCE_TABLE"]) {
          unplaced := unplaced + [fieldCode];
        }
      }
    }
    assert m[..|m|] == m;
  }

  /** _auto_organize_layout. */
  method AutoOrganizeLayout(allFields: Json, currentLayout: seq<Json>, fieldsPerRow: int)
    returns (organized: seq<Json>)
    requires LayoutUtils.FieldMap(allFields) && Tree(currentLayout)
    ensures organized == AutoOrganize(allFields, currentLayout, fieldsPerRow)
  {
    var placed := CollectPlacedFields(currentLayout, {});
    assert placed == Placed(currentLayout);
    var unplaced := CollectUnplaced(allFields.members, placed);
    var cleaned := RemoveDeletedFieldsFromLayout(currentLayout, allFields);
    organized := AppendRows(cleaned, unplaced, fieldsPerRow);
  }

  /** The `current_row` accumulator: an entry per code, a row closed whenever it is full and once more at the end. */
  method AppendRows(layout: seq<Json>, codes: seq<string>, fieldsPerRow: int) returns (organized: seq<Json>)
    ensures organized == layout + Rows(Chunks(OrganizeEntries(codes), Width(fieldsPerRow)))
  {
    organized := layout;
    ghost var w := Width(fieldsPerRow);
    ghost var entries := OrganizeEntries(codes);
    ghost var n: nat := 0;
    ghost var start: nat := 0;
    var currentRow: seq<Json> := [];
    for i := 0 to |codes|
      invariant start == n * w && |currentRow| < w && i == start + |currentRow|
      invariant currentRow == entries[start..i]
      invariant organized == layout + Rows(Chunks(entries[..start], w))
    {
      currentRow := currentRow + [OrganizeEntry(codes[i])];
      if |currentRow| >= fieldsPerRow {
        assert |currentRow| == w && currentRow == entries[n * w..n * w + w];
        RowsExtend(entries, w, n, w);
        Assoc(layout, Rows(Chunks(entries[..start], w)), [RowOf(currentRow)]);
        organized := organized + [RowOf(currentRow)];
        assert (n + 1) * w == start + w;
        currentRow := [];
        n := n + 1;
        start := start + w;
      }
    }
    if currentRow != [] {
      RowsExtend(entries, w, n, |currentRow|);
      Assoc(layout, Rows(Chunks(entries[..start], w)), [RowOf(currentRow)]);
      organized := organized + [RowOf(currentRow)];
    }
    assert entries[..start + |currentRow|] == entries;
  }

  lemma RowsAt(chunks: seq<seq<Json>>)
    ensures forall j :: 0 <= j < |chunks| ==> Rows(chunks)[j] == RowOf(chunks[j])
    decreases |chunks|
  {
    if chunks != [] {
      RowsAt(chunks[1..]);
    }
  }

  /** The unplaced codes are exactly the keys of definitions the organiser lays out and the layout does not place. */
  lemma {:induction false} UnplacedMembers(m: Members, placed: set<Json>)
    requires Defs(m)
    ensures forall c :: c in Unplaced(m, placed) <==> exists i :: 0 <= i < |m| && m[i].0 == c && Candidate(m[i], placed)
  {
    if m != [] {
      var init := m[..|m| - 1];
      UnplacedMembers(init, placed);
      assert forall i :: 0 <= i < |init| ==> init[i] == m[i];
    }
  }

  lemma OrganizeEntryFacts(code: string)
    ensures OrganizeEntry(code).JObj? && IsType(OrganizeEntry(code), "FIELD")
    ensures Get(OrganizeEntry(code), "code") == JStr(code)
  {
    var keys := ["type", "code", "size"];
    var values := [JStr("FIELD"), JStr(code), Display(["width"], [JStr("200px")])];
    assert Distinct(keys);
    DisplayAt(keys, values, 0);
    DisplayAt(keys, values, 1);
  }

  /** The new entries are FIELD dicts whose codes are the given codes. */
  lemma EntriesFacts(codes: seq<string>)
    ensures FieldDicts(OrganizeEntries(codes))
    ensures CodesOf(OrganizeEntries(codes)) == set c | c in codes :: JStr(c)
    ensures forall k :: 0 <= k < |codes| ==> Get(OrganizeEntries(codes)[k], "code") == JStr(codes[k])
  {
    var entries := OrganizeEntries(codes);
    forall k | 0 <= k < |codes|
      ensures entries[k].JObj? && IsType(entries[k], "FIELD") && Get(entries[k], "code") == JStr(codes[k])
    {
      OrganizeEntryFacts(codes[k]);
    }
    CodesOfMembers(entries);
  }

  /** The rows built for some codes: FIELD dicts in non-empty slices of at most `w`. */
  lemma ChunkedEntries(codes: seq<string>, w: nat)
    requires w > 0
    ensures var chunks := Chunks(OrganizeEntries(codes), w);
      && AllFieldDicts(chunks)
      && Flatten(chunks) == OrganizeEntries(codes)
      && (forall i :: 0 <= i < |chunks| ==> chunks[i] != [])
  {
    EntriesFacts(codes);
    ChunkedDicts(OrganizeEntries(codes), w);
  }

  /** Slices of FIELD dicts are non-empty lists of FIELD dicts that put back together give the list. */
  lemma ChunkedDicts(entries: seq<Json>, w: nat)
    requires w > 0 && FieldDicts(entries)
    ensures var chunks := Chunks(entries, w);
      && AllFieldDicts(chunks)
      && Flatten(chunks) == entries
      && (forall i :: 0 <= i < |chunks| ==> chunks[i] != [])
  {
    var chunks := Chunks(entries, w);
    ChunksMembers(entries, w);
    ChunksSizes(entries, w);
    ChunksFlatten(entries, w);
    forall i | 0 <= i < |chunks|
      ensures FieldDicts(chunks[i])
    {
      assert forall k :: 0 <= k < |chunks[i]| ==> chunks[i][k] in entries;
    }
  }

  /**
   * The rows built from FIELD dicts, on their own: rows of between one and
   * `w` entries, all full but the last, just enough of them, whose entries
   * are the dicts in order, and about which _validate_layout reports nothing.
   */
  lemma RowsShape(entries: seq<Json>, w: nat)
    requires w > 0 && FieldDicts(entries)
    ensures var rows := Rows(Chunks(entries, w));
      && Tree(rows)
      && FieldEntries(rows) == entries
      && (forall j :: 0 <= j < |rows| ==>
            IsType(rows[j], "ROW") && 0 < |RowFields(rows[j])| <= w && (j < |rows| - 1 ==> |RowFields(rows[j])| == w))
      && |rows| * w - w < |entries| <= |rows| * w
  {
    var chunks := Chunks(entries, w);
    var rows := Rows(chunks);
    ChunkedDicts(entries, w);
    RowsContents(chunks);
    ChunksSizes(entries, w);
    ChunksCount(entries, w);
    RowsAt(chunks);
    forall j | 0 <= j < |chunks|
      ensures IsType(rows[j], "ROW") && RowFields(rows[j]) == chunks[j]
    {
      RowOfFacts(chunks[j]);
    }
  }

  /** _validate_layout reports nothing about such rows. */
  lemma RowsClean(entries: seq<Json>, w: nat)
    requires w > 0 && FieldDicts(entries)
    ensures AllObjects(Rows(Chunks(entries, w))) && Issues(Rows(Chunks(entries, w))) == []
  {
    var chunks := Chunks(entries, w);
    var rows := Rows(chunks);
    ChunkedDicts(entries, w);
    RowsContents(chunks);
    RowsAt(chunks);
    forall j | 0 <= j < |chunks|
      ensures ElementOk(rows[j])
    {
      RowOfFacts(chunks[j]);
    }
    IssuesNone(rows);
  }

  /**
   * _auto_organize_layout keeps the cleaned layout in front, and after it
   * adds only rows: every row holds between one and `fields_per_row`
   * entries, every row but the last is full, there are just enough of them,
   * and their entries are the unplaced codes' entries in field-map order.
   */
  lemma OrganizeShape(allFields: Json, layout: seq<Json>, fieldsPerRow: int)
    requires LayoutUtils.FieldMap(allFields) && Tree(layout)
    ensures var r := AutoOrganize(allFields, layout, fieldsPerRow);
      var pruned := Prune(Defined(allFields), layout);
      var codes := Unplaced(allFields.members, Placed(layout));
      var w := Width(fieldsPerRow);
      && Tree(r) && r[..|pruned|] == pruned
      && FieldEntries(r) == FieldEntries(pruned) + OrganizeEntries(codes)
      && (forall j :: |pruned| <= j < |r| ==>
            IsType(r[j], "ROW") && 0 < |RowFields(r[j])| <= w && (j < |r| - 1 ==> |RowFields(r[j])| == w))
      && (|r| - |pruned|) * w - w < |codes| <= (|r| - |pruned|) * w
  {
    var pruned := Prune(Defined(allFields), layout);
    var codes := Unplaced(allFields.members, Placed(layout));
    var w := Width(fieldsPerRow);
    var rows := Rows(Chunks(OrganizeEntries(codes), w));
    EntriesFacts(codes);
    RowsShape(OrganizeEntries(codes), w);
    AppendedRows(pruned, rows, w, |OrganizeEntries(codes)|);
  }

  /** Rows of at most `w` entries appended after a tree keep their shape there. */
  lemma AppendedRows(pruned: seq<Json>, rows: seq<Json>, w: nat, n: nat)
    requires Tree(pruned) && Tree(rows)
    requires forall j :: 0 <= j < |rows| ==>
      IsType(rows[j], "ROW") && 0 < |RowFields(rows[j])| <= w && (j < |rows| - 1 ==> |RowFields(rows[j])| == w)
    requires |rows| * w - w < n <= |rows| * w
    ensures var r := pruned + rows;
      && Tree(r) && r[..|pruned|] == pruned
      && FieldEntries(r) == FieldEntries(pruned) + FieldEntries(rows)
      && (forall j :: |pruned| <= j < |r| ==>
            IsType(r[j], "ROW") && 0 < |RowFields(r[j])| <= w && (j < |r| - 1 ==> |RowFields(r[j])| == w))
      && (|r| - |pruned|) * w - w < n <= (|r| - |pruned|) * w
  {
    FieldEntriesAppend(pruned, rows);
    var r := pruned + rows;
    assert r[..|pruned|] == pruned;
    var k := |r| - |pruned|;
    assert k == |rows|;
    forall j | |pruned| <= j < |r|
      ensures IsType(r[j], "ROW") && 0 < |RowFields(r[j])| <= w && (j < |r| - 1 ==> |RowFields(r[j])| == w)
    {
      assert r[j] == rows[j - |pruned|];
    }
  }

  /**
   * After organising, the layout places exactly the codes it placed that
   * the field map defines, plus the unplaced codes; so every definition the
   * organiser lays out is placed.
   */
  lemma OrganizePlaces(allFields: Json, layout: seq<Json>, fieldsPerRow: int)
    requires LayoutUtils.FieldMap(allFields) && Tree(layout)
    ensures var r := AutoOrganize(allFields, layout, fieldsPerRow);
      var codes := Unplaced(allFields.members, Placed(layout));
      && Tree(r)
      && Placed(r) == DefinedCodes(Placed(layout), allFields) + (set c | c in codes :: JStr(c))
      && forall i :: 0 <= i < |allFields.members| && Organizable(allFields.members[i]) ==>
           JStr(allFields.members[i].0) in Placed(r)
  {
    var m := allFields.members;
    var pruned := Prune(Defined(allFields), layout);
    var codes := Unplaced(m, Placed(layout));
    var w := Width(fieldsPerRow);
    var chunks := Chunks(OrganizeEntries(codes), w);
    ChunkedEntries(codes, w);
    RowsContents(chunks);
    EntriesFacts(codes);
    PrunePlaced(layout, allFields);
    PlacedAppend(pruned, Rows(chunks));
    UnplacedMembers(m, Placed(layout));
    forall i | 0 <= i < |m| && Organizable(m[i])
      ensures JStr(m[i].0) in Placed(pruned + Rows(chunks))
    {
      if JStr(m[i].0) in Placed(layout) {
        assert InMap(JStr(m[i].0), allFields);
      } else {
        assert m[i].0 in codes;
      }
    }
  }

  /** Once organised, nothing is left unplaced. */
  lemma OrganizedNothingLeft(allFields: Json, layout: seq<Json>, fieldsPerRow: int)
    requires LayoutUtils.FieldMap(allFields) && Tree(layout)
    ensures var r := AutoOrganize(allFields, layout, fieldsPerRow);
      Tree(r) && Unplaced(allFields.members, Placed(r)) == []
  {
    OrganizePlaces(allFields, layout, fieldsPerRow);
    UnplacedNone(allFields.members, Placed(AutoOrganize(allFields, layout, fieldsPerRow)));
  }

  lemma {:induction false} UnplacedNone(m: Members, placed: set<Json>)
    requires Defs(m)
    requires forall i :: 0 <= i < |m| && Organizable(m[i]) ==> JStr(m[i].0) in placed
    ensures Unplaced(m, placed) == []
  {
    if m != [] {
      var init := m[..|m| - 1];
      assert forall i :: 0 <= i < |init| ==> init[i] == m[i];
      UnplacedNone(init, placed);
    }
  }

  /** Every unplaced code is defined, so its entry survives cleaning. */
  lemma UnplacedDefined(allFields: Json, placed: set<Json>, w: nat)
    requires LayoutUtils.FieldMap(allFields) && w > 0
    ensures var chunks := Chunks(OrganizeEntries(Unplaced(allFields.members, placed)), w);
      AllFieldDicts(chunks) && forall i, k :: 0 <= i < |chunks| && 0 <= k < |chunks[i]| ==> InMap(Get(chunks[i][k], "code"), allFields)
  {
    var m := allFields.members;
    var codes := Unplaced(m, placed);
    var entries := OrganizeEntries(codes);
    var chunks := Chunks(entries, w);
    EntriesFacts(codes);
    UnplacedMembers(m, placed);
    ChunksMembers(entries, w);
    ChunkedEntries(codes, w);
    forall i, k | 0 <= i < |chunks| && 0 <= k < |chunks[i]|
      ensures InMap(Get(chunks[i][k], "code"), allFields)
    {
      var x := chunks[i][k];
      var j :| 0 <= j < |codes| && entries[j] == x;
      assert codes[j] in codes;
      var i' :| 0 <= i' < |m| && m[i'].0 == codes[j] && Candidate(m[i'], placed);
    }
  }

  /** Organising an organised layout changes nothing: every field is placed, and the cleaned layout stays clean. */
  lemma OrganizeIdempotent(allFields: Json, layout: seq<Json>, fieldsPerRow: int)
    requires LayoutUtils.FieldMap(allFields) && Tree(layout)
    ensures var r := AutoOrganize(allFields, layout, fieldsPerRow);
      Tree(r) && AutoOrganize(allFields, r, fieldsPerRow) == r
  {
    var rule := Defined(allFields);
    var pruned := Prune(rule, layout);
    var codes := Unplaced(allFields.members, Placed(layout));
    var w := Width(fieldsPerRow);
    var chunks := Chunks(OrganizeEntries(codes), w);
    var r := pruned + Rows(chunks);
    assert r == AutoOrganize(allFields, layout, fieldsPerRow);
    OrganizedNothingLeft(allFields, layout, fieldsPerRow);
    ChunkedEntries(codes, w);
    UnplacedDefined(allFields, Placed(layout), w);
    RowsKept(chunks, allFields);
    PruneAppend(rule, pruned, Rows(chunks));
    PruneTwice(rule, layout);
    assert Prune(rule, r) == r;
    assert Rows(Chunks(OrganizeEntries(Unplaced(allFields.members, Placed(r))), w)) == [];
    AppendEmpty(r);
  }

  // ---------------------------------------------------------------------------
  // _build_section_layout and _build_table_layout

  /** What `range(0, n, step)` raises. */
  datatype BuildError = StepNotInt(step: Json) | StepZero

  /** The step `range` accepts: an int, or a bool, which Python treats as 0 or 1. */
  function RangeStep(step: Json): Option<int>
  {
    match step
    case JInt(i) => Some(i)
    case JBool(b) => Some(if b then 1 else 0)
    case _ => None
  }

  /** `{"type": "FIELD", "code": field.get("code", ""), "size": {"width": field.get("width", "200px")}}`. */
  function SectionEntry(field: Json): Json
    requires field.JObj?
  {
    Display(["type", "code", "size"],
      [JStr("FIELD"), GetOr(field, "code", JStr("")), Display(["width"], [GetOr(field, "width", JStr("200px"))])])
  }

  function SectionEntries(fields: seq<Json>): (r: seq<Json>)
    requires AllObjects(fields)
    ensures |r| == |fields|
  {
    seq(|fields|, i requires 0 <= i < |fields| => SectionEntry(fields[i]))
  }

  /**
   * The rows _build_section_layout builds: a row per slice of `step` fields
   * when the step is positive, none when it is negative, and the error
   * `range` raises for a zero or non-int step, even for no fields.
   */
  function SectionLayout(fields: seq<Json>, step: Json): Result<seq<Json>, BuildError>
    requires AllObjects(fields)
  {
    match RangeStep(step)
    case None => Err(StepNotInt(step))
    case Some(k) =>
      if k == 0 then Err(StepZero)
      else if k < 0 then Ok([])
      else Ok(Rows(Chunks(SectionEntries(fields), k)))
  }

  /** The rows _build_table_layout builds: one per input row, in order. */
  function TableLayout(rows: seq<seq<Json>>): (r: seq<Json>)
    requires forall i :: 0 <= i < |rows| ==> AllObjects(rows[i])
  {
    Rows(seq(|rows|, i requires 0 <= i < |rows| => SectionEntries(rows[i])))
  }

  /** The loop that builds a row's entries. */
  method RowElements(rowFields: seq<Json>) returns (elements: seq<Json>)
    requires AllObjects(rowFields)
    ensures elements == SectionEntries(rowFields)
  {
    elements := [];
    for t := 0 to |rowFields|
      invariant elements == SectionEntries(rowFields[..t])
    {
      elements := elements + [SectionEntry(rowFields[t])];
    }
    assert rowFields[..|rowFields|] == rowFields;
  }

  function Min(a: int, b: int): int
  {
    if a <= b then a else b
  }

  /** _build_section_layout, with the step read from the options as the source reads it. */
  method BuildSectionLayout(fields: seq<Json>, options: Json) returns (r: Result<seq<Json>, BuildError>)
    requires AllObjects(fields) && options.JObj?
    ensures r == SectionLayout(fields, GetOr(options, "fieldsPerRow", JInt(2)))
  {
    var fieldsPerRow := GetOr(options, "fieldsPerRow", JInt(2));
    var step := RangeStep(fieldsPerRow);
    if step.None? {
      return Err(StepNotInt(fieldsPerRow));
    }
    var k := step.value;
    if k == 0 {
      return Err(StepZero);
    }
    var layout: seq<Json> := [];
    if k > 0 {
      layout := SectionRows(fields, k);
    }
    return Ok(layout);
  }

  /** The loop of _build_section_layout for a positive step: a row per slice of `k` fields. */
  method SectionRows(fields: seq<Json>, k: int) returns (layout: seq<Json>)
    requires AllObjects(fields) && k > 0
    ensures layout == Rows(Chunks(SectionEntries(fields), k))
  {
    ghost var entries := SectionEntries(fields);
    ghost var n: nat := 0;
    layout := [];
    var i := 0;
    while i < |fields|
      invariant i == n * k
      invariant layout == Rows(Chunks(entries[..Min(i, |fields|)], k))
      decreases |fields| - i
    {
      var j := Min(k, |fields| - i);
      var rowElements := RowElements(fields[i..i + j]);
      SectionEntriesSlice(fields, i, i + j);
      RowsExtend(entries, k, n, j);
      layout := layout + [RowOf(rowElements)];
      assert Min(i + k, |fields|) == n * k + j;
      assert (n + 1) * k == i + k;
      i := i + k;
      n := n + 1;
    }
    assert entries[..|fields|] == entries;
  }

  lemma SectionEntriesSlice(fields: seq<Json>, i: nat, j: nat)
    requires AllObjects(fields) && i <= j <= |fields|
    ensures AllObjects(fields[i..j]) && SectionEntries(fields[i..j]) == SectionEntries(fields)[i..j]
  {
    assert forall t :: 0 <= t < j - i ==> fields[i..j][t] == fields[i + t];
  }

  /** _build_table_layout. */
  method BuildTableLayout(rows: seq<seq<Json>>) returns (layout: seq<Json>)
    requires forall i :: 0 <= i < |rows| ==> AllObjects(rows[i])
    ensures layout == TableLayout(rows)
  {
    ghost var chunks := seq(|rows|, i requires 0 <= i < |rows| => SectionEntries(rows[i]));
    layout := [];
    for i := 0 to |rows|
      invariant layout == Rows(chunks[..i])
    {
      var rowElements := RowElements(rows[i]);
      RowsAppend(chunks[..i], [rowElements]);
      assert chunks[..i + 1] == chunks[..i] + [rowElements];
      layout := layout + [RowOf(rowElements)];
    }
    assert chunks[..|rows|] == chunks;
  }

  lemma SectionEntryFacts(field: Json)
    requires field.JObj?
    ensures SectionEntry(field).JObj? && IsType(SectionEntry(field), "FIELD")
    ensures Get(SectionEntry(field), "code") == GetOr(field, "code", JStr(""))
    ensures var size := Get(SectionEntry(field), "size");
      size.JObj? && Get(size, "width") == GetOr(field, "width", JStr("200px"))
  {
    var keys := ["type", "code", "size"];
    var size := Display(["width"], [GetOr(field, "width", JStr("200px"))]);
    var values := [JStr("FIELD"), GetOr(field, "code", JStr("")), size];
    assert Distinct(keys) && Distinct(["width"]);
    DisplayAt(keys, values, 0);
    DisplayAt(keys, values, 1);
    DisplayAt(keys, values, 2);
    DisplayAt(["width"], [GetOr(field, "width", JStr("200px"))], 0);
  }

  lemma SectionEntriesFacts(fields: seq<Json>)
    requires AllObjects(fields)
    ensures FieldDicts(SectionEntries(fields))
    ensures forall i :: 0 <= i < |fields| ==> Get(SectionEntries(fields)[i], "code") == GetOr(fields[i], "code", JStr(""))
  {
    forall i | 0 <= i < |fields|
      ensures SectionEntries(fields)[i].JObj? && IsType(SectionEntries(fields)[i], "FIELD")
      ensures Get(SectionEntries(fields)[i], "code") == GetOr(fields[i], "code", JStr(""))
    {
      SectionEntryFacts(fields[i]);
    }
  }

  /**
   * _build_section_layout with a positive step: ceil(n / step) rows, each
   * full but the last, holding one entry per field in the fields' order,
   * each entry carrying its field's code, and nothing _validate_layout
   * would report.
   */
  lemma SectionShape(fields: seq<Json>, step: Json)
    requires AllObjects(fields) && RangeStep(step).Some? && RangeStep(step).value > 0
    ensures var k := RangeStep(step).value;
      var r := SectionLayout(fields, step);
      && r.Ok? && Tree(r.value)
      && FieldEntries(r.value) == SectionEntries(fields)
      && (forall j :: 0 <= j < |r.value| ==>
            IsType(r.value[j], "ROW") && 0 < |RowFields(r.value[j])| <= k && (j < |r.value| - 1 ==> |RowFields(r.value[j])| == k))
      && |r.value| * k - k < |fields| <= |r.value| * k
      && Issues(r.value) == []
  {
    SectionEntriesFacts(fields);
    RowsShape(SectionEntries(fields), RangeStep(step).value);
    RowsClean(SectionEntries(fields), RangeStep(step).value);
  }

  /**
   * _build_table_layout: one row per input row holding that row's entries,
   * and _validate_layout reports nothing exactly when no input row is empty.
   */
  lemma TableShape(rows: seq<seq<Json>>)
    requires forall i :: 0 <= i < |rows| ==> AllObjects(rows[i])
    ensures var r := TableLayout(rows);
      && |r| == |rows| && Tree(r)
      && (forall i :: 0 <= i < |rows| ==> IsType(r[i], "ROW") && RowFields(r[i]) == SectionEntries(rows[i]))
      && (Issues(r) == [] <==> forall i :: 0 <= i < |rows| ==> rows[i] != [])
  {
    var chunks := seq(|rows|, i requires 0 <= i < |rows| => SectionEntries(rows[i]));
    var r := Rows(chunks);
    forall i | 0 <= i < |rows|
      ensures FieldDicts(chunks[i])
    {
      SectionEntriesFacts(rows[i]);
    }
    RowsContents(chunks);
    RowsAt(chunks);
    forall i | 0 <= i < |rows|
      ensures IsType(r[i], "ROW") && RowFields(r[i]) == chunks[i] && (ElementOk(r[i]) <==> rows[i] != [])
    {
      RowOfFacts(chunks[i]);
    }
    IssuesNone(r);
  }

  // ---------------------------------------------------------------------------
  // _build_form_layout

  /** `field.get("section", "default")`. */
  function SectionOf(field: Json): Json
    requires field.JObj?
  {
    GetOr(field, "section", JStr("default"))
  }

  /** A section the model covers: a string, an int, a boolean or `None`. */
  predicate ScalarSection(name: Json)
  {
    name.JStr? || name.JInt? || name.JBool? || name.JNull?
  }

  /** Two sections a dict holds as one key although they differ: `True` and `1`, `False` and `0`. */
  predicate KeyClash(a: Json, b: Json)
  {
    (a == JBool(true) && b == JInt(1)) || (a == JBool(false) && b == JInt(0))
  }

  /**
   * Fields whose sections are scalars no two of which a dict would merge,
   * so that the sections are dict keys compared as `Json` values.
   */
  predicate KeyableSections(fields: seq<Json>)
  {
    && AllObjects(fields)
    && (forall i :: 0 <= i < |fields| ==> ScalarSection(SectionOf(fields[i])))
    && (forall i, j :: 0 <= i < |fields| && 0 <= j < |fields| ==> !KeyClash(SectionOf(fields[i]), SectionOf(fields[j])))
  }

  /** `str(section)`, as the f-string `f"section_{section_name}"` writes it. */
  function SectionText(name: Json): (r: string)
    requires ScalarSection(name)
    ensures name.JStr? ==> r == name.s
    ensures name.JInt? ==> r == Text.IntToString(name.i)
    ensures name == JBool(true) ==> r == "True"
    ensures name == JBool(false) ==> r == "False"
    ensures name.JNull? ==> r == "None"
  {
    if name.JNull? then "None" else PyStr(name).value
  }

  /** The sections, in the order they first appear. */
  function SectionNames(fields: seq<Json>): seq<Json>
    requires AllObjects(fields)
  {
    if fields == [] then []
    else
      var names := SectionNames(fields[..|fields| - 1]);
      var s := SectionOf(fields[|fields| - 1]);
      if s in names then names else names + [s]
  }

  /** The fields of one section, in order. */
  function InSection(fields: seq<Json>, name: Json): (r: seq<Json>)
    requires AllObjects(fields)
    ensures AllObjects(r)
  {
    if fields == [] then []
    else
      var last := fields[|fields| - 1];
      InSection(fields[..|fields| - 1], name) + (if SectionOf(last) == name then [last] else [])
  }

  /** The group a section other than "default" becomes; its label is the section itself. */
  function GroupOf(name: Json, layout: seq<Json>): Json
    requires ScalarSection(name)
  {
    Display(["type", "code", "label", "openGroup", "layout"],
      [JStr("GROUP"), JStr("section_" + SectionText(name)), name, JBool(true), JArr(layout)])
  }

  /** What a section contributes: its rows inline for "default", otherwise one group around them. */
  function SectionPart(name: Json, rows: seq<Json>): seq<Json>
    requires ScalarSection(name)
  {
    if name == JStr("default") then rows else [GroupOf(name, rows)]
  }

  /** The parts of the given sections, in order, or the error of the first section's rows. */
  function Grouped(fields: seq<Json>, names: seq<Json>, step: Json): Result<seq<Json>, BuildError>
    requires AllObjects(fields) && forall i :: 0 <= i < |names| ==> ScalarSection(names[i])
  {
    if names == [] then Ok([])
    else
      var name := names[|names| - 1];
      match Grouped(fields, names[..|names| - 1], step)
      case Err(e) => Err(e)
      case Ok(front) =>
        match SectionLayout(InSection(fields, name), step)
        case Err(e) => Err(e)
        case Ok(rows) => Ok(front + SectionPart(name, rows))
  }

  function GroupBySection(options: Json): bool
    requires options.JObj?
  {
    Truthy(GetOr(options, "groupBySection", JBool(false)))
  }

  /**
   * _build_form_layout: with `groupBySection`, the sections in order of
   * first appearance, each laid out as _build_section_layout does; without,
   * the whole list laid out as one section.
   */
  function FormLayout(fields: seq<Json>, options: Json): Result<seq<Json>, BuildError>
    requires AllObjects(fields) && options.JObj?
    requires GroupBySection(options) ==> KeyableSections(fields)
  {
    var step := GetOr(options, "fieldsPerRow", JInt(2));
    if GroupBySection(options) then
      SectionNamesNamed(fields);
      Grouped(fields, SectionNames(fields), step)
    else SectionLayout(fields, step)
  }

  /** The section names are distinct. */
  lemma {:induction false} SectionNamesDistinct(fields: seq<Json>)
    requires AllObjects(fields)
    ensures forall a, b :: 0 <= a < b < |SectionNames(fields)| ==> SectionNames(fields)[a] != SectionNames(fields)[b]
  {
    if fields != [] {
      var init := fields[..|fields| - 1];
      var s := SectionOf(fields[|fields| - 1]);
      SectionNamesDistinct(init);
      var names := SectionNames(init);
      if s !in names {
        var names' := names + [s];
        forall a, b | 0 <= a < b < |names'|
          ensures names'[a] != names'[b]
        {
          assert names'[a] == names[a] && names[a] in names;
          if b < |names| {
            assert names'[b] == names[b];
          } else {
            assert names'[b] == s;
          }
        }
        assert SectionNames(fields) == names';
      }
    }
  }

  /** The section names are exactly the sections the fields name. */
  lemma {:induction false} SectionNamesFacts(fields: seq<Json>)
    requires AllObjects(fields)
    ensures forall x :: x in SectionNames(fields) <==> exists i :: 0 <= i < |fields| && SectionOf(fields[i]) == x
  {
    if fields != [] {
      var init := fields[..|fields| - 1];
      var s := SectionOf(fields[|fields| - 1]);
      SectionNamesFacts(init);
      assert forall i :: 0 <= i < |init| ==> init[i] == fields[i];
      assert forall x :: x in SectionNames(fields) <==> x in SectionNames(init) || x == s;
    }
  }

  lemma SectionNamesNamed(fields: seq<Json>)
    requires KeyableSections(fields)
    ensures forall i :: 0 <= i < |SectionNames(fields)| ==> ScalarSection(SectionNames(fields)[i])
  {
    SectionNamesFacts(fields);
    forall i | 0 <= i < |SectionNames(fields)|
      ensures ScalarSection(SectionNames(fields)[i])
    {
      assert SectionNames(fields)[i] in SectionNames(fields);
    }
  }

  /** A section no field names has no fields. */
  lemma {:induction false} InSectionNone(fields: seq<Json>, name: Json)
    requires AllObjects(fields)
    requires forall i :: 0 <= i < |fields| ==> SectionOf(fields[i]) != name
    ensures InSection(fields, name) == []
  {
    if fields != [] {
      var init := fields[..|fields| - 1];
      assert forall i :: 0 <= i < |init| ==> init[i] == fields[i];
      InSectionNone(init, name);
    }
  }

  lemma InSectionSnoc(fields: seq<Json>, i: nat, name: Json)
    requires AllObjects(fields) && i < |fields|
    ensures InSection(fields[..i + 1], name) ==
      InSection(fields[..i], name) + (if SectionOf(fields[i]) == name then [fields[i]] else [])
  {
    assert fields[..i + 1][..i] == fields[..i];
  }

  lemma SectionNamesSnoc(fields: seq<Json>, i: nat)
    requires AllObjects(fields) && i < |fields|
    ensures SectionNames(fields[..i + 1]) ==
      var names := SectionNames(fields[..i]);
      if SectionOf(fields[i]) in names then names else names + [SectionOf(fields[i])]
  {
    assert fields[..i + 1][..i] == fields[..i];
  }

  /** The `sections` dict, as its entries in insertion order: each section with its fields. */
  function SectionsOf(fields: seq<Json>): (r: seq<(Json, seq<Json>)>)
    requires AllObjects(fields)
    ensures |r| == |SectionNames(fields)|
  {
    var names := SectionNames(fields);
    seq(|names|, j requires 0 <= j < |names| => (names[j], InSection(fields, names[j])))
  }

  /** The position of a section's entry, if it has one. */
  function FindSection(sections: seq<(Json, seq<Json>)>, name: Json): (r: Option<nat>)
    ensures r.Some? ==> r.value < |sections| && sections[r.value].0 == name
    ensures r.None? ==> forall j :: 0 <= j < |sections| ==> sections[j].0 != name
  {
    if sections == [] then None
    else if sections[0].0 == name then Some(0)
    else
      match FindSection(sections[1..], name)
      case None => None
      case Some(j) => Some(j + 1)
  }

  /** Every entry but the one for the field's own section is unchanged by that field. */
  lemma SectionsOther(fields: seq<Json>, i: nat, k: nat)
    requires AllObjects(fields) && i < |fields|
    requires k < |SectionNames(fields[..i])| && k < |SectionNames(fields[..i + 1])|
    requires SectionNames(fields[..i + 1])[k] == SectionNames(fields[..i])[k]
    requires SectionNames(fields[..i])[k] != SectionOf(fields[i])
    ensures SectionsOf(fields[..i + 1])[k] == SectionsOf(fields[..i])[k]
  {
    var n := SectionNames(fields[..i])[k];
    InSectionSnoc(fields, i, n);
    AppendEmpty(InSection(fields[..i], n));
    assert SectionsOf(fields[..i])[k] == (n, InSection(fields[..i], n));
    assert SectionsOf(fields[..i + 1])[k] == (n, InSection(fields[..i + 1], n));
  }

  /** A field whose section has no entry yet opens a new one. */
  lemma SectionsStepNew(fields: seq<Json>, i: nat)
    requires AllObjects(fields) && i < |fields|
    requires FindSection(SectionsOf(fields[..i]), SectionOf(fields[i])).None?
    ensures SectionsOf(fields[..i + 1]) ==
      SectionsOf(fields[..i]) + [(SectionOf(fields[i]), [fields[i]])]
  {
    var prefix := fields[..i];
    var before := SectionsOf(prefix);
    var names := SectionNames(prefix);
    var s := SectionOf(fields[i]);
    var after := SectionsOf(fields[..i + 1]);
    assert s !in names by {
      forall j | 0 <= j < |names|
        ensures names[j] != s
      {
        assert before[j].0 == names[j];
      }
    }
    SectionNamesSnoc(fields, i);
    SectionNamesFacts(prefix);
    assert forall k :: 0 <= k < |prefix| ==> prefix[k] == fields[k] && SectionOf(prefix[k]) != s;
    InSectionNone(prefix, s);
    InSectionSnoc(fields, i, s);
    EmptyAppend([fields[i]]);
    forall k | 0 <= k < |names|
      ensures after[k] == before[k]
    {
      SectionsOther(fields, i, k);
    }
    assert |after| == |names| + 1;
    assert after[|names|] == (s, InSection(fields[..i + 1], s));
    assert after[|names|] == (s, [fields[i]]);
    assert after == before + [(s, [fields[i]])];
  }

  /** A field whose section has an entry is appended to that entry. */
  lemma SectionsStepOld(fields: seq<Json>, i: nat, j: nat)
    requires AllObjects(fields) && i < |fields|
    requires FindSection(SectionsOf(fields[..i]), SectionOf(fields[i])) == Some(j)
    ensures SectionsOf(fields[..i + 1]) ==
      SectionsOf(fields[..i])[j := (SectionOf(fields[i]), SectionsOf(fields[..i])[j].1 + [fields[i]])]
  {
    var prefix := fields[..i];
    var before := SectionsOf(prefix);
    var names := SectionNames(prefix);
    var s := SectionOf(fields[i]);
    var after := SectionsOf(fields[..i + 1]);
    assert names[j] == s;
    SectionNamesSnoc(fields, i);
    SectionNamesDistinct(prefix);
    InSectionSnoc(fields, i, s);
    forall k | 0 <= k < |names| && k != j
      ensures after[k] == before[k]
    {
      SectionsOther(fields, i, k);
    }
  }

  /** The first loop of _build_form_layout: the fields grouped by section. */
  method GroupSections(fields: seq<Json>) returns (sections: seq<(Json, seq<Json>)>)
    requires AllObjects(fields)
    ensures sections == SectionsOf(fields)
  {
    sections := [];
    for i := 0 to |fields|
      invariant sections == SectionsOf(fields[..i])
    {
      var section := SectionOf(fields[i]);
      match FindSection(sections, section)
      case None =>
        SectionsStepNew(fields, i);
        sections := sections + [(section, [fields[i]])];
      case Some(j) =>
        SectionsStepOld(fields, i, j);
        sections := sections[j := (section, sections[j].1 + [fields[i]])];
    }
    assert fields[..|fields|] == fields;
  }

  /** With a step that is not a positive or negative integer, the first section already fails. */
  lemma {:induction false} GroupedErr(fields: seq<Json>, names: seq<Json>, step: Json)
    requires AllObjects(fields) && forall i :: 0 <= i < |names| ==> ScalarSection(names[i])
    requires names != [] && (RangeStep(step).None? || RangeStep(step) == Some(0))
    ensures Grouped(fields, names, step) == SectionLayout([], step)
  {
    var init := names[..|names| - 1];
    if init != [] {
      GroupedErr(fields, init, step);
    }
  }

  /** _build_form_layout, with its two loops: grouping by section, then laying each section out. */
  method BuildFormLayout(fields: seq<Json>, options: Json) returns (r: Result<seq<Json>, BuildError>)
    requires AllObjects(fields) && options.JObj?
    requires GroupBySection(options) ==> KeyableSections(fields)
    ensures r == FormLayout(fields, options)
  {
    var groupBySection := GetOr(options, "groupBySection", JBool(false));
    var fieldsPerRow := GetOr(options, "fieldsPerRow", JInt(2));
    var sub := Display(["fieldsPerRow"], [fieldsPerRow]);
    DisplayAt(["fieldsPerRow"], [fieldsPerRow], 0);
    if !Truthy(groupBySection) {
      r := BuildSectionLayout(fields, sub);
      return;
    }
    var sections := GroupSections(fields);
    SectionNamesNamed(fields);
    ghost var names := SectionNames(fields);
    var layout := [];
    for i := 0 to |sections|
      invariant Grouped(fields, names[..i], fieldsPerRow) == Ok(layout)
    {
      var name := sections[i].0;
      var part := BuildSectionLayout(sections[i].1, sub);
      GroupedStep(fields, names, i, fieldsPerRow, layout);
      if part.Err? {
        GroupedErr(fields, names, fieldsPerRow);
        return Err(part.error);
      }
      if name != JStr("default") {
        layout := layout + [GroupOf(name, part.value)];
      } else {
        layout := layout + part.value;
      }
    }
    assert names[..|names|] == names;
    r := Ok(layout);
  }

  /** One more section extends the grouped layout by its part, or fails with its rows' error. */
  lemma GroupedStep(fields: seq<Json>, names: seq<Json>, i: nat, step: Json, layout: seq<Json>)
    requires AllObjects(fields) && forall k :: 0 <= k < |names| ==> ScalarSection(names[k])
    requires i < |names| && Grouped(fields, names[..i], step) == Ok(layout)
    ensures Grouped(fields, names[..i + 1], step) ==
      match SectionLayout(InSection(fields, names[i]), step)
      case Err(e) => Err(e)
      case Ok(rows) => Ok(layout + SectionPart(names[i], rows))
  {
    assert names[..i + 1][..i] == names[..i];
  }

  /** A section's list holds exactly the fields that name that section. */
  lemma {:induction false} InSectionFacts(fields: seq<Json>, name: Json)
    requires AllObjects(fields)
    ensures forall j :: 0 <= j < |InSection(fields, name)| ==> SectionOf(InSection(fields, name)[j]) == name
    ensures forall i :: 0 <= i < |fields| && SectionOf(fields[i]) == name ==> fields[i] in InSection(fields, name)
  {
    if fields != [] {
      var init := fields[..|fields| - 1];
      var last := fields[|fields| - 1];
      InSectionFacts(init, name);
      var tail := if SectionOf(last) == name then [last] else [];
      assert InSection(fields, name) == InSection(init, name) + tail;
      forall i | 0 <= i < |fields| && SectionOf(fields[i]) == name
        ensures fields[i] in InSection(fields, name)
      {
        if i < |init| {
          assert fields[i] == init[i];
        } else {
          assert fields[i] in tail;
        }
      }
    }
  }

  /** The number of fields the given sections hold together. */
  function SizeSum(fields: seq<Json>, names: seq<Json>): nat
    requires AllObjects(fields)
  {
    if names == [] then 0
    else SizeSum(fields, names[..|names| - 1]) + |InSection(fields, names[|names| - 1])|
  }

  /** How often `x` occurs in `names`. */
  function Occ(names: seq<Json>, x: Json): nat
  {
    if names == [] then 0
    else Occ(names[..|names| - 1], x) + (if names[|names| - 1] == x then 1 else 0)
  }

  /** In a list without repeats, an element occurs once or not at all. */
  lemma {:induction false} OccDistinct(names: seq<Json>, x: Json)
    requires forall a, b :: 0 <= a < b < |names| ==> names[a] != names[b]
    ensures Occ(names, x) == if x in names then 1 else 0
  {
    if names != [] {
      var init := names[..|names| - 1];
      OccDistinct(init, x);
      assert names == init + [names[|names| - 1]];
      if names[|names| - 1] == x {
        assert x !in init by {
          forall a | 0 <= a < |init|
            ensures init[a] != x
          {
            assert init[a] == names[a];
          }
        }
      }
    }
  }

  /** The last field adds one to each section it names, once per occurrence. */
  lemma {:induction false} SizeSumSnoc(fields: seq<Json>, names: seq<Json>)
    requires AllObjects(fields) && fields != []
    ensures SizeSum(fields, names) ==
      SizeSum(fields[..|fields| - 1], names) + Occ(names, SectionOf(fields[|fields| - 1]))
  {
    if names != [] {
      SizeSumSnoc(fields, names[..|names| - 1]);
    }
  }

  lemma SizeSumNew(fields: seq<Json>, names: seq<Json>, s: Json)
    requires AllObjects(fields)
    ensures SizeSum(fields, names + [s]) == SizeSum(fields, names) + |InSection(fields, s)|
  {
    assert (names + [s])[..|names|] == names;
  }

  /** Grouping by section loses and duplicates no field: the sections hold all of them. */
  lemma {:induction false} SectionsPartition(fields: seq<Json>)
    requires AllObjects(fields)
    ensures SizeSum(fields, SectionNames(fields)) == |fields|
  {
    if fields != [] {
      var init := fields[..|fields| - 1];
      var s := SectionOf(fields[|fields| - 1]);
      var names0 := SectionNames(init);
      var names := SectionNames(fields);
      SectionsPartition(init);
      SizeSumSnoc(fields, names);
      SectionNamesDistinct(fields);
      OccDistinct(names, s);
      if s !in names0 {
        SectionNamesFacts(init);
        InSectionNone(init, s);
        SizeSumNew(init, names0, s);
      }
    }
  }

  /** The FIELD entries of the given sections, one section after another. */
  function GroupedEntries(fields: seq<Json>, names: seq<Json>): (r: seq<Json>)
    requires AllObjects(fields)
    ensures |r| == SizeSum(fields, names)
  {
    if names == [] then []
    else GroupedEntries(fields, names[..|names| - 1]) + SectionEntries(InSection(fields, names[|names| - 1]))
  }

  lemma GroupOfFacts(name: Json, rows: seq<Json>)
    requires Tree(rows) && ScalarSection(name)
    ensures Node(GroupOf(name, rows)) && IsType(GroupOf(name, rows), "GROUP") && !IsType(GroupOf(name, rows), "ROW")
    ensures Get(GroupOf(name, rows), "code") == JStr("section_" + SectionText(name))
    ensures Get(GroupOf(name, rows), "label") == name
    ensures NodeEntries(GroupOf(name, rows)) == FieldEntries(rows)
  {
    var keys := ["type", "code", "label", "openGroup", "layout"];
    var values := [JStr("GROUP"), JStr("section_" + SectionText(name)), name, JBool(true), JArr(rows)];
    assert Distinct(keys);
    DisplayAt(keys, values, 0);
    DisplayAt(keys, values, 1);
    DisplayAt(keys, values, 2);
    DisplayAt(keys, values, 4);
  }

  /** A single group contributes the FIELD entries of its rows. */
  lemma GroupPartEntries(name: Json, rows: seq<Json>)
    requires Tree(rows) && ScalarSection(name)
    ensures Tree([GroupOf(name, rows)]) && FieldEntries([GroupOf(name, rows)]) == FieldEntries(rows)
  {
    GroupOfFacts(name, rows);
    var g := [GroupOf(name, rows)];
    assert g[..0] == [];
    EmptyAppend(FieldEntries(rows));
  }

  /** With a positive step, the grouped layout holds the FIELD entries of each section in turn. */
  lemma {:induction false} GroupedContents(fields: seq<Json>, names: seq<Json>, step: Json)
    requires AllObjects(fields) && forall i :: 0 <= i < |names| ==> ScalarSection(names[i])
    requires RangeStep(step).Some? && RangeStep(step).value > 0
    ensures Grouped(fields, names, step).Ok?
    ensures Tree(Grouped(fields, names, step).value)
    ensures FieldEntries(Grouped(fields, names, step).value) == GroupedEntries(fields, names)
  {
    if names != [] {
      var init := names[..|names| - 1];
      var name := names[|names| - 1];
      GroupedContents(fields, init, step);
      var front := Grouped(fields, init, step).value;
      SectionShape(InSection(fields, name), step);
      var rows := SectionLayout(InSection(fields, name), step).value;
      if name == JStr("default") {
        FieldEntriesAppend(front, rows);
      } else {
        GroupPartEntries(name, rows);
        FieldEntriesAppend(front, [GroupOf(name, rows)]);
      }
    }
  }

  /**
   * _build_form_layout with a positive `fieldsPerRow`: it succeeds, and its
   * layout carries one FIELD entry per field, in field order when not
   * grouping and section by section when grouping.
   */
  lemma FormShape(fields: seq<Json>, options: Json)
    requires AllObjects(fields) && options.JObj?
    requires GroupBySection(options) ==> KeyableSections(fields)
    requires var step := GetOr(options, "fieldsPerRow", JInt(2)); RangeStep(step).Some? && RangeStep(step).value > 0
    ensures FormLayout(fields, options).Ok? && Tree(FormLayout(fields, options).value)
    ensures |FieldEntries(FormLayout(fields, options).value)| == |fields|
    ensures !GroupBySection(options) ==> FieldEntries(FormLayout(fields, options).value) == SectionEntries(fields)
    ensures GroupBySection(options) ==>
      FieldEntries(FormLayout(fields, options).value) == GroupedEntries(fields, SectionNames(fields))
  {
    var step := GetOr(options, "fieldsPerRow", JInt(2));
    if GroupBySection(options) {
      SectionNamesNamed(fields);
      GroupedContents(fields, SectionNames(fields), step);
      SectionsPartition(fields);
    } else {
      SectionShape(fields, step);
    }
  }
}
