/**
 * `KintoneDataConverter` and the converter dispatch of `parse_response`
 * (repositories/nodejs_wrapper_interface.py): they reshape kintone API
 * responses into the keyword arguments of the record and app models.
 * A Python exception raised by a value of the wrong shape (`.get` on a
 * non-dict, `int()` of a non-number) is an `Err`.
 */
module Converters {
  import opened Wrappers
  import opened Json
  import Text
  import Record

  /** The exceptions a response of the wrong shape raises. */
  datatype ConvertError =
    | RecordNotObject
    | SystemEntryNotObject(code: string)
    | NotAnInteger(key: string)
    | FieldNotObject(code: string)
    | NotIterable
    | AppDataNotObject

  /** `field_data.get('value')` for each field, as `_convert_fields` stores it. */
  function ValuesOf(m: Members): (r: Members)
    requires forall i :: 0 <= i < |m| ==> m[i].1.JObj?
    ensures |r| == |m| && forall i :: 0 <= i < |m| ==> r[i] == (m[i].0, GetOr(m[i].1, "value", JNull))
  {
    if m == [] then [] else [(m[0].0, GetOr(m[0].1, "value", JNull))] + ValuesOf(m[1..])
  }

  /**
   * `_convert_fields` as a function of the entries: each non-system code,
   * in order, mapped to its entry's `value`; an entry that is not a dict
   * raises.
   */
  function ConvertedFields(m: Members): (r: Result<Members, ConvertError>)
  {
    if m == [] then Ok([])
    else
      var last := m[|m| - 1];
      match ConvertedFields(m[..|m| - 1])
      case Err(e) => Err(e)
      case Ok(acc) =>
        if Record.IsSystemCode(last.0) then Ok(acc)
        else if !last.1.JObj? then Err(FieldNotObject(last.0))
        else Ok(Put(acc, last.0, GetOr(last.1, "value", JNull)))
  }

  /**
   * `_convert_fields`: a loop that copies the `value` of every field whose
   * code does not start with `$` into a new dict.
   */
  method ConvertFields(record: Members) returns (r: Result<Members, ConvertError>)
    ensures r == ConvertedFields(record)
  {
    var fields: Members := [];
    var i := 0;
    while i < |record|
      invariant 0 <= i <= |record|
      invariant ConvertedFields(record[..i]) == Ok(fields)
    {
      var (code, data) := record[i];
      assert record[..i + 1][..i] == record[..i];
      if !Record.IsSystemCode(code) {
        if !data.JObj? {
          ErrStays(record, i + 1, FieldNotObject(code));
          assert record[..|record|] == record;
          return Err(FieldNotObject(code));
        }
        fields := Put(fields, code, GetOr(data, "value", JNull));
      }
      i := i + 1;
    }
    assert record[..|record|] == record;
    return Ok(fields);
  }

  /** Once the conversion of a prefix has failed, the whole conversion fails the same way. */
  lemma {:induction false} ErrStays(m: Members, k: nat, e: ConvertError)
    requires k <= |m| && ConvertedFields(m[..k]) == Err(e)
    ensures ConvertedFields(m) == Err(e)
    decreases |m| - k
  {
    if k < |m| {
      assert m[..k + 1][..k] == m[..k];
      ErrStays(m, k + 1, e);
    } else {
      assert m[..k] == m;
    }
  }

  /**
   * `_convert_fields` succeeds exactly when every entry whose code is not a
   * system code is a dict (`.get` on anything else raises).
   */
  lemma {:induction false} ConvertedFieldsSucceed(m: Members)
    ensures ConvertedFields(m).Ok? <==> Convertible(m)
  {
    if m != [] {
      var init := m[..|m| - 1];
      var last := m[|m| - 1];
      ConvertedFieldsSucceed(init);
      assert ConvertedFields(m).Ok? == (ConvertedFields(init).Ok? && (Record.IsSystemCode(last.0) || last.1.JObj?));
      assert m == init + [last];
      ConvertibleSnoc(init, last);
    }
  }

  /** Every entry whose code is not a system code is a dict. */
  predicate Convertible(m: Members)
  {
    forall i :: 0 <= i < |m| && !Record.IsSystemCode(m[i].0) ==> m[i].1.JObj?
  }

  lemma ConvertibleSnoc(m: Members, e: (string, Json))
    ensures Convertible(m + [e]) <==> Convertible(m) && (Record.IsSystemCode(e.0) || e.1.JObj?)
  {
    assert forall i :: 0 <= i < |m| ==> (m + [e])[i] == m[i];
    assert (m + [e])[|m|] == e;
  }

  /**
   * For a dict (distinct codes), what `_convert_fields` gives is what
   * `to_update_format` keeps, each entry replaced by its `value`.
   */
  lemma {:induction false} ConvertedFieldsValues(m: Members)
    requires DistinctKeys(m) && ConvertedFields(m).Ok?
    ensures ObjectsOnly(Record.UpdateFormat(m)) && ConvertedFields(m).value == ValuesOf(Record.UpdateFormat(m))
  {
    if m != [] {
      var init := m[..|m| - 1];
      var last := m[|m| - 1];
      assert DistinctKeys(init);
      ConvertedFieldsValues(init);
      if !Record.IsSystemCode(last.0) {
        ValuesAppended(m);
      } else {
        assert Record.UpdateFormat(m) == Record.UpdateFormat(init);
      }
    }
  }

  /** The step of `ConvertedFieldsValues` for a last entry that is converted. */
  lemma ValuesAppended(m: Members)
    requires DistinctKeys(m) && m != [] && !Record.IsSystemCode(m[|m| - 1].0)
    requires ConvertedFields(m).Ok?
    requires ConvertedFields(m[..|m| - 1]).Ok?
    requires ObjectsOnly(Record.UpdateFormat(m[..|m| - 1]))
    requires ConvertedFields(m[..|m| - 1]).value == ValuesOf(Record.UpdateFormat(m[..|m| - 1]))
    ensures ObjectsOnly(Record.UpdateFormat(m)) && ConvertedFields(m).value == ValuesOf(Record.UpdateFormat(m))
  {
    var last := m[|m| - 1];
    var u := Record.UpdateFormat(m[..|m| - 1]);
    var acc := ConvertedFields(m[..|m| - 1]).value;
    assert last.1.JObj?;
    FreshLastCode(m);
    assert ConvertedFields(m).value == acc + [(last.0, GetOr(last.1, "value", JNull))];
    assert Record.UpdateFormat(m) == u + [last];
    ValuesOfSnoc(u, last);
  }

  lemma ValuesOfSnoc(u: Members, e: (string, Json))
    requires ObjectsOnly(u) && e.1.JObj?
    ensures ObjectsOnly(u + [e]) && ValuesOf(u + [e]) == ValuesOf(u) + [(e.0, GetOr(e.1, "value", JNull))]
  {
    var w := u + [e];
    assert forall i :: 0 <= i < |u| ==> w[i] == u[i];
    assert ObjectsOnly(w);
    var l := ValuesOf(w);
    var r := ValuesOf(u) + [(e.0, GetOr(e.1, "value", JNull))];
    assert |l| == |r|;
    forall i | 0 <= i < |l| ensures l[i] == r[i] {
      if i < |u| {
        assert w[i] == u[i];
      }
    }
  }

  /** The last code of a dict is not yet among the converted fields of the entries before it. */
  lemma FreshLastCode(m: Members)
    requires DistinctKeys(m) && m != [] && !Record.IsSystemCode(m[|m| - 1].0)
    requires ConvertedFields(m[..|m| - 1]).Ok?
    requires ObjectsOnly(Record.UpdateFormat(m[..|m| - 1]))
    requires ConvertedFields(m[..|m| - 1]).value == ValuesOf(Record.UpdateFormat(m[..|m| - 1]))
    ensures IndexOf(ConvertedFields(m[..|m| - 1]).value, m[|m| - 1].0).None?
  {
    var i := |m| - 1;
    var u := Record.UpdateFormat(m[..i]);
    var acc := ConvertedFields(m[..i]).value;
    Record.NotYetCopied(m, i);
    assert |Keys(Put(u, m[i].0, m[i].1))| == |u| + 1;
    assert !HasKey(u, m[i].0);
    forall j | 0 <= j < |acc| ensures acc[j].0 != m[i].0 {
      assert acc[j].0 == u[j].0;
    }
  }

  /** Every entry is a dict. */
  predicate ObjectsOnly(m: Members)
  {
    forall i :: 0 <= i < |m| ==> m[i].1.JObj?
  }

  /** `int(record_data.get(code, {}).get('value', 0))`. */
  function SystemNumber(record: Json, code: string): (r: Result<int, ConvertError>)
    requires record.JObj?
    ensures !Has(record, code) ==> r == Ok(0)
  {
    var entry := GetOr(record, code, JObj([]));
    if !entry.JObj? then Err(SystemEntryNotObject(code))
    else
      match PyInt(GetOr(entry, "value", JInt(0)))
      case None => Err(NotAnInteger(code))
      case Some(n) => Ok(n)
  }

  /** The keyword arguments of one record. */
  function RecordArgs(recordId: int, revision: int, fields: Members): Json
  {
    JObj([("record_id", JInt(recordId)), ("revision", JInt(revision)), ("fields", JObj(fields))])
  }

  /** `convert_kintone_record` for `{'record': record}`. */
  function ConvertSingle(record: Json): (r: Result<Json, ConvertError>)
  {
    if !record.JObj? then Err(RecordNotObject)
    else
      match (SystemNumber(record, "$id"), SystemNumber(record, "$revision"), ConvertedFields(record.members))
      case (Err(e), _, _) => Err(e)
      case (Ok(_), Err(e), _) => Err(e)
      case (Ok(_), Ok(_), Err(e)) => Err(e)
      case (Ok(id), Ok(rev), Ok(fields)) => Ok(RecordArgs(id, rev, fields))
  }

  /**
   * `convert_kintone_record`: a `record` is converted; otherwise the first
   * of a non-empty `records` list is; otherwise the result is `{}`.
   */
  function ConvertKintoneRecord(response: Json): (r: Result<Json, ConvertError>)
    requires response.JObj?
    ensures Has(response, "record") ==> r == ConvertSingle(Get(response, "record"))
    ensures !Has(response, "record") && Has(response, "records") && Get(response, "records").JArr? && Get(response, "records").items != [] ==>
      r == ConvertSingle(Get(response, "records").items[0])
    ensures !Has(response, "record") && (!Has(response, "records") || !Truthy(Get(response, "records"))) ==> r == Ok(JObj([]))
  {
    if Has(response, "record") then ConvertSingle(Get(response, "record"))
    else if Has(response, "records") then
      var records := Get(response, "records");
      if !Truthy(records) then Ok(JObj([]))
      else if records.JArr? then ConvertSingle(records.items[0])
      else Err(RecordNotObject)
    else Ok(JObj([]))
  }

  /** A record without system fields converts with ids 0 and its fields' values. */
  lemma ConvertSingleDefaults(record: Json)
    requires record.JObj? && DistinctKeys(record.members)
    requires forall i :: 0 <= i < |record.members| ==> !Record.IsSystemCode(record.members[i].0) && record.members[i].1.JObj?
    ensures ConvertSingle(record) == Ok(RecordArgs(0, 0, ValuesOf(record.members)))
  {
    var m := record.members;
    assert !Has(record, "$id") && !Has(record, "$revision") by {
      assert forall i :: 0 <= i < |m| ==> m[i].0 != "$id" && m[i].0 != "$revision";
    }
    ConvertedFieldsSucceed(m);
    ConvertedFieldsValues(m);
    UpdateFormatWhole(m);
  }

  lemma {:induction false} UpdateFormatWhole(m: Members)
    requires forall i :: 0 <= i < |m| ==> !Record.IsSystemCode(m[i].0)
    ensures Record.UpdateFormat(m) == m
  {
    if m != [] {
      UpdateFormatWhole(m[..|m| - 1]);
      assert m[..|m| - 1] + [m[|m| - 1]] == m;
    }
  }

  /** What `for x in v` goes over: a list's items, a string's characters, a dict's keys. */
  function Iterated(v: Json): (r: Option<seq<Json>>)
    ensures v.JArr? ==> r == Some(v.items)
  {
    match v
    case JArr(items) => Some(items)
    case JStr(s) => Some(seq(|s|, i requires 0 <= i < |s| => JStr([s[i]])))
    case JObj(m) => Some(seq(|m|, i requires 0 <= i < |m| => JStr(m[i].0)))
    case _ => None
  }

  /** Each element converted in turn; the first failure is the result. */
  function ConvertEach(records: seq<Json>): (r: Result<seq<Json>, ConvertError>)
    ensures r.Ok? ==> |r.value| == |records| && forall i :: 0 <= i < |records| ==> ConvertSingle(records[i]) == Ok(r.value[i])
    ensures r.Ok? <==> forall i :: 0 <= i < |records| ==> ConvertSingle(records[i]).Ok?
  {
    if records == [] then Ok([])
    else
      match (ConvertSingle(records[0]), ConvertEach(records[1..]))
      case (Err(e), _) => Err(e)
      case (Ok(_), Err(e)) => Err(e)
      case (Ok(x), Ok(rest)) => Ok([x] + rest)
  }

  /** `convert_kintone_records`: one converted record per element of `records`; none when the key is absent. */
  function ConvertKintoneRecords(response: Json): (r: Result<seq<Json>, ConvertError>)
    requires response.JObj?
    ensures !Has(response, "records") ==> r == Ok([])
    ensures Has(response, "records") && Get(response, "records").JArr? ==> r == ConvertEach(Get(response, "records").items)
  {
    if Has(response, "records") then
      match Iterated(Get(response, "records"))
      case None => Err(NotIterable)
      case Some(items) => ConvertEach(items)
    else Ok([])
  }

  /** With only a `records` list, the single-record converter returns the first of what the list converter returns. */
  lemma SingleIsFirstOfMany(response: Json)
    requires response.JObj? && !Has(response, "record") && Has(response, "records")
    requires Get(response, "records").JArr? && Get(response, "records").items != []
    requires ConvertKintoneRecords(response).Ok?
    ensures ConvertKintoneRecord(response) == Ok(ConvertKintoneRecords(response).value[0])
  {
  }

  /** `convert_app_info`: the app model's arguments; only `int()` of the id can fail. */
  function ConvertAppInfo(app: Json): (r: Result<Json, ConvertError>)
    ensures !app.JObj? ==> r == Err(AppDataNotObject)
    ensures app.JObj? ==> (r.Ok? <==> PyInt(GetOr(app, "appId", JInt(0))).Some?)
    ensures r.Ok? ==> r.value.JObj? && |r.value.members| == |AppArgKeys|
  {
    if !app.JObj? then Err(AppDataNotObject)
    else
      match PyInt(GetOr(app, "appId", JInt(0)))
      case None => Err(NotAnInteger("appId"))
      case Some(id) => Ok(JObj(AppArgs(id, app)))
  }

  /** The dict `convert_app_info` builds once the id is known, each key with its default. */
  function AppArgs(id: int, app: Json): (m: Members)
    requires app.JObj?
    ensures |m| == |AppArgKeys| && forall i :: 0 <= i < |m| ==> m[i].0 == AppArgKeys[i]
  {
    var values := [
      JInt(id),
      GetOr(app, "code", JStr("")),
      GetOr(app, "name", JStr("")),
      GetOr(app, "description", JStr("")),
      GetOr(app, "spaceId", JNull),
      GetOr(app, "threadId", JNull),
      GetOr(app, "createdAt", JNull),
      GetOr(app, "creator", JObj([])),
      GetOr(app, "modifiedAt", JNull),
      GetOr(app, "modifier", JObj([]))
    ];
    Zip(AppArgKeys, values)
  }

  /** The dict with `keys[i]` mapped to `values[i]`. */
  function Zip(keys: seq<string>, values: seq<Json>): (m: Members)
    requires |keys| == |values|
    ensures |m| == |keys| && forall i :: 0 <= i < |m| ==> m[i] == (keys[i], values[i])
  {
    seq(|keys|, i requires 0 <= i < |keys| => (keys[i], values[i]))
  }

  /** The keys `convert_app_info` writes. */
  const AppArgKeys: seq<string> := ["app_id", "code", "name", "description", "space_id", "thread_id", "created_at", "creator", "modified_at", "modifier"]

  lemma AppArgsDistinct(id: int, app: Json)
    requires app.JObj?
    ensures DistinctKeys(AppArgs(id, app))
  {
    AppArgKeysDistinct();
  }

  lemma AppArgKeysDistinct()
    ensures Distinct(AppArgKeys)
  {
    var ks := AppArgKeys;
    var lengths := seq(10, i requires 0 <= i < 10 => |ks[i]|);
    assert lengths == [6, 4, 4, 11, 8, 9, 10, 7, 11, 8];
    assert ks[1][0] != ks[2][0] && ks[3][0] != ks[8][0] && ks[4][0] != ks[9][0];
    forall a, b | 0 <= a < b < 10 ensures ks[a] != ks[b] {
      if lengths[a] == lengths[b] {
        assert (a, b) in {(1, 2), (3, 8), (4, 9)};
      }
    }
  }

  /** In a dict, each key is found at its own entry. */
  lemma LookupDistinct(m: Members, i: nat)
    requires DistinctKeys(m) && i < |m|
    ensures Lookup(m, m[i].0) == Some(m[i].1)
  {
    IndexOfFirst(m, m[i].0, i);
  }

  /**
   * The arguments of `convert_app_info` form a dict whose `app_id` is
   * `int(appId)`.  The defaults: an app without an id gets 0, one
   * without code, name or description gets "", one without a creator or
   * modifier gets `{}`, and the space id defaults to `None`.
   */
  lemma AppInfoDefaults(app: Json)
    requires app.JObj? && ConvertAppInfo(app).Ok?
    ensures DistinctKeys(ConvertAppInfo(app).value.members)
    ensures Get(ConvertAppInfo(app).value, "app_id") == JInt(PyInt(GetOr(app, "appId", JInt(0))).value)
    ensures var a := ConvertAppInfo(app).value;
      && (!Has(app, "appId") ==> Get(a, "app_id") == JInt(0))
      && (!Has(app, "code") ==> Get(a, "code") == JStr(""))
      && (!Has(app, "name") ==> Get(a, "name") == JStr(""))
      && (!Has(app, "description") ==> Get(a, "description") == JStr(""))
      && (!Has(app, "spaceId") ==> Get(a, "space_id") == JNull)
      && (!Has(app, "creator") ==> Get(a, "creator") == JObj([]))
      && (!Has(app, "modifier") ==> Get(a, "modifier") == JObj([]))
  {
    var id := PyInt(GetOr(app, "appId", JInt(0))).value;
    var m := AppArgs(id, app);
    assert ConvertAppInfo(app).value.members == m;
    AppArgsDistinct(id, app);
    LookupDistinct(m, 0);
    LookupDistinct(m, 1);
    LookupDistinct(m, 2);
    LookupDistinct(m, 3);
    LookupDistinct(m, 4);
    LookupDistinct(m, 7);
    LookupDistinct(m, 9);
  }

  /** `convert_app_list`: one converted app per element, in order. */
  function ConvertAppList(apps: seq<Json>): (r: Result<seq<Json>, ConvertError>)
    ensures r.Ok? <==> forall i :: 0 <= i < |apps| ==> ConvertAppInfo(apps[i]).Ok?
    ensures r.Ok? ==> |r.value| == |apps| && forall i :: 0 <= i < |apps| ==> ConvertAppInfo(apps[i]) == Ok(r.value[i])
  {
    if apps == [] then Ok([])
    else
      var rest := ConvertAppList(apps[1..]);
      assert forall i :: 0 < i < |apps| ==> apps[i] == apps[1..][i - 1];
      match ConvertAppInfo(apps[0])
      case Err(e) => Err(e)
      case Ok(x) => if rest.Err? then Err(rest.error) else Ok([x] + rest.value)
  }

  /** Which converter `parse_response` applies. */
  datatype Converter = RecordConverter | AppConverter | NoConversion

  /** The choice by the model class's name: `Record` is looked for before `App`. */
  function SelectConverter(modelName: string): (c: Converter)
    ensures c == RecordConverter <==> Text.Contains(modelName, "Record")
    ensures c == AppConverter <==> !Text.Contains(modelName, "Record") && Text.Contains(modelName, "App")
  {
    if Text.Contains(modelName, "Record") then RecordConverter
    else if Text.Contains(modelName, "App") then AppConverter
    else NoConversion
  }

  /**
   * `parse_response` up to the model construction: the converted keyword
   * arguments, or the response itself when no converter applies.
   */
  function ParseResponse(response: Json, modelName: string): (r: Result<Json, ConvertError>)
    requires response.JObj?
    ensures SelectConverter(modelName) == RecordConverter ==> r == ConvertKintoneRecord(response)
    ensures SelectConverter(modelName) == AppConverter ==> r == ConvertAppInfo(response)
    ensures SelectConverter(modelName) == NoConversion ==> r == Ok(response)
  {
    match SelectConverter(modelName)
    case RecordConverter => ConvertKintoneRecord(response)
    case AppConverter => ConvertAppInfo(response)
    case NoConversion => Ok(response)
  }

  /** A string shorter than `sub` does not contain it. */
  lemma ShorterHasNone(s: string, sub: string)
    requires |s| < |sub|
    ensures !Text.Contains(s, sub)
  {
    if Text.Contains(s, sub) {
      Text.ContainsLength(s, sub);
    }
  }

  /** A name holding both words, such as `AppRecord`, gets the record converter. */
  lemma RecordWinsOverApp()
    ensures SelectConverter("AppRecord") == RecordConverter
    ensures SelectConverter("AppInfo") == AppConverter
  {
    var s := "AppRecord";
    assert s[3..] == "Record";
    assert Text.Contains(s[3..], "Record");
    assert s[1..][2..] == s[3..] && s[1..][1..] == s[2..];
    var t := "AppInfo";
    assert "App" <= t;
    assert t[0] == 'A' && t[1] == 'p';
    assert !("Record" <= t) && !("Record" <= t[1..]);
    ShorterHasNone(t[2..], "Record");
  }
}
