/**
 * A kintone record (models/kintone_record.py): a dict of field entries,
 * each normally `{"value": ...}`, with system fields under `$`-prefixed
 * codes.  The record object is updated in place by `set_field_value`.
 */
module Record {
  import opened Wrappers
  import opened Json

  /** A code of a system field: `$id`, `$revision`, `$creator`, ... */
  predicate IsSystemCode(code: string)
  {
    |code| > 0 && code[0] == '$'
  }

  /** The entry `set_field_value` stores: `{"value": v}`. */
  function Wrap(v: Json): (r: Json)
    ensures r.JObj? && Truthy(r)
  {
    JObj([("value", v)])
  }

  /**
   * What `get_field_value` makes of a stored entry: a non-empty dict gives
   * its `value` (`None` when it has none); anything else, `{}` included, is
   * returned as it is.
   */
  function Unwrap(d: Json): (r: Json)
    ensures !d.JObj? || d.members == [] ==> r == d
    ensures d.JObj? && d.members != [] ==> r == GetOr(d, "value", JNull)
  {
    if Truthy(d) && d.JObj? then GetOr(d, "value", JNull) else d
  }

  /** Reading an entry written by `set_field_value` gives the value written. */
  lemma UnwrapWrap(v: Json)
    ensures Unwrap(Wrap(v)) == v
  {
    assert IndexOf([("value", v)], "value") == Some(0);
  }

  /** `to_update_format` on the entries: every entry whose code is not a system code, in order. */
  function UpdateFormat(m: Members): (r: Members)
    ensures |r| <= |m|
  {
    if m == [] then []
    else
      var last := m[|m| - 1];
      UpdateFormat(m[..|m| - 1]) + if IsSystemCode(last.0) then [] else [last]
  }

  /** The update format keeps exactly the entries with non-system codes, unchanged. */
  lemma {:induction false} UpdateFormatEntries(m: Members)
    ensures forall e :: e in UpdateFormat(m) <==> e in m && !IsSystemCode(e.0)
  {
    if m != [] {
      var init := m[..|m| - 1];
      UpdateFormatEntries(init);
      assert m == init + [m[|m| - 1]];
    }
  }

  /** Distinct codes stay distinct in the update format. */
  lemma {:induction false} UpdateFormatDistinct(m: Members)
    requires DistinctKeys(m)
    ensures DistinctKeys(UpdateFormat(m))
  {
    if m != [] {
      var init := m[..|m| - 1];
      var last := m[|m| - 1];
      assert DistinctKeys(init);
      UpdateFormatDistinct(init);
      UpdateFormatEntries(init);
      var u := UpdateFormat(init);
      if !IsSystemCode(last.0) {
        forall j | 0 <= j < |u| ensures u[j].0 != last.0 {
          assert u[j] in init;
          var a :| 0 <= a < |init| && init[a] == u[j];
          assert m[a] == init[a];
        }
      }
    }
  }

  /** A dict's entries: no code appears twice. */
  lemma PutDistinct(m: Members, k: string, v: Json)
    requires DistinctKeys(m)
    ensures DistinctKeys(Put(m, k, v))
  {
    var r := Put(m, k, v);
    assert Keys(r) == if HasKey(m, k) then Keys(m) else Keys(m) + [k];
    forall a, b | 0 <= a < b < |r| ensures r[a].0 != r[b].0 {
      assert Keys(r)[a] == r[a].0 && Keys(r)[b] == r[b].0;
      if !HasKey(m, k) && b == |m| {
        assert Keys(m)[a] == m[a].0;
      } else {
        assert Keys(m)[a] == m[a].0 && Keys(m)[b] == m[b].0;
      }
    }
  }

  class KintoneRecord {
    var appId: int
    var recordId: Option<int>
    var fields: Members
    var revision: Option<int>

    /** A Python dict holds each code once. */
    predicate Valid()
      reads this
    {
      DistinctKeys(fields)
    }

    constructor (appId: int, recordId: Option<int>, fields: Members, revision: Option<int>)
      requires DistinctKeys(fields)
      ensures Valid()
      ensures this.appId == appId && this.recordId == recordId && this.fields == fields && this.revision == revision
    {
      this.appId := appId;
      this.recordId := recordId;
      this.fields := fields;
      this.revision := revision;
    }

    /** `get_field_value`: the unwrapped entry for `code`, `None` when there is none. */
    function FieldValue(code: string): (r: Json)
      reads this
      ensures !HasKey(fields, code) ==> r == JNull
      ensures HasKey(fields, code) ==> r == Unwrap(Lookup(fields, code).value)
    {
      match Lookup(fields, code)
      case None => JNull
      case Some(d) => Unwrap(d)
    }

    /** `get_system_field`: a system field is read like any other. */
    function SystemField(name: string): (r: Json)
      reads this
      ensures !HasKey(fields, name) ==> r == JNull
      ensures HasKey(fields, name) ==> r == Unwrap(Lookup(fields, name).value)
    {
      FieldValue(name)
    }

    /** `created_time`. */
    function CreatedTime(): (r: Json)
      reads this
      ensures !HasKey(fields, "$created_time") ==> r == JNull
      ensures HasKey(fields, "$created_time") ==> r == Unwrap(Lookup(fields, "$created_time").value)
    {
      SystemField("$created_time")
    }

    /** `updated_time`. */
    function UpdatedTime(): (r: Json)
      reads this
      ensures !HasKey(fields, "$updated_time") ==> r == JNull
      ensures HasKey(fields, "$updated_time") ==> r == Unwrap(Lookup(fields, "$updated_time").value)
    {
      SystemField("$updated_time")
    }

    /** `creator`. */
    function Creator(): (r: Json)
      reads this
      ensures !HasKey(fields, "$creator") ==> r == JNull
      ensures HasKey(fields, "$creator") ==> r == Unwrap(Lookup(fields, "$creator").value)
    {
      SystemField("$creator")
    }

    /** `modifier`. */
    function Modifier(): (r: Json)
      reads this
      ensures !HasKey(fields, "$modifier") ==> r == JNull
      ensures HasKey(fields, "$modifier") ==> r == Unwrap(Lookup(fields, "$modifier").value)
    {
      SystemField("$modifier")
    }

    /**
     * `set_field_value`: stores `{"value": value}` under `code`, in place of
     * an existing entry or as a new last one; every other entry is kept.
     */
    method SetFieldValue(code: string, value: Json)
      requires Valid()
      modifies this
      ensures Valid()
      ensures fields == Put(old(fields), code, Wrap(value))
      ensures appId == old(appId) && recordId == old(recordId) && revision == old(revision)
      ensures FieldValue(code) == value
      ensures forall c :: c != code ==> FieldValue(c) == old(FieldValue(c))
    {
      PutDistinct(fields, code, Wrap(value));
      fields := Put(fields, code, Wrap(value));
      UnwrapWrap(value);
    }

    /**
     * `to_update_format`: copies every entry whose code does not start with
     * `$` into a new dict, leaving the record as it is.
     */
    method ToUpdateFormat() returns (update: Members)
      requires Valid()
      ensures update == UpdateFormat(fields)
    {
      update := [];
      var i := 0;
      while i < |fields|
        invariant 0 <= i <= |fields|
        invariant update == UpdateFormat(fields[..i])
      {
        var (code, data) := fields[i];
        assert fields[..i + 1][..i] == fields[..i];
        if !IsSystemCode(code) {
          NotYetCopied(fields, i);
          update := Put(update, code, data);
        }
        i := i + 1;
      }
      assert fields[..|fields|] == fields;
    }
  }

  /** Before entry `i` is copied, the copy made so far has no entry for its code, so storing it appends it. */
  lemma NotYetCopied(m: Members, i: nat)
    requires DistinctKeys(m) && i < |m|
    ensures Put(UpdateFormat(m[..i]), m[i].0, m[i].1) == UpdateFormat(m[..i]) + [m[i]]
  {
    var u := UpdateFormat(m[..i]);
    UpdateFormatEntries(m[..i]);
    forall j | 0 <= j < |u| ensures u[j].0 != m[i].0 {
      assert u[j] in m[..i];
      var a :| 0 <= a < i && m[..i][a] == u[j];
    }
    assert IndexOf(u, m[i].0).None?;
  }

  /** The accessors read system codes, so the update format never carries what they read. */
  lemma AccessorCodesAreSystemCodes(m: Members)
    ensures forall code :: code in ["$created_time", "$updated_time", "$creator", "$modifier", "$id", "$revision"] ==>
      IsSystemCode(code) && forall e :: e in UpdateFormat(m) ==> e.0 != code
  {
    UpdateFormatEntries(m);
  }
}
