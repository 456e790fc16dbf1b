/**
 * Python values as they arrive decoded from JSON and as the server's helpers
 * build them: `None`, booleans, ints, floats, strings, lists and dicts.
 * A dict keeps its insertion order, as Python 3.7+ dicts do.
 */
module Json {
  import opened Wrappers
  import Text

  type Members = seq<(string, Json)>

  datatype Json =
    | JNull
    | JBool(b: bool)
    | JInt(i: int)
      /** A float, held exactly as the decimal fraction `mant / 10^exp`. */
    | JDec(mant: int, exp: nat)
    | JStr(s: string)
    | JArr(items: seq<Json>)
    | JObj(members: Members)

  /** Python's truth value: `None`, `False`, `0`, `0.0`, `""`, `[]` and `{}` are false. */
  predicate Truthy(j: Json)
  {
    match j
    case JNull => false
    case JBool(b) => b
    case JInt(i) => i != 0
    case JDec(m, _) => m != 0
    case JStr(s) => s != []
    case JArr(a) => a != []
    case JObj(m) => m != []
  }

  /** Position of the entry for `k` in a dict's entries, if there is one. */
  function IndexOf(m: Members, k: string): (r: Option<nat>)
    ensures r.Some? ==> r.value < |m| && m[r.value].0 == k
    ensures r.Some? ==> forall i :: 0 <= i < r.value ==> m[i].0 != k
    ensures r.None? <==> forall i :: 0 <= i < |m| ==> m[i].0 != k
  {
    if |m| == 0 then None
    else if m[0].0 == k then Some(0)
    else
      match IndexOf(m[1..], k)
      case None => None
      case Some(i) => Some(i + 1)
  }

  function Keys(m: Members): (r: seq<string>)
    ensures |r| == |m| && forall i :: 0 <= i < |m| ==> r[i] == m[i].0
  {
    if |m| == 0 then [] else [m[0].0] + Keys(m[1..])
  }

  predicate HasKey(m: Members, k: string)
  {
    IndexOf(m, k).Some?
  }

  /** `d[k]` when present. */
  function Lookup(m: Members, k: string): (r: Option<Json>)
    ensures r.Some? <==> HasKey(m, k)
  {
    match IndexOf(m, k)
    case Some(i) => Some(m[i].1)
    case None => None
  }

  /** The first entry whose key is `k` is the one `IndexOf` finds. */
  lemma IndexOfFirst(m: Members, k: string, i: nat)
    requires i < |m| && m[i].0 == k && forall j :: 0 <= j < i ==> m[j].0 != k
    ensures IndexOf(m, k) == Some(i)
  {
  }

  /**
   * A tool's `arguments` dict, read only by key: `args.get(k)` and
   * `args.get(k, default)`.
   */
  type Args = map<string, Json>

  /** `args.get(k)`. */
  function Arg(args: Args, k: string): (r: Json)
    ensures k !in args ==> r == JNull
  {
    if k in args then args[k] else JNull
  }

  /** `args.get(k, default)`. */
  function ArgOr(args: Args, k: string, default: Json): (r: Json)
    ensures k in args ==> r == args[k]
    ensures k !in args ==> r == default
  {
    if k in args then args[k] else default
  }

  /** `d[k] = v`: an existing key keeps its place, a new key goes last. */
  function Put(m: Members, k: string, v: Json): (r: Members)
    ensures Lookup(r, k) == Some(v)
    ensures forall k' :: k' != k ==> Lookup(r, k') == Lookup(m, k')
    ensures Keys(r) == if HasKey(m, k) then Keys(m) else Keys(m) + [k]
  {
    match IndexOf(m, k)
    case Some(i) =>
      ReplaceFacts(m, k, v, i);
      m[i := (k, v)]
    case None =>
      AppendFacts(m, k, v);
      m + [(k, v)]
  }

  /** `d[k] = v` for each entry in order, starting from the dict `acc`, so a later entry of a key wins. */
  function Assigned(acc: Members, entries: Members): (r: Members)
    decreases |entries|
  {
    if entries == [] then acc else Assigned(Put(acc, entries[0].0, entries[0].1), entries[1..])
  }

  /** Assigning at least one entry leaves a non-empty dict. */
  lemma {:induction false} AssignedNonEmpty(acc: Members, entries: Members)
    requires acc != [] || entries != []
    ensures Assigned(acc, entries) != []
    decreases |entries|
  {
    if entries != [] {
      var next := Put(acc, entries[0].0, entries[0].1);
      assert Lookup(next, entries[0].0).Some?;
      AssignedNonEmpty(next, entries[1..]);
    }
  }

  lemma ReplaceFacts(m: Members, k: string, v: Json, i: nat)
    requires IndexOf(m, k) == Some(i)
    ensures var r := m[i := (k, v)];
      Lookup(r, k) == Some(v) && Keys(r) == Keys(m)
      && forall k' :: k' != k ==> Lookup(r, k') == Lookup(m, k')
  {
    var r := m[i := (k, v)];
    assert Keys(r) == Keys(m);
    IndexOfFirst(r, k, i);
    forall k' | k' != k ensures Lookup(r, k') == Lookup(m, k') {
      if IndexOf(m, k').Some? {
        IndexOfFirst(r, k', IndexOf(m, k').value);
      } else {
        assert forall j :: 0 <= j < |r| ==> r[j].0 != k';
      }
    }
  }

  lemma AppendFacts(m: Members, k: string, v: Json)
    requires IndexOf(m, k).None?
    ensures var r := m + [(k, v)];
      Lookup(r, k) == Some(v) && Keys(r) == Keys(m) + [k]
      && forall k' :: k' != k ==> Lookup(r, k') == Lookup(m, k')
  {
    var r := m + [(k, v)];
    IndexOfFirst(r, k, |m|);
    assert Keys(r) == Keys(m) + [k];
    AppendLookup(m, k, v);
  }

  lemma AppendLookup(m: Members, k: string, v: Json)
    ensures forall k' :: k' != k ==> Lookup(m + [(k, v)], k') == Lookup(m, k')
  {
    var r := m + [(k, v)];
    forall k' | k' != k ensures Lookup(r, k') == Lookup(m, k') {
      if IndexOf(m, k').Some? {
        IndexOfFirst(r, k', IndexOf(m, k').value);
      } else {
        assert forall j :: 0 <= j < |r| ==> r[j].0 != k';
      }
    }
  }

  /** After `d[k] = v` every entry is the new one or an entry `d` already had. */
  lemma PutEntries(m: Members, k: string, v: Json)
    ensures forall e :: e in Put(m, k, v) ==> e == (k, v) || e in m
  {
    var r := Put(m, k, v);
    forall e | e in r ensures e == (k, v) || e in m {
      var j :| 0 <= j < |r| && r[j] == e;
      if j < |m| && r[j] != (k, v) {
        assert r[j] == m[j];
      }
    }
  }

  /** `del d[k]` (or `d.pop(k, None)`): the other entries keep their order. */
  function Remove(m: Members, k: string): (r: Members)
    ensures Lookup(r, k).None?
    ensures forall k' :: k' != k ==> Lookup(r, k') == Lookup(m, k')
    ensures forall p :: p in r <==> p in m && p.0 != k
  {
    if |m| == 0 then []
    else if m[0].0 == k then Remove(m[1..], k)
    else
      var rest := Remove(m[1..], k);
      ConsLookup(m[0], rest);
      [m[0]] + rest
  }

  /** Putting an entry in front changes the lookup of its own key only. */
  lemma ConsLookup(e: (string, Json), rest: Members)
    ensures forall k' :: k' != e.0 ==> Lookup([e] + rest, k') == Lookup(rest, k')
  {
    forall k' | k' != e.0 ensures Lookup([e] + rest, k') == Lookup(rest, k') {
      assert IndexOf([e] + rest, k') == (match IndexOf(rest, k') case None => None case Some(i) => Some(i + 1));
    }
  }

  /** A dict value's entry sits below the dict in the datatype's order, so walkers may recurse into it. */
  lemma LookupBelow(m: Members, k: string)
    ensures Lookup(m, k).Some? ==> Lookup(m, k).value < JObj(m)
  {
    if IndexOf(m, k).Some? {
      var i := IndexOf(m, k).value;
      assert m[i] in m;
    }
  }

  // Python-level views of a dict value.

  /** `d.get(k)`: the stored value, or `None` when `k` is absent. */
  function Get(d: Json, k: string): (r: Json)
    requires d.JObj?
    ensures r < d || r == JNull
    ensures HasKey(d.members, k) ==> r < d
    ensures !HasKey(d.members, k) ==> r == JNull
  {
    LookupBelow(d.members, k);
    Lookup(d.members, k).GetOr(JNull)
  }

  /** `k in d`. */
  predicate Has(d: Json, k: string)
    requires d.JObj?
  {
    HasKey(d.members, k)
  }

  /** `d.get(k, default)`. */
  function GetOr(d: Json, k: string, default: Json): (r: Json)
    requires d.JObj?
    ensures Has(d, k) ==> r == Get(d, k)
    ensures !Has(d, k) ==> r == default
  {
    Lookup(d.members, k).GetOr(default)
  }

  /** A copy of `d` after `d[k] = v`. */
  function Set(d: Json, k: string, v: Json): (r: Json)
    requires d.JObj?
    ensures r.JObj? && Get(r, k) == v && Has(r, k)
    ensures forall k' :: k' != k ==> Get(r, k') == Get(d, k') && (Has(r, k') <==> Has(d, k'))
  {
    JObj(Put(d.members, k, v))
  }

  /** Assigning a key the value it already holds leaves the dict as it was. */
  lemma SetSame(d: Json, k: string)
    requires d.JObj? && Has(d, k)
    ensures Set(d, k, Get(d, k)) == d
  {
    var i := IndexOf(d.members, k).value;
    assert d.members[i := (k, Get(d, k))] == d.members;
  }

  /** Assigning a key twice leaves only the second value, in the place the first put it. */
  lemma SetSet(d: Json, k: string, a: Json, b: Json)
    requires d.JObj?
    ensures Set(Set(d, k, a), k, b) == Set(d, k, b)
  {
    PutPut(d.members, k, a, b);
  }

  lemma PutPut(m: Members, k: string, a: Json, b: Json)
    ensures Put(Put(m, k, a), k, b) == Put(m, k, b)
  {
    match IndexOf(m, k)
    case Some(i) =>
      IndexOfFirst(m[i := (k, a)], k, i);
      UpdateTwice(m, i, (k, a), (k, b));
    case None =>
      IndexOfFirst(m + [(k, a)], k, |m|);
      UpdateLast(m, (k, a), (k, b));
  }

  lemma UpdateTwice<T>(s: seq<T>, i: nat, x: T, y: T)
    requires i < |s|
    ensures s[i := x][i := y] == s[i := y]
  {
  }

  lemma UpdateLast<T>(s: seq<T>, x: T, y: T)
    ensures (s + [x])[|s| := y] == s + [y]
  {
  }

  /** Deleting a key undoes an assignment to it. */
  lemma DelSet(d: Json, k: string, v: Json)
    requires d.JObj?
    ensures Del(Set(d, k, v), k) == Del(d, k)
  {
    var m := d.members;
    match IndexOf(m, k)
    case Some(i) =>
      RemoveReplaced(m, k, v, i);
    case None =>
      RemoveAppended(m, k, v);
  }

  lemma {:induction false} RemoveReplaced(m: Members, k: string, v: Json, i: nat)
    requires i < |m| && m[i].0 == k
    ensures Remove(m[i := (k, v)], k) == Remove(m, k)
    decreases |m|
  {
    if i > 0 {
      assert m[i := (k, v)][1..] == m[1..][i - 1 := (k, v)];
      RemoveReplaced(m[1..], k, v, i - 1);
    } else {
      assert m[i := (k, v)][1..] == m[1..];
    }
  }

  lemma {:induction false} RemoveAppended(m: Members, k: string, v: Json)
    ensures Remove(m + [(k, v)], k) == Remove(m, k)
    decreases |m|
  {
    if m == [] {
      assert Remove([(k, v)], k) == Remove([(k, v)][1..], k);
    } else {
      assert (m + [(k, v)])[1..] == m[1..] + [(k, v)];
      RemoveAppended(m[1..], k, v);
    }
  }

  /** A copy of `d` after `del d[k]`. */
  function Del(d: Json, k: string): (r: Json)
    requires d.JObj?
    ensures r.JObj? && !Has(r, k)
    ensures forall k' :: k' != k ==> Get(r, k') == Get(d, k') && (Has(r, k') <==> Has(d, k'))
  {
    JObj(Remove(d.members, k))
  }

  /** Every item of a list is a dict, so the helpers may call `.get` on each. */
  predicate AllObjects(items: seq<Json>)
  {
    forall i :: 0 <= i < |items| ==> items[i].JObj?
  }

  /** `d.get(k) == "<s>"`, the comparison the helpers use to dispatch on a type tag. */
  predicate IsStr(d: Json, k: string, s: string)
    requires d.JObj?
  {
    Get(d, k) == JStr(s)
  }

  /** A dict built from its entries, as a Python dict display. */
  function Obj(entries: Members): Json
  {
    JObj(entries)
  }

  /** No key appears twice, as in every dict. */
  predicate DistinctKeys(m: Members)
  {
    forall a, b :: 0 <= a < b < |m| ==> m[a].0 != m[b].0
  }

  predicate Distinct(keys: seq<string>)
  {
    forall a, b :: 0 <= a < b < |keys| ==> keys[a] != keys[b]
  }

  /** The dict display `{keys[0]: values[0], ...}`. */
  function Display(keys: seq<string>, values: seq<Json>): (r: Json)
    requires |keys| == |values|
    ensures r.JObj? && |r.members| == |keys|
    ensures forall i :: 0 <= i < |keys| ==> r.members[i] == (keys[i], values[i])
  {
    JObj(seq(|keys|, i requires 0 <= i < |keys| => (keys[i], values[i])))
  }

  /** In a display with distinct keys, `keys[i]` holds `values[i]`. */
  lemma DisplayAt(keys: seq<string>, values: seq<Json>, i: nat)
    requires |keys| == |values| && Distinct(keys) && i < |keys|
    ensures Has(Display(keys, values), keys[i]) && Get(Display(keys, values), keys[i]) == values[i]
  {
    IndexOfFirst(Display(keys, values).members, keys[i], i);
  }

  /** A display has no key but its own. */
  lemma DisplayKeys(keys: seq<string>, values: seq<Json>, k: string)
    requires |keys| == |values| && forall i :: 0 <= i < |keys| ==> keys[i] != k
    ensures !Has(Display(keys, values), k) && Get(Display(keys, values), k) == JNull
  {
  }

  lemma {:induction false} KeysDistinctAfterPut(m: Members, k: string, v: Json)
    requires forall i, j :: 0 <= i < j < |m| ==> m[i].0 != m[j].0
    ensures var r := Put(m, k, v); forall i, j :: 0 <= i < j < |r| ==> r[i].0 != r[j].0
  {
    var r := Put(m, k, v);
    forall i, j | 0 <= i < j < |r| ensures r[i].0 != r[j].0 {
      if IndexOf(m, k).None? && j == |m| {
        assert r[i] == m[i];
      } else {
        assert Keys(r)[i] == r[i].0 && Keys(r)[j] == r[j].0;
      }
    }
  }

  function Pow10(e: nat): (p: nat)
    ensures p >= 1
  {
    if e == 0 then 1 else 10 * Pow10(e - 1)
  }

  /** Python's `int(x)`; `None` stands for the `ValueError` or `TypeError` it raises. */
  function PyInt(j: Json): (r: Option<int>)
    ensures j.JInt? ==> r == Some(j.i)
    ensures j.JNull? || j.JArr? || j.JObj? ==> r.None?
  {
    match j
    case JInt(i) => Some(i)
    case JBool(b) => Some(if b then 1 else 0)
    case JDec(m, e) => Some(if m >= 0 then m / Pow10(e) else -((-m) / Pow10(e)))
    case JStr(s) => Text.ParseInt(s)
    case _ => None
  }

  /**
   * Python's `str(x)` for the values the helpers stringify: strings, ints and
   * booleans.  `None` marks a value outside that scope.
   */
  function PyStr(j: Json): (r: Option<string>)
    ensures j.JStr? ==> r == Some(j.s)
    ensures j.JInt? ==> r == Some(Text.IntToString(j.i))
  {
    match j
    case JStr(s) => Some(s)
    case JInt(i) => Some(Text.IntToString(i))
    case JBool(b) => Some(if b then "True" else "False")
    case _ => None
  }

  /** `x in [s1, s2, ...]` for a list of strings: only an equal string is a member. */
  predicate StrIn(j: Json, options: seq<string>)
  {
    j.JStr? && j.s in options
  }

  // `dict(v)`.

  /**
   * One item of `dict(items)` as a key and a value: a two-item list, a
   * two-character string or a two-key dict (iterated over its keys).
   * `None` for any other item, which raises, and for a key that is not a
   * string.
   */
  function PairOf(item: Json): (r: Option<(string, Json)>)
    ensures item.JArr? && |item.items| == 2 && item.items[0].JStr? ==> r == Some((item.items[0].s, item.items[1]))
    ensures !item.JArr? && !item.JStr? && !item.JObj? ==> r.None?
  {
    match item
    case JArr(kv) => if |kv| == 2 && kv[0].JStr? then Some((kv[0].s, kv[1])) else None
    case JStr(t) => if |t| == 2 then Some(([t[0]], JStr([t[1]]))) else None
    case JObj(m) => if |m| == 2 then Some((m[0].0, JStr(m[1].0))) else None
    case _ => None
  }

  /** The key-value pairs of the items, or `None` when one of them is not a pair. */
  function PairsOf(items: seq<Json>): (r: Option<seq<(string, Json)>>)
    ensures r.Some? ==> |r.value| == |items|
  {
    if items == [] then Some([])
    else
      match PairsOf(items[..|items| - 1])
      case None => None
      case Some(ps) =>
        match PairOf(items[|items| - 1])
        case None => None
        case Some(p) => Some(ps + [p])
  }

  /** `dict(items)` succeeds exactly when every item is a pair with a string key, and then lists each item's pair. */
  lemma {:induction false} PairsOfSome(items: seq<Json>)
    ensures PairsOf(items).Some? <==> forall i :: 0 <= i < |items| ==> PairOf(items[i]).Some?
    ensures PairsOf(items).Some? ==> forall i :: 0 <= i < |items| ==> PairsOf(items).value[i] == PairOf(items[i]).value
  {
    if items != [] {
      var init := items[..|items| - 1];
      PairsOfSome(init);
      if PairsOf(items).Some? {
        forall i | 0 <= i < |items|
          ensures PairOf(items[i]).Some? && PairsOf(items).value[i] == PairOf(items[i]).value
        {
          if i < |init| {
            assert init[i] == items[i];
          }
        }
      } else if PairsOf(init).None? {
        var i :| 0 <= i < |init| && PairOf(init[i]).None?;
        assert init[i] == items[i];
      }
    }
  }

  /**
   * `dict(v)`: a copy of a dict, or the dict of a list's key-value pairs;
   * `None` for the `TypeError` or `ValueError` it raises on anything else.
   */
  function PyDict(v: Json): (r: Option<Members>)
    ensures v.JObj? ==> r == Some(v.members)
    ensures v.JArr? ==> (r.Some? <==> PairsOf(v.items).Some?)
    ensures v.JArr? && r.Some? ==> r.value == Assigned([], PairsOf(v.items).value)
    ensures !v.JObj? && !v.JArr? ==> r.None?
  {
    match v
    case JObj(m) => Some(m)
    case JArr(items) =>
      (match PairsOf(items)
       case None => None
       case Some(ps) => Some(Assigned([], ps)))
    case _ => None
  }

  // Python's `==`.

  /** A number whose value Python compares: a bool, an int or a float. */
  predicate IsNumber(j: Json)
  {
    j.JBool? || j.JInt? || j.JDec?
  }

  /** The value of a number, `True` being 1 and `False` 0. */
  function NumValue(j: Json): real
    requires IsNumber(j)
  {
    match j
    case JBool(b) => if b then 1.0 else 0.0
    case JInt(i) => i as real
    case JDec(m, e) => m as real / Pow10(e) as real
  }

  /** An int, or a float whose mantissa has no trailing zero. */
  predicate Reduced(j: Json)
  {
    j.JInt? || (j.JDec? && j.exp > 0 && j.mant % 10 != 0)
  }

  /** `m / 10^e` with the trailing zeros of `m` cancelled, an int once no fraction is left. */
  function Reduce(m: int, e: nat): (r: Json)
    ensures Reduced(r)
    decreases e
  {
    if e == 0 then JInt(m)
    else if m % 10 == 0 then Reduce(m / 10, e - 1)
    else JDec(m, e)
  }

  /**
   * The value `==` and `hash` see: a bool as the int it equals, a float in
   * reduced form (`2.50` as `2.5`, `3.0` as `3`), anything else itself.
   */
  function Canon(j: Json): (r: Json)
    ensures IsNumber(j) ==> Reduced(r)
    ensures !IsNumber(j) ==> r == j
  {
    match j
    case JBool(b) => JInt(if b then 1 else 0)
    case JDec(m, e) => Reduce(m, e)
    case _ => j
  }

  /** Python's `a == b` on values a dict accepts as keys: `True == 1 == 1.0`, `2.5 == 2.50`. */
  predicate KeyEq(a: Json, b: Json)
  {
    Canon(a) == Canon(b)
  }

  /**
   * Python's `a == b` on decoded values: numbers by value, lists item by
   * item, dicts by their entries whatever the order, anything else as is.
   */
  predicate PyEq(a: Json, b: Json)
    decreases a, 1
  {
    match a
    case JArr(xs) => b.JArr? && ItemsEq(xs, b.items)
    case JObj(m) => b.JObj? && |m| == |b.members| && EntriesIn(a, 0, b.members)
    case _ => !b.JArr? && !b.JObj? && KeyEq(a, b)
  }

  /** Two lists are equal when they have the same length and equal items in turn. */
  predicate ItemsEq(xs: seq<Json>, ys: seq<Json>)
    decreases xs, 0
  {
    |xs| == |ys| && (xs == [] || (PyEq(xs[0], ys[0]) && ItemsEq(xs[1..], ys[1..])))
  }

  /** Every entry of the dict `a` from the `i`-th on has its key in `other`, with an equal value there. */
  predicate EntriesIn(a: Json, i: nat, other: Members)
    requires a.JObj? && i <= |a.members|
    decreases a, 0, |a.members| - i
  {
    if i == |a.members| then true
    else
      var (k, v) := a.members[i];
      HasKey(other, k) && PyEq(v, Lookup(other, k).value) && EntriesIn(a, i + 1, other)
  }

  /** Only the string itself equals a string. */
  lemma KeyEqStr(j: Json, s: string)
    ensures KeyEq(j, JStr(s)) <==> j == JStr(s)
    ensures PyEq(j, JStr(s)) <==> j == JStr(s)
  {
  }

  function Pow10Sum(a: nat, b: nat): (p: nat)
    ensures Pow10(a + b) == Pow10(a) * Pow10(b) == p
    decreases a
  {
    if a == 0 then Pow10(b) else 10 * Pow10Sum(a - 1, b)
  }

  /** Reducing keeps the value. */
  lemma {:induction false} ReduceValue(m: int, e: nat)
    ensures NumValue(Reduce(m, e)) == m as real / Pow10(e) as real
    decreases e
  {
    if e > 0 && m % 10 == 0 {
      ReduceValue(m / 10, e - 1);
      var q := m / 10;
      var p := Pow10(e - 1) as real;
      assert m as real == 10.0 * q as real;
      assert Pow10(e) as real == 10.0 * p;
      ScaleFraction(q as real, p);
    }
  }

  lemma ScaleFraction(x: real, y: real)
    requires y > 0.0
    ensures (10.0 * x) / (10.0 * y) == x / y
  {
  }

  /** A number and its canonical form have the same value. */
  lemma CanonValue(j: Json)
    requires IsNumber(j)
    ensures IsNumber(Canon(j)) && NumValue(Canon(j)) == NumValue(j)
  {
    if j.JDec? {
      ReduceValue(j.mant, j.exp);
    }
  }

  /** The fraction `m / 10^e` equals the int `i` only when `m` ends in a zero or `e` is 0. */
  lemma IntIsNotReducedFraction(i: int, m: int, e: nat)
    requires e > 0 && i as real == m as real / Pow10(e) as real
    ensures m % 10 == 0
  {
    var p := Pow10(e);
    assert m as real == i as real * p as real;
    assert m == i * p;
    assert p == 10 * Pow10(e - 1);
    assert m == 10 * (i * Pow10(e - 1));
  }

  /** Equal fractions cross-multiply to equal ints. */
  lemma CrossMultiply(a: int, p: nat, b: int, q: nat)
    requires p > 0 && q > 0 && a as real / p as real == b as real / q as real
    ensures a * q == b * p
  {
    assert (a * q) as real == a as real * q as real;
    assert (b * p) as real == b as real * p as real;
  }

  lemma Cancel(x: int, y: int, p: nat)
    requires p > 0 && x * p == y * p
    ensures x == y
  {
    assert (x - y) * p == 0;
  }

  lemma Regroup(m: int, p: int, d: int)
    ensures m * (p * d) == (m * d) * p
  {
  }

  /** A multiple of 10 ends in a zero. */
  lemma TenTimes(m: int, k: int, d: int)
    requires d == 10 * k
    ensures (m * d) % 10 == 0
  {
    assert m * d == 10 * (m * k);
  }

  /** `m1 * (p1 * d) == m2 * p1` with `p1 > 0` leaves `m1 * d == m2`. */
  lemma CancelFactor(m1: int, m2: int, p1: nat, d: nat, p2: nat)
    requires p1 > 0 && p2 == p1 * d && m1 * p2 == m2 * p1
    ensures m1 * d == m2
  {
    Regroup(m1, p1, d);
    Cancel(m1 * d, m2, p1);
  }

  /** Two reduced fractions that cross-multiply to equal ints are the same fraction. */
  lemma CrossEqualUnique(m1: int, e1: nat, m2: int, e2: nat)
    requires e1 <= e2 && e2 > 0 && m2 % 10 != 0
    requires m1 * Pow10(e2) == m2 * Pow10(e1)
    ensures m1 == m2 && e1 == e2
  {
    var d := Pow10Sum(e1, e2 - e1);
    CancelFactor(m1, m2, Pow10(e1), Pow10(e2 - e1), Pow10(e2));
    if e1 < e2 {
      TenTimes(m1, Pow10(e2 - e1 - 1), Pow10(e2 - e1));
    }
  }

  /** Two reduced fractions of the same value are the same fraction. */
  lemma FractionsUnique(m1: int, e1: nat, m2: int, e2: nat)
    requires e1 <= e2 && e2 > 0 && m2 % 10 != 0
    requires m1 as real / Pow10(e1) as real == m2 as real / Pow10(e2) as real
    ensures m1 == m2 && e1 == e2
  {
    CrossMultiply(m1, Pow10(e1), m2, Pow10(e2));
    CrossEqualUnique(m1, e1, m2, e2);
  }

  /** Two reduced numbers of the same value are the same value. */
  lemma ReducedUnique(x: Json, y: Json)
    requires Reduced(x) && Reduced(y) && NumValue(x) == NumValue(y)
    ensures x == y
  {
    if x.JInt? && y.JDec? {
      IntIsNotReducedFraction(x.i, y.mant, y.exp);
    } else if x.JDec? && y.JInt? {
      IntIsNotReducedFraction(y.i, x.mant, x.exp);
    } else if x.JDec? && y.JDec? {
      if x.exp <= y.exp {
        FractionsUnique(x.mant, x.exp, y.mant, y.exp);
      } else {
        FractionsUnique(y.mant, y.exp, x.mant, x.exp);
      }
    }
  }

  /** On numbers, `KeyEq` is equality of value, in both directions. */
  lemma NumKeyEq(a: Json, b: Json)
    requires IsNumber(a) && IsNumber(b)
    ensures KeyEq(a, b) <==> NumValue(a) == NumValue(b)
  {
    CanonValue(a);
    CanonValue(b);
    if NumValue(a) == NumValue(b) {
      ReducedUnique(Canon(a), Canon(b));
    }
  }

  /** `True == 1 == 1.0 == 1.00`, and `2.5 == 2.50`, while `True != "1"`. */
  lemma KeyEqExamples()
    ensures KeyEq(JBool(true), JInt(1)) && KeyEq(JInt(1), JDec(10, 1)) && KeyEq(JDec(100, 2), JBool(true))
    ensures KeyEq(JDec(25, 1), JDec(250, 2))
    ensures !KeyEq(JBool(true), JStr("1")) && !KeyEq(JBool(false), JNull)
  {
  }

  /** Python's `x == n` for an int `n`: `True == 1` and `3.0 == 3` hold as well. */
  predicate NumEquals(j: Json, n: int)
  {
    match j
    case JInt(i) => i == n
    case JBool(b) => (if b then 1 else 0) == n
    case JDec(m, e) => m == n * Pow10(e)
    case _ => false
  }
}
