/**
 * `FieldValidator._validate_expression_format`
 * (repositories/validators/field_validator.py): the advisory check of a
 * kintone CALC expression.  It looks for functions kintone does not support
 * and for `table.field` references, and proposes a rewritten expression.
 * Nothing in the field validator calls it; it stands alone here too.
 *
 * Each regular expression it uses is written out as a scanner that finds the
 * same leftmost match, and each `re.sub` as a left-to-right rewrite.
 */
module ExpressionFormat {
  import opened Wrappers
  import opened Text

  /** An entry of `UNSUPPORTED_FUNCTIONS`: the function and the alternative the message proposes. */
  datatype Unsupported = Unsupported(name: string, alternative: string)

  /** The table in its dict order, which is the order of the search. */
  const UnsupportedFunctions: seq<Unsupported> := [
    Unsupported("DAYS_BETWEEN", "日付の差分は「DATE_FORMAT(日付1, \"YYYY/MM/DD\") - DATE_FORMAT(日付2, \"YYYY/MM/DD\")」で計算できます"),
    Unsupported("AVERAGE", "平均値は「SUM(フィールド) / COUNT(フィールド)」で計算できます"),
    Unsupported("CONCATENATE", "文字列の連結は「&」演算子を使用します。例: 文字列1 & \" \" & 文字列2"),
    Unsupported("VLOOKUP", "参照テーブルの値を取得するには、ルックアップフィールドを使用してください"),
    Unsupported("COUNTIF", "条件付きカウントは「SUM(IF(条件, 1, 0))」で計算できます"),
    Unsupported("SUMIF", "条件付き合計は「SUM(IF(条件, 値, 0))」で計算できます"),
    Unsupported("TODAY", "現在の日付を取得するには、日付フィールドで「defaultNowValue: true」を設定してください"),
    Unsupported("NOW", "現在の日時を取得するには、日時フィールドで「defaultNowValue: true」を設定してください"),
    Unsupported("MONTH", "月を取得するには「DATE_FORMAT(日付, \"MM\")」を使用してください"),
    Unsupported("YEAR", "年を取得するには「DATE_FORMAT(日付, \"YYYY\")」を使用してください"),
    Unsupported("DAY", "日を取得するには「DATE_FORMAT(日付, \"DD\")」を使用してください")
  ]

  /** Why an expression is refused. */
  datatype Problem =
    | UnsupportedFunction(entry: Unsupported)
    | TableQualifiedReference
    | EmptyExpression

  /** The returned dict: `is_valid`, and when invalid the problem (which fixes the message) and the `suggestion`. */
  datatype Verdict =
    | Valid
    | Invalid(problem: Problem, suggestion: Option<string>)

  // Case-insensitive search for `NAME\s*\(`.

  /**
   * The case fold `re.IGNORECASE` applies to a `str` pattern, on the
   * characters that fold onto an ASCII letter: ASCII lower case, the
   * Kelvin sign (lower case `k`), the dotted capital I (lower case `i`),
   * and the dotless i and long s, which the matcher treats as `i` and `s`.
   */
  function FoldCase(c: char): (r: char)
    ensures IsAsciiLower(c) ==> IsAsciiUpper(r)
    ensures IsAsciiUpper(c) ==> r == c
    ensures c == '\U{212A}' ==> r == 'K'
    ensures c == '\U{0130}' || c == '\U{0131}' ==> r == 'I'
    ensures c == '\U{017F}' ==> r == 'S'
    ensures IsAsciiUpper(r) ==> IsAsciiLetter(c) || c in "\U{212A}\U{0130}\U{0131}\U{017F}"
    ensures !IsAsciiUpper(r) ==> r == c
  {
    if IsAsciiLower(c) then (c as int - 32) as char
    else if c == '\U{212A}' then 'K'
    else if c == '\U{0130}' || c == '\U{0131}' then 'I'
    else if c == '\U{017F}' then 'S'
    else c
  }

  /** `re.IGNORECASE` equality of two strings, character by character. */
  predicate SameIgnoringCase(a: string, b: string)
  {
    |a| == |b| && forall i :: 0 <= i < |a| ==> FoldCase(a[i]) == FoldCase(b[i])
  }

  /** The first index at or after `j` that is not whitespace (`\s*` taken greedily). */
  function SkipSpaces(s: string, j: nat): (k: nat)
    requires j <= |s|
    ensures j <= k <= |s|
    ensures forall m :: j <= m < k ==> IsSpace(s[m])
    ensures k < |s| ==> !IsSpace(s[k])
    decreases |s| - j
  {
    if j < |s| && IsSpace(s[j]) then SkipSpaces(s, j + 1) else j
  }

  /** `NAME\s*\(` matches at index `i`. */
  predicate CallAt(s: string, i: nat, name: string)
  {
    i + |name| <= |s| && SameIgnoringCase(s[i..i + |name|], name)
    && SkipSpaces(s, i + |name|) < |s| && s[SkipSpaces(s, i + |name|)] == '('
  }

  /** `re.search(NAME\s*\(, s, re.IGNORECASE)` finds something. */
  predicate Calls(s: string, name: string)
  {
    exists i :: 0 <= i <= |s| && CallAt(s, i, name)
  }

  /** The first table entry, in table order, whose call occurs in `s`. */
  function FirstUnsupported(s: string, table: seq<Unsupported>): (r: Option<Unsupported>)
    ensures r.Some? ==> r.value in table && Calls(s, r.value.name)
    ensures r.None? <==> forall u :: u in table ==> !Calls(s, u.name)
  {
    if table == [] then None
    else if Calls(s, table[0].name) then Some(table[0])
    else FirstUnsupported(s, table[1..])
  }

  // `DAYS_BETWEEN\s*\(\s*([^,]+)\s*,\s*([^)]+)\s*\)`.

  /** The first index at or after `j` holding `stop`, if any. */
  function IndexFrom(s: string, j: nat, stop: char): (r: Option<nat>)
    requires j <= |s|
    ensures r.Some? ==> j <= r.value < |s| && s[r.value] == stop && forall m :: j <= m < r.value ==> s[m] != stop
    ensures r.None? ==> forall m :: j <= m < |s| ==> s[m] != stop
    decreases |s| - j
  {
    if j == |s| then None
    else if s[j] == stop then Some(j)
    else IndexFrom(s, j + 1, stop)
  }

  /**
   * `\s*([^X]+)\s*X` matched from `j`: the group runs to the first `X`; the
   * leading `\s*` takes what whitespace it can while leaving the group one
   * character, and the greedy group leaves nothing to the trailing `\s*`.
   * The result is the group and the index of the `X`.
   */
  function GroupBefore(s: string, j: nat, stop: char): (r: Option<(string, nat)>)
    requires j <= |s|
    ensures r.Some? ==> j < r.value.1 < |s| && s[r.value.1] == stop && r.value.0 != []
  {
    match IndexFrom(s, j, stop)
    case None => None
    case Some(k) =>
      if k == j then None
      else
        var lead := SkipSpaces(s[..k], j);
        if lead < k then Some((s[lead..k], k)) else Some((s[k - 1..k], k))
  }

  /** A `DAYS_BETWEEN` match: where it ends and its two groups. */
  datatype DaysMatch = DaysMatch(end: nat, date1: string, date2: string)

  const DaysBetween := "DAYS_BETWEEN"

  /** The `DAYS_BETWEEN` pattern matched at index `i`. */
  function DaysMatchAt(s: string, i: nat): (r: Option<DaysMatch>)
    ensures r.Some? ==> i < r.value.end <= |s|
  {
    if !(i + |DaysBetween| <= |s| && SameIgnoringCase(s[i..i + |DaysBetween|], DaysBetween)) then None
    else
      var j := SkipSpaces(s, i + |DaysBetween|);
      if j == |s| || s[j] != '(' then None
      else
        match GroupBefore(s, j + 1, ',')
        case None => None
        case Some(first) =>
          match GroupBefore(s, first.1 + 1, ')')
          case None => None
          case Some(second) => Some(DaysMatch(second.1 + 1, first.0, second.0))
  }

  /** `days_pattern.search(s[from:])`-style: the leftmost match at or after `from`, with its start. */
  function FirstDaysMatch(s: string, from: nat): (r: Option<(nat, DaysMatch)>)
    requires from <= |s|
    ensures r.Some? ==> from <= r.value.0 && DaysMatchAt(s, r.value.0) == Some(r.value.1)
    decreases |s| - from
  {
    match DaysMatchAt(s, from)
    case Some(m) => Some((from, m))
    case None => if from == |s| then None else FirstDaysMatch(s, from + 1)
  }

  /** Nothing found from `from` on: no index from there to the end matches. */
  lemma {:induction false} FirstDaysMatchNone(s: string, from: nat)
    requires from <= |s| && FirstDaysMatch(s, from).None?
    ensures forall i :: from <= i <= |s| ==> DaysMatchAt(s, i).None?
    decreases |s| - from
  {
    assert DaysMatchAt(s, from).None?;
    forall i | from < i <= |s|
      ensures DaysMatchAt(s, i).None?
    {
      FirstDaysMatchNone(s, from + 1);
    }
  }

  /** The match found is the leftmost one: no index between `from` and its start matches. */
  lemma {:induction false} FirstDaysMatchLeftmost(s: string, from: nat)
    requires from <= |s| && FirstDaysMatch(s, from).Some?
    ensures forall i :: from <= i < FirstDaysMatch(s, from).value.0 ==> DaysMatchAt(s, i).None?
    decreases |s| - from
  {
    if DaysMatchAt(s, from).None? {
      forall i | from < i < FirstDaysMatch(s, from).value.0
        ensures DaysMatchAt(s, i).None?
      {
        FirstDaysMatchLeftmost(s, from + 1);
      }
    }
  }

  /** The replacement text, built once from the first match's groups. */
  function DaysReplacement(date1: string, date2: string): string
  {
    "ROUNDDOWN(DATE_FORMAT(" + date1 + ", \"YYYY/MM/DD\") - DATE_FORMAT(" + date2 + ", \"YYYY/MM/DD\"), 0)"
  }

  /** `days_pattern.sub(replacement, s)` from index `from`: every match, left to right, gets the same text. */
  function ReplaceDays(s: string, from: nat, replacement: string): string
    requires from <= |s|
    decreases |s| - from
  {
    match FirstDaysMatch(s, from)
    case None => s[from..]
    case Some((i, m)) => s[from..i] + replacement + ReplaceDays(s, m.end, replacement)
  }

  /** The suggestion as the source builds it: the first match's rewrite put in place of every match. */
  function DaysSuggestionAsWritten(expression: string): Option<string>
  {
    match FirstDaysMatch(expression, 0)
    case Some((_, m)) => Some(ReplaceDays(expression, 0, DaysReplacement(m.date1, m.date2)))
    case None => None
  }

  /** Every match, left to right, replaced by the rewrite of its own two groups. */
  function ReplaceDaysEach(s: string, from: nat): string
    requires from <= |s|
    decreases |s| - from
  {
    match FirstDaysMatch(s, from)
    case None => s[from..]
    case Some((i, m)) => s[from..i] + DaysReplacement(m.date1, m.date2) + ReplaceDaysEach(s, m.end)
  }

  // `\b\d+\.\d+\b`, protected behind `__NUMBER_PLACEHOLDER_n__`.

  /** The first index at or after `j` that is not a decimal digit (`\d+` taken greedily). */
  function DigitRunEnd(s: string, j: nat): (k: nat)
    requires j <= |s|
    ensures j <= k <= |s|
    ensures forall m :: j <= m < k ==> IsDecimalDigit(s[m])
    ensures k < |s| ==> !IsDecimalDigit(s[k])
    decreases |s| - j
  {
    if j < |s| && IsDecimalDigit(s[j]) then DigitRunEnd(s, j + 1) else j
  }

  /** The end of a decimal literal matched at index `i`: a word boundary, digits, `.`, digits, a word boundary. */
  function DecimalAt(s: string, i: nat): (r: Option<nat>)
    ensures r.Some? ==> i < r.value <= |s|
  {
    if !(i < |s| && IsDecimalDigit(s[i]) && (i == 0 || !IsWordChar(s[i - 1]))) then None
    else
      var p := DigitRunEnd(s, i);
      if !(p + 1 < |s| && s[p] == '.' && IsDecimalDigit(s[p + 1])) then None
      else
        var q := DigitRunEnd(s, p + 1);
        if q < |s| && IsWordChar(s[q]) then None else Some(q)
  }

  function Placeholder(n: nat): string
  {
    "__NUMBER_PLACEHOLDER_" + NatToString(n) + "__"
  }

  /** The protected text from index `from` on, and the literals replaced, numbered from `count`. */
  datatype Protected = Protected(text: string, literals: seq<string>)

  /** `number_pattern.sub(replace_number, s)` from index `from`. */
  function Protect(s: string, from: nat, count: nat): (r: Protected)
    requires from <= |s|
    decreases |s| - from
  {
    if from == |s| then Protected([], [])
    else
      match DecimalAt(s, from)
      case Some(q) =>
        var rest := Protect(s, q, count + 1);
        Protected(Placeholder(count) + rest.text, [s[from..q]] + rest.literals)
      case None =>
        var rest := Protect(s, from + 1, count);
        Protected([s[from]] + rest.text, rest.literals)
  }

  /** `__NUMBER_PLACEHOLDER_\d+__` matched at index `i`: the end of the match. */
  function PlaceholderAt(t: string, i: nat): (r: Option<nat>)
    ensures r.Some? ==> i < r.value <= |t|
  {
    var head := "__NUMBER_PLACEHOLDER_";
    if !(i + |head| <= |t| && t[i..i + |head|] == head) then None
    else
      var d := DigitRunEnd(t, i + |head|);
      if d == i + |head| || !(d + 2 <= |t| && t[d..d + 2] == "__") then None
      else Some(d + 2)
  }

  /** `number_placeholders.get(placeholder, placeholder)`. */
  function LookupPlaceholder(placeholder: string, literals: seq<string>, n: nat): string
    decreases |literals|
  {
    if literals == [] then placeholder
    else if Placeholder(n) == placeholder then literals[0]
    else LookupPlaceholder(placeholder, literals[1..], n + 1)
  }

  /** `re.sub(r'__NUMBER_PLACEHOLDER_\d+__', restore_number, t)` from index `from`. */
  function Restore(t: string, from: nat, literals: seq<string>): string
    requires from <= |t|
    decreases |t| - from
  {
    if from == |t| then []
    else
      match PlaceholderAt(t, from)
      case Some(e) => LookupPlaceholder(t[from..e], literals, 0) + Restore(t, e, literals)
      case None => [t[from]] + Restore(t, from + 1, literals)
  }

  // `([C]+)\.([C]+)` with C the class of `IsTableRefChar`, rewritten to `\2`.

  /** The first index at or after `j` outside the class of the `table.field` pattern. */
  function CodeRunEnd(t: string, j: nat): (k: nat)
    requires j <= |t|
    ensures j <= k <= |t|
    ensures forall m :: j <= m < k ==> IsTableRefChar(t[m])
    ensures k < |t| ==> !IsTableRefChar(t[k])
    decreases |t| - j
  {
    if j < |t| && IsTableRefChar(t[j]) then CodeRunEnd(t, j + 1) else j
  }

  /** A `table.field` match at index `i`: the index of the dot and the end of the match. */
  function DottedAt(t: string, i: nat): (r: Option<(nat, nat)>)
    ensures r.Some? ==> i < r.value.0 && r.value.0 + 1 < r.value.1 <= |t| && t[r.value.0] == '.'
  {
    if !(i < |t| && IsTableRefChar(t[i])) then None
    else
      var p := CodeRunEnd(t, i);
      if !(p + 1 < |t| && t[p] == '.' && IsTableRefChar(t[p + 1])) then None
      else Some((p, CodeRunEnd(t, p + 1)))
  }

  predicate HasDotted(t: string)
  {
    exists i :: 0 <= i < |t| && DottedAt(t, i).Some?
  }

  /** `table_field_pattern.sub(r'\2', t)` from index `from`: each `table.field` becomes `field`. */
  function StripTables(t: string, from: nat): string
    requires from <= |t|
    decreases |t| - from
  {
    if from == |t| then []
    else
      match DottedAt(t, from)
      case Some((p, q)) => t[p + 1..q] + StripTables(t, q)
      case None => [t[from]] + StripTables(t, from + 1)
  }

  /** `_validate_expression_format(expression)`. */
  function ValidateExpressionFormat(expression: string): (r: Verdict)
    ensures r.Invalid? && r.problem.UnsupportedFunction? ==>
      r.problem.entry in UnsupportedFunctions && Calls(expression, r.problem.entry.name)
    ensures r.Invalid? && r.suggestion.Some? ==>
      r.problem == TableQualifiedReference || (r.problem.UnsupportedFunction? && r.problem.entry.name == DaysBetween)
    ensures r.Invalid? && r.problem == EmptyExpression ==> Strip(expression) == []
  {
    match FirstUnsupported(expression, UnsupportedFunctions)
    case Some(u) =>
      if u.name == DaysBetween then Invalid(UnsupportedFunction(u), DaysSuggestionAsWritten(expression))
      else Invalid(UnsupportedFunction(u), None)
    case None =>
      var protected := Protect(expression, 0, 0);
      if HasDotted(protected.text) then
        Invalid(TableQualifiedReference, Some(Restore(StripTables(protected.text, 0), 0, protected.literals)))
      else if Strip(expression) == [] then Invalid(EmptyExpression, None)
      else Valid
  }

  // What the verdict means.

  /** An expression is valid exactly when it calls no unsupported function, has no `table.field` outside decimal literals, and is not blank. */
  lemma ValidIff(expression: string)
    ensures ValidateExpressionFormat(expression) == Valid <==>
      (forall u :: u in UnsupportedFunctions ==> !Calls(expression, u.name))
      && !HasDotted(Protect(expression, 0, 0).text)
      && Strip(expression) != []
  {
  }

  /** A call of a listed function refuses the expression, naming the first listed function called. */
  lemma UnsupportedRefused(expression: string, u: Unsupported)
    requires u in UnsupportedFunctions && Calls(expression, u.name)
    ensures ValidateExpressionFormat(expression).Invalid?
    ensures ValidateExpressionFormat(expression).problem.UnsupportedFunction?
    ensures ValidateExpressionFormat(expression).problem.entry in UnsupportedFunctions
  {
  }

  /** The Kelvin sign matches `K` under `re.IGNORECASE`, so this spelling still calls VLOOKUP. */
  lemma KelvinSignCallRefused()
    ensures ValidateExpressionFormat("VLOO\U{212A}UP(x)").Invalid?
    ensures ValidateExpressionFormat("VLOO\U{212A}UP(x)").problem.UnsupportedFunction?
  {
    var e := "VLOO\U{212A}UP(x)";
    var u := UnsupportedFunctions[3];
    assert SameIgnoringCase(e[0..7], u.name);
    assert SkipSpaces(e, 7) == 7;
    assert CallAt(e, 0, u.name);
    UnsupportedRefused(e, u);
  }

  lemma {:induction false} NoParenNoCall(s: string, name: string)
    requires forall m :: 0 <= m < |s| ==> s[m] != '('
    ensures !Calls(s, name)
  {
  }

  lemma {:induction false} ProtectNoDigits(s: string, from: nat, count: nat)
    requires from <= |s| && forall m :: from <= m < |s| ==> !IsDecimalDigit(s[m])
    ensures Protect(s, from, count) == Protected(s[from..], [])
    decreases |s| - from
  {
    if from < |s| {
      ProtectNoDigits(s, from + 1, count);
      assert s[from..] == [s[from]] + s[from + 1..];
    }
  }

  lemma {:induction false} RestoreNoUnderscore(t: string, from: nat, literals: seq<string>)
    requires from <= |t| && forall m :: from <= m < |t| ==> t[m] != '_'
    ensures Restore(t, from, literals) == t[from..]
    decreases |t| - from
  {
    if from < |t| {
      assert PlaceholderAt(t, from).None? by {
        if from + 21 <= |t| {
          assert t[from..from + 21][0] == t[from];
        }
      }
      RestoreNoUnderscore(t, from + 1, literals);
      assert t[from..] == [t[from]] + t[from + 1..];
    }
  }

  lemma NoDotNoDotted(t: string)
    requires forall m :: 0 <= m < |t| ==> t[m] != '.'
    ensures !HasDotted(t)
  {
  }

  predicate AsciiLetters(s: string)
  {
    s != [] && forall m :: 0 <= m < |s| ==> IsAsciiLetter(s[m])
  }

  lemma {:induction false} NoParenNoUnsupported(s: string, table: seq<Unsupported>)
    requires forall m :: 0 <= m < |s| ==> s[m] != '('
    ensures FirstUnsupported(s, table).None?
  {
    if table != [] {
      NoParenNoCall(s, table[0].name);
      NoParenNoUnsupported(s, table[1..]);
    }
  }

  lemma DottedPairStripped(table: string, field: string)
    requires AsciiLetters(table) && AsciiLetters(field)
    ensures HasDotted(table + "." + field) && StripTables(table + "." + field, 0) == field
  {
    var e := table + "." + field;
    CodeRunFrom(e, 0, |table|);
    CodeRunFrom(e, |table| + 1, |e|);
    assert DottedAt(e, 0) == Some((|table|, |e|));
    assert e[|table| + 1..|e|] == field;
  }

  /** `table.field` is refused and `field` is proposed in its place. */
  lemma TableReferenceRewritten(table: string, field: string)
    requires AsciiLetters(table) && AsciiLetters(field)
    ensures ValidateExpressionFormat(table + "." + field) == Invalid(TableQualifiedReference, Some(field))
  {
    var e := table + "." + field;
    assert forall m :: 0 <= m < |e| ==> e[m] == '.' || IsAsciiLetter(e[m]);
    NoParenNoUnsupported(e, UnsupportedFunctions);
    ProtectNoDigits(e, 0, 0);
    assert e[0..] == e;
    DottedPairStripped(table, field);
    RestoreNoUnderscore(field, 0, []);
    assert field[0..] == field;
  }

  /** A run of field-code characters from `j` to `k` ending at a non-code character or the end. */
  lemma {:induction false} CodeRunFrom(t: string, j: nat, k: nat)
    requires j <= k <= |t|
    requires forall m :: j <= m < k ==> IsTableRefChar(t[m])
    requires k < |t| ==> !IsTableRefChar(t[k])
    ensures CodeRunEnd(t, j) == k
    decreases k - j
  {
    if j < k {
      CodeRunFrom(t, j + 1, k);
    }
  }

  lemma {:induction false} DigitRunFrom(t: string, j: nat, k: nat)
    requires j <= k <= |t|
    requires forall m :: j <= m < k ==> IsDecimalDigit(t[m])
    requires k < |t| ==> !IsDecimalDigit(t[k])
    ensures DigitRunEnd(t, j) == k
    decreases k - j
  {
    if j < k {
      DigitRunFrom(t, j + 1, k);
    }
  }

  /** Protection copies a stretch without digits unchanged. */
  lemma {:induction false} ProtectSkip(s: string, from: nat, k: nat, count: nat)
    requires from <= k <= |s| && forall m :: from <= m < k ==> !IsDecimalDigit(s[m])
    ensures Protect(s, from, count) == Protected(s[from..k] + Protect(s, k, count).text, Protect(s, k, count).literals)
    decreases k - from
  {
    if from < k {
      ProtectSkip(s, from + 1, k, count);
      assert DecimalAt(s, from).None?;
      ConsSlice(s, from, k, Protect(s, k, count).text);
    }
  }

  lemma ConsSlice<T>(s: seq<T>, from: nat, k: nat, t: seq<T>)
    requires from < k <= |s|
    ensures [s[from]] + (s[from + 1..k] + t) == s[from..k] + t
  {
    assert s[from..k] == [s[from]] + s[from + 1..k];
  }

  predicate AsciiDigits(s: string)
  {
    s != [] && forall m :: 0 <= m < |s| ==> IsAsciiDigit(s[m])
  }

  /** The layout of `pre + whole + "." + fraction`. */
  lemma DecimalLayout(pre: string, whole: string, fraction: string)
    requires AsciiDigits(whole) && AsciiDigits(fraction)
    ensures var e := pre + whole + "." + fraction; var i := |pre|; var p := i + |whole|;
      |e| == p + 1 + |fraction| && e[..i] == pre && e[i..|e|] == whole + "." + fraction
      && (forall m :: i <= m < p ==> IsAsciiDigit(e[m]))
      && e[p] == '.'
      && (forall m :: p + 1 <= m < |e| ==> IsAsciiDigit(e[m]))
      && (forall m :: 0 <= m < i ==> e[m] == pre[m])
  {
    var e := pre + whole + "." + fraction;
    var i := |pre|;
    var p := i + |whole|;
    assert forall m :: i <= m < p ==> e[m] == whole[m - i];
    assert forall m :: p + 1 <= m < |e| ==> e[m] == fraction[m - p - 1];
  }

  /** A decimal literal after a digit-free prefix is replaced by the first placeholder. */
  lemma ProtectDecimalTail(pre: string, whole: string, fraction: string)
    requires AsciiDigits(whole) && AsciiDigits(fraction)
    requires forall m :: 0 <= m < |pre| ==> !IsDecimalDigit(pre[m])
    requires pre != [] ==> !IsWordChar(pre[|pre| - 1])
    ensures Protect(pre + whole + "." + fraction, 0, 0) == Protected(pre + Placeholder(0), [whole + "." + fraction])
  {
    var e := pre + whole + "." + fraction;
    var i := |pre|;
    var p := i + |whole|;
    DecimalLayout(pre, whole, fraction);
    ProtectSkip(e, 0, i, 0);
    assert e[0..i] == pre;
    DigitRunFrom(e, i, p);
    DigitRunFrom(e, p + 1, |e|);
    assert i == 0 || !IsWordChar(e[i - 1]);
    assert DecimalAt(e, i) == Some(|e|);
    ProtectLastLiteral(e, i);
  }

  /** A decimal literal running to the end of the text becomes the placeholder numbered `0`. */
  lemma ProtectLastLiteral(e: string, i: nat)
    requires i <= |e| && DecimalAt(e, i) == Some(|e|)
    ensures Protect(e, i, 0) == Protected(Placeholder(0), [e[i..|e|]])
  {
    assert Protect(e, |e|, 1) == Protected([], []);
    var none: seq<string> := [];
    AppendEmpty(Placeholder(0), []);
    AppendEmpty([e[i..|e|]], none);
  }

  lemma AppendEmpty<T>(x: seq<T>, y: seq<T>)
    requires y == []
    ensures x + y == x
  {
  }

  /**
   * A decimal literal is not taken for a `table.field` reference: the digits
   * on either side of its dot are field-code characters, yet an expression
   * such as `price * 1.5` is valid.
   */
  lemma DecimalLiteralNotReference(pre: string, whole: string, fraction: string)
    requires AsciiDigits(whole) && AsciiDigits(fraction)
    requires forall m :: 0 <= m < |pre| ==> !IsDecimalDigit(pre[m]) && pre[m] != '(' && pre[m] != '.'
    requires pre != [] ==> !IsWordChar(pre[|pre| - 1])
    ensures HasDotted(pre + whole + "." + fraction)
    ensures ValidateExpressionFormat(pre + whole + "." + fraction) == Valid
  {
    var e := pre + whole + "." + fraction;
    DecimalRaw(pre, whole, fraction);
    NoParenNoUnsupported(e, UnsupportedFunctions);
    ProtectDecimalTail(pre, whole, fraction);
    PlaceholderHasNoDot(pre);
    ValidWhen(e);
  }

  /** The text with the literal has a dotted reference, no parenthesis, and is not blank. */
  lemma DecimalRaw(pre: string, whole: string, fraction: string)
    requires AsciiDigits(whole) && AsciiDigits(fraction)
    requires forall m :: 0 <= m < |pre| ==> pre[m] != '('
    ensures var e := pre + whole + "." + fraction;
      HasDotted(e) && (forall m :: 0 <= m < |e| ==> e[m] != '(') && Strip(e) != []
  {
    var e := pre + whole + "." + fraction;
    var p := |pre| + |whole|;
    DecimalLayout(pre, whole, fraction);
    DecimalDotted(e, p);
    StripBlank(e);
    assert !IsSpace(e[p]);
  }

  /** A dot between digits marks a dotted reference in the raw text. */
  lemma DecimalDotted(e: string, p: nat)
    requires 0 < p < |e| - 1 && e[p] == '.' && IsAsciiDigit(e[p - 1]) && IsAsciiDigit(e[p + 1])
    ensures HasDotted(e)
  {
    CodeRunFrom(e, p - 1, p);
    assert DottedAt(e, p - 1).Some?;
  }

  lemma ValidWhen(e: string)
    requires FirstUnsupported(e, UnsupportedFunctions).None?
    requires !HasDotted(Protect(e, 0, 0).text) && Strip(e) != []
    ensures ValidateExpressionFormat(e) == Valid
  {
  }

  lemma PlaceholderHasNoDot(pre: string)
    requires forall m :: 0 <= m < |pre| ==> pre[m] != '.'
    ensures !HasDotted(pre + Placeholder(0))
  {
    var t := pre + Placeholder(0);
    assert Placeholder(0) == "__NUMBER_PLACEHOLDER_0__";
    assert forall m :: 0 <= m < |t| ==> t[m] != '.';
    NoDotNoDotted(t);
  }

  lemma {:induction false} IndexFromAt(s: string, j: nat, k: nat, stop: char)
    requires j <= k < |s| && s[k] == stop && forall m :: j <= m < k ==> s[m] != stop
    ensures IndexFrom(s, j, stop) == Some(k)
    decreases k - j
  {
    if j < k {
      IndexFromAt(s, j + 1, k, stop);
    }
  }

  /** Arguments the `DAYS_BETWEEN` groups take whole: non-empty, not starting with whitespace, free of their terminator. */
  predicate PlainArgument(a: string, stop: char)
  {
    a != [] && !IsSpace(a[0]) && forall m :: 0 <= m < |a| ==> a[m] != stop
  }

  function DaysCall(a: string, b: string): string
  {
    DaysBetween + "(" + a + "," + b + ")"
  }

  /** A plain argument followed by its terminator is taken whole as the group. */
  lemma GroupWhole(e: string, j: nat, g: string, stop: char)
    requires PlainArgument(g, stop) && j + |g| < |e| && e[j..j + |g|] == g && e[j + |g|] == stop
    ensures GroupBefore(e, j, stop) == Some((g, j + |g|))
  {
    var k := j + |g|;
    assert forall m :: j <= m < k ==> e[m] == g[m - j];
    IndexFromAt(e, j, k, stop);
    assert e[..k][j] == g[0];
    assert SkipSpaces(e[..k], j) == j;
  }

  lemma CallLayout(a: string, b: string)
    ensures var call := DaysCall(a, b);
      |call| == 15 + |a| + |b| && call[..12] == DaysBetween && call[12] == '(' && call[13..13 + |a|] == a
      && call[13 + |a|] == ',' && call[14 + |a|..|call| - 1] == b && call[|call| - 1] == ')'
  {
  }

  lemma SliceOfSlice(e: string, p: nat, n: nat, i: nat, j: nat)
    requires p + n <= |e| && i <= j <= n
    ensures e[p + i..p + j] == e[p..p + n][i..j]
  {
    var x := e[p + i..p + j];
    var y := e[p..p + n][i..j];
    assert |x| == |y|;
    forall m | 0 <= m < |x| ensures x[m] == y[m] {
      assert x[m] == e[p + i + m];
    }
  }

  /** The pattern matches at `p` once the name, the parenthesis and both groups are in place. */
  lemma DaysMatchFromParts(e: string, p: nat, a: string, k: nat, b: string, close: nat)
    requires p + 12 < |e| && e[p..p + 12] == DaysBetween && e[p + 12] == '('
    requires GroupBefore(e, p + 13, ',') == Some((a, k)) && GroupBefore(e, k + 1, ')') == Some((b, close))
    ensures CallAt(e, p, DaysBetween) && DaysMatchAt(e, p) == Some(DaysMatch(close + 1, a, b))
  {
    assert SkipSpaces(e, p + 12) == p + 12;
  }

  /** A call `DAYS_BETWEEN(a,b)` found at `p` is matched there, with `a` and `b` as its groups. */
  lemma DaysCallMatched(e: string, p: nat, a: string, b: string)
    requires PlainArgument(a, ',') && PlainArgument(b, ')')
    requires p + |DaysCall(a, b)| <= |e| && e[p..p + |DaysCall(a, b)|] == DaysCall(a, b)
    ensures CallAt(e, p, DaysBetween) && DaysMatchAt(e, p) == Some(DaysMatch(p + |DaysCall(a, b)|, a, b))
  {
    CallLayout(a, b);
    CallPieces(e, p, DaysCall(a, b), a, b);
    PiecesMatched(e, p, a, b, p + |DaysCall(a, b)| - 1);
  }

  /** Name, parenthesis, both groups and their delimiters in place at `p`: the pattern matches there. */
  lemma PiecesMatched(e: string, p: nat, a: string, b: string, close: nat)
    requires PlainArgument(a, ',') && PlainArgument(b, ')')
    requires close == p + 14 + |a| + |b| && close < |e|
    requires e[p..p + 12] == DaysBetween && e[p + 12] == '(' && e[p + 13..p + 13 + |a|] == a
    requires e[p + 13 + |a|] == ',' && e[p + 14 + |a|..close] == b && e[close] == ')'
    ensures CallAt(e, p, DaysBetween) && DaysMatchAt(e, p) == Some(DaysMatch(close + 1, a, b))
  {
    var k := p + 13 + |a|;
    GroupWhole(e, p + 13, a, ',');
    GroupWhole(e, k + 1, b, ')');
    DaysMatchFromParts(e, p, a, k, b, close);
  }

  /** The pieces of a call laid out as `CallLayout` says, read back from the text holding it at `p`. */
  lemma CallPieces(e: string, p: nat, call: string, a: string, b: string)
    requires |call| == 15 + |a| + |b| && call[..12] == DaysBetween && call[12] == '(' && call[13..13 + |a|] == a
    requires call[13 + |a|] == ',' && call[14 + |a|..|call| - 1] == b && call[|call| - 1] == ')'
    requires p + |call| <= |e| && e[p..p + |call|] == call
    ensures var k := p + 13 + |a|; var close := p + |call| - 1;
      && e[p..p + 12] == DaysBetween && e[p + 12] == '(' && e[p + 13..k] == a && e[k] == ','
      && e[k + 1..close] == b && e[close] == ')'
  {
    var n := |call|;
    var k := p + 13 + |a|;
    var close := p + n - 1;
    SliceOfSlice(e, p, n, 0, 12);
    SliceOfSlice(e, p, n, 12, 13);
    SliceOfSlice(e, p, n, 13, 13 + |a|);
    SliceOfSlice(e, p, n, 13 + |a|, 14 + |a|);
    SliceOfSlice(e, p, n, 14 + |a|, n - 1);
    SliceOfSlice(e, p, n, n - 1, n);
    assert e[p + 12] == e[p + 12..p + 13][0];
    assert e[k] == e[k..k + 1][0];
    assert e[close] == e[close..close + 1][0];
  }

  /** Nothing matches from the end of the text. */
  lemma NoMatchAtEnd(s: string)
    ensures FirstDaysMatch(s, |s|).None?
  {
    assert DaysMatchAt(s, |s|).None?;
  }

  /** A text that is one `DAYS_BETWEEN` call from `p` to its end holds that one match. */
  lemma LastCall(e: string, p: nat, a: string, b: string)
    requires PlainArgument(a, ',') && PlainArgument(b, ')')
    requires p + |DaysCall(a, b)| == |e| && e[p..] == DaysCall(a, b)
    ensures FirstDaysMatch(e, p) == Some((p, DaysMatch(|e|, a, b)))
  {
    assert e[p..p + |DaysCall(a, b)|] == e[p..];
    DaysCallMatched(e, p, a, b);
  }

  /** `DAYS_BETWEEN(a,b)` is refused and the ROUNDDOWN/DATE_FORMAT rewrite of it is proposed. */
  lemma DaysBetweenSuggestion(a: string, b: string)
    requires PlainArgument(a, ',') && PlainArgument(b, ')')
    ensures ValidateExpressionFormat(DaysCall(a, b))
      == Invalid(UnsupportedFunction(UnsupportedFunctions[0]), Some(DaysReplacement(a, b)))
    ensures DaysSuggestionAsWritten(DaysCall(a, b)) == Some(DaysReplacement(a, b))
  {
    var e := DaysCall(a, b);
    assert e[0..] == e;
    LastCall(e, 0, a, b);
    DaysCallMatched(e, 0, a, b);
    DaysVerdict(e);
    SingleMatch(e, DaysMatch(|e|, a, b));
  }

  /** With one match covering the whole text, both replacements give that match's rewrite. */
  lemma SingleMatch(e: string, m: DaysMatch)
    requires FirstDaysMatch(e, 0) == Some((0, m)) && m.end == |e|
    ensures ReplaceDaysEach(e, 0) == DaysReplacement(m.date1, m.date2)
    ensures DaysSuggestionAsWritten(e) == Some(DaysReplacement(m.date1, m.date2))
  {
    var t := DaysReplacement(m.date1, m.date2);
    FirstMatchEach(e, m);
    EachEnd(e);
    ReplaceStep(e, 0, 0, m, t);
    ReplaceEnd(e, t);
    assert e[0..0] == [];
    EmptyPrefix(t, []);
    EmptySuffix(t);
  }

  lemma EmptySuffix(x: string)
    ensures x + [] == x
  {
  }

  /** One step of `ReplaceDays`: the text before the match, the replacement, then the rest. */
  lemma ReplaceStep(s: string, from: nat, i: nat, m: DaysMatch, replacement: string)
    requires from <= |s| && FirstDaysMatch(s, from) == Some((i, m))
    ensures ReplaceDays(s, from, replacement) == s[from..i] + replacement + ReplaceDays(s, m.end, replacement)
  {
  }

  lemma ReplaceEnd(s: string, replacement: string)
    ensures ReplaceDays(s, |s|, replacement) == []
  {
    NoMatchAtEnd(s);
  }

  /** No match starts at a `+`. */
  lemma NoMatchAtPlus(e: string, p: nat)
    requires p < |e| && e[p] == '+'
    ensures DaysMatchAt(e, p).None?
  {
    if p + |DaysBetween| <= |e| {
      assert e[p..p + |DaysBetween|][0] == '+';
      assert FoldCase(e[p..p + |DaysBetween|][0]) != FoldCase(DaysBetween[0]);
    }
  }

  /** The scan of `DAYS_BETWEEN(a,b)+DAYS_BETWEEN(c,d)`: two matches, the second after the `+`. */
  lemma TwoCallsScan(a: string, b: string, c: string, d: string)
    requires PlainArgument(a, ',') && PlainArgument(b, ')') && PlainArgument(c, ',') && PlainArgument(d, ')')
    ensures var first := DaysCall(a, b); var e := first + "+" + DaysCall(c, d);
      FirstDaysMatch(e, 0) == Some((0, DaysMatch(|first|, a, b)))
      && FirstDaysMatch(e, |first|) == Some((|first| + 1, DaysMatch(|e|, c, d)))
      && FirstDaysMatch(e, |e|).None?
  {
    var first := DaysCall(a, b);
    var e := first + "+" + DaysCall(c, d);
    FirstCallScanned(first, DaysCall(c, d), a, b);
    SecondCallScanned(first, c, d);
    NoMatchAtEnd(e);
  }

  lemma FirstCallScanned(first: string, second: string, a: string, b: string)
    requires PlainArgument(a, ',') && PlainArgument(b, ')') && first == DaysCall(a, b)
    ensures FirstDaysMatch(first + "+" + second, 0) == Some((0, DaysMatch(|first|, a, b)))
  {
    var e := first + "+" + second;
    assert e[0..|first|] == first;
    DaysCallMatched(e, 0, a, b);
  }

  lemma SecondCallScanned(first: string, c: string, d: string)
    requires PlainArgument(c, ',') && PlainArgument(d, ')')
    ensures var e := first + "+" + DaysCall(c, d);
      FirstDaysMatch(e, |first|) == Some((|first| + 1, DaysMatch(|e|, c, d)))
  {
    var e := first + "+" + DaysCall(c, d);
    assert e[|first|] == '+';
    NoMatchAtPlus(e, |first|);
    assert e[|first| + 1..] == DaysCall(c, d);
    LastCall(e, |first| + 1, c, d);
  }

  /** As written, both calls are replaced by the rewrite of the first call's arguments. */
  lemma TwoCallsAsWritten(a: string, b: string, c: string, d: string)
    requires PlainArgument(a, ',') && PlainArgument(b, ')') && PlainArgument(c, ',') && PlainArgument(d, ')')
    ensures DaysSuggestionAsWritten(DaysCall(a, b) + "+" + DaysCall(c, d))
      == Some(DaysReplacement(a, b) + "+" + DaysReplacement(a, b))
  {
    TwoCallsScan(a, b, c, d);
    TwoCallsJoin(DaysCall(a, b), DaysCall(c, d), DaysMatch(|DaysCall(a, b)|, a, b),
      DaysMatch(|DaysCall(a, b) + "+" + DaysCall(c, d)|, c, d));
  }

  /** The validator refuses `DAYS_BETWEEN(a,b)+DAYS_BETWEEN(c,d)` and suggests the rewrite of `a` and `b` twice. */
  lemma TwoCallsVerdict(a: string, b: string, c: string, d: string)
    requires PlainArgument(a, ',') && PlainArgument(b, ')') && PlainArgument(c, ',') && PlainArgument(d, ')')
    ensures ValidateExpressionFormat(DaysCall(a, b) + "+" + DaysCall(c, d))
      == Invalid(UnsupportedFunction(UnsupportedFunctions[0]), Some(DaysReplacement(a, b) + "+" + DaysReplacement(a, b)))
  {
    var first := DaysCall(a, b);
    var e := first + "+" + DaysCall(c, d);
    assert e[0..|first|] == first;
    DaysCallMatched(e, 0, a, b);
    TwoCallsAsWritten(a, b, c, d);
    assert Calls(e, DaysBetween);
    assert FirstUnsupported(e, UnsupportedFunctions) == Some(UnsupportedFunctions[0]);
  }

  /** `TwoMatchesAsWritten` on a text `first + "+" + second`. */
  lemma TwoCallsJoin(first: string, second: string, m1: DaysMatch, m2: DaysMatch)
    requires m1.end == |first| && m2.end == |first + "+" + second|
    requires FirstDaysMatch(first + "+" + second, 0) == Some((0, m1))
    requires FirstDaysMatch(first + "+" + second, |first|) == Some((|first| + 1, m2))
    ensures var t := DaysReplacement(m1.date1, m1.date2);
      DaysSuggestionAsWritten(first + "+" + second) == Some(t + "+" + t)
  {
    var e := first + "+" + second;
    TwoMatchesAsWritten(e, |first|, m1, m2);
    assert e[|first|..|first| + 1] == "+";
  }

  /** The as-written suggestion over a scan of two matches, in the shape `TwoCallsScan` gives. */
  lemma TwoMatchesAsWritten(e: string, p: nat, m1: DaysMatch, m2: DaysMatch)
    requires p < |e| && m1.end == p && m2.end == |e|
    requires FirstDaysMatch(e, 0) == Some((0, m1)) && FirstDaysMatch(e, p) == Some((p + 1, m2))
    ensures var t := DaysReplacement(m1.date1, m1.date2);
      DaysSuggestionAsWritten(e) == Some(t + e[p..p + 1] + t)
  {
    var t := DaysReplacement(m1.date1, m1.date2);
    assert DaysSuggestionAsWritten(e) == Some(ReplaceDays(e, 0, t));
    ReplaceTwoMatches(e, p, m1, m2, t);
  }

  lemma ReplaceTwoMatches(e: string, p: nat, m1: DaysMatch, m2: DaysMatch, t: string)
    requires p < |e| && m1.end == p && m2.end == |e|
    requires FirstDaysMatch(e, 0) == Some((0, m1)) && FirstDaysMatch(e, p) == Some((p + 1, m2))
    ensures ReplaceDays(e, 0, t) == t + e[p..p + 1] + t
  {
    ReplaceEnd(e, t);
    ReplaceStep(e, p, p + 1, m2, t);
    ReplaceStep(e, 0, 0, m1, t);
    JoinAround(e[0..0], t, e[p..p + 1], ReplaceDays(e, |e|, t), ReplaceDays(e, p, t), ReplaceDays(e, 0, t));
  }

  /** The two steps of a two-match replacement put together. */
  lemma JoinAround<T>(none: seq<T>, t: seq<T>, x: seq<T>, tail: seq<T>, rest: seq<T>, whole: seq<T>)
    requires |none| == 0 && tail == [] && rest == x + t + tail && whole == none + t + rest
    ensures whole == t + x + t
  {
  }

  /**
   * A text whose scan finds two matches, the first at the start and the second
   * one character after it and running to the end (as in
   * `DAYS_BETWEEN(a,b)+DAYS_BETWEEN(c,d)`, see `TwoCallsScan`): the corrected
   * replacement rewrites each match from its own groups.
   */
  lemma TwoMatchesEach(e: string, p: nat, m1: DaysMatch, m2: DaysMatch)
    requires p < |e| && m1.end == p && m2.end == |e|
    requires FirstDaysMatch(e, 0) == Some((0, m1)) && FirstDaysMatch(e, p) == Some((p + 1, m2))
    ensures ReplaceDaysEach(e, 0) == DaysReplacement(m1.date1, m1.date2) + e[p..p + 1] + DaysReplacement(m2.date1, m2.date2)
  {
    LastMatchEach(e, p, m2);
    FirstMatchEach(e, m1);
  }

  lemma LastMatchEach(e: string, p: nat, m: DaysMatch)
    requires p < |e| && m.end == |e| && FirstDaysMatch(e, p) == Some((p + 1, m))
    ensures ReplaceDaysEach(e, p) == e[p..p + 1] + DaysReplacement(m.date1, m.date2)
  {
    EachEnd(e);
    EachStep(e, p, p + 1, m);
  }

  lemma FirstMatchEach(e: string, m: DaysMatch)
    requires FirstDaysMatch(e, 0) == Some((0, m))
    ensures ReplaceDaysEach(e, 0) == DaysReplacement(m.date1, m.date2) + ReplaceDaysEach(e, m.end)
  {
    EachStep(e, 0, 0, m);
    assert e[0..0] == [];
    EmptyPrefix(DaysReplacement(m.date1, m.date2), ReplaceDaysEach(e, m.end));
  }

  lemma EmptyPrefix(x: string, y: string)
    ensures [] + x + y == x + y
  {
  }

  lemma EachEnd(s: string)
    ensures ReplaceDaysEach(s, |s|) == []
  {
    NoMatchAtEnd(s);
  }

  lemma EachStep(s: string, from: nat, i: nat, m: DaysMatch)
    requires from <= |s| && FirstDaysMatch(s, from) == Some((i, m))
    ensures ReplaceDaysEach(s, from) == s[from..i] + DaysReplacement(m.date1, m.date2) + ReplaceDaysEach(s, m.end)
  {
  }

  /**
   * An expression opening with a `DAYS_BETWEEN` call in the matched form is
   * refused, and the suggestion puts the first match's rewrite in place of
   * every match.
   */
  lemma DaysVerdict(e: string)
    requires CallAt(e, 0, DaysBetween) && FirstDaysMatch(e, 0).Some?
    ensures var m := FirstDaysMatch(e, 0).value.1;
      ValidateExpressionFormat(e)
      == Invalid(UnsupportedFunction(UnsupportedFunctions[0]), Some(ReplaceDays(e, 0, DaysReplacement(m.date1, m.date2))))
  {
    assert Calls(e, DaysBetween);
    assert FirstUnsupported(e, UnsupportedFunctions) == Some(UnsupportedFunctions[0]);
  }

  /** Every match from `from` on has groups whose rewrite is `replacement`. */
  predicate MatchesRewriteTo(s: string, from: nat, replacement: string)
    requires from <= |s|
    decreases |s| - from
  {
    match FirstDaysMatch(s, from)
    case None => true
    case Some((_, m)) => DaysReplacement(m.date1, m.date2) == replacement && MatchesRewriteTo(s, m.end, replacement)
  }

  /** The two replacements agree when every match rewrites to the same text. */
  lemma {:induction false} EachAgreesWhenUniform(s: string, from: nat, replacement: string)
    requires from <= |s| && MatchesRewriteTo(s, from, replacement)
    ensures ReplaceDaysEach(s, from) == ReplaceDays(s, from, replacement)
    decreases |s| - from
  {
    match FirstDaysMatch(s, from)
    case None =>
    case Some((_, m)) => EachAgreesWhenUniform(s, m.end, replacement);
  }
}
