/**
 * Character classes and string conversions that the Python code gets from
 * `re`, `str` and `int()`.  Each regex class of the source is written out
 * here as an explicit predicate over code points.
 */
module Text {
  import opened Wrappers

  predicate IsAsciiDigit(c: char) { '0' <= c <= '9' }
  predicate IsAsciiUpper(c: char) { 'A' <= c <= 'Z' }
  predicate IsAsciiLower(c: char) { 'a' <= c <= 'z' }
  predicate IsAsciiLetter(c: char) { IsAsciiUpper(c) || IsAsciiLower(c) }
  /** Full-width digits ０-９. */
  predicate IsWideDigit(c: char) { '\U{FF10}' <= c <= '\U{FF19}' }

  /** Python's `\s` on `str` patterns (the characters for which `str.isspace()` holds). */
  predicate IsSpace(c: char)
  {
    ('\U{0009}' <= c <= '\U{000D}') || ('\U{001C}' <= c <= '\U{0020}') || c == '\U{0085}' || c == '\U{00A0}'
    || c == '\U{1680}' || ('\U{2000}' <= c <= '\U{200A}') || c == '\U{2028}' || c == '\U{2029}'
    || c == '\U{202F}' || c == '\U{205F}' || c == '\U{3000}'
  }

  /**
   * Python's `\w` on `str` patterns: letters, digits and the underscore of any
   * script.  The Unicode tables are approximated by the blocks the server's
   * data uses: ASCII, Latin-1 and Latin Extended letters, Greek, Cyrillic,
   * Thai letters, kana, CJK ideographs and the full-width forms.
   * Currency signs, `№`, `#`, `%`, `°` and `℃` are outside it, as in Unicode.
   */
  predicate IsWordChar(c: char)
  {
    IsAsciiLetter(c) || IsAsciiDigit(c) || c == '_'
    || c == '\U{00AA}' || c == '\U{00B5}' || c == '\U{00BA}'
    || ('\U{00C0}' <= c <= '\U{00D6}') || ('\U{00D8}' <= c <= '\U{00F6}') || ('\U{00F8}' <= c <= '\U{024F}')
    || c == '\U{0386}' || ('\U{0388}' <= c <= '\U{03FF}') || ('\U{0400}' <= c <= '\U{0481}') || ('\U{048A}' <= c <= '\U{052F}')
    || ('\U{0E01}' <= c <= '\U{0E30}') || ('\U{0E40}' <= c <= '\U{0E46}') || ('\U{0E50}' <= c <= '\U{0E59}')
    || ('\U{3005}' <= c <= '\U{3007}') || ('\U{3041}' <= c <= '\U{3096}') || ('\U{309D}' <= c <= '\U{309F}')
    || ('\U{30A1}' <= c <= '\U{30FA}') || ('\U{30FC}' <= c <= '\U{30FF}') || ('\U{4E00}' <= c <= '\U{9FFF}')
    || IsWideDigit(c) || ('\U{FF21}' <= c <= '\U{FF3A}') || c == '\U{FF3F}' || ('\U{FF41}' <= c <= '\U{FF5A}')
    || ('\U{FF66}' <= c <= '\U{FF9F}')
  }

  /** `c.lower()` for the ASCII letters; every other character is left alone. */
  function LowerAscii(c: char): (r: char)
    ensures IsAsciiUpper(c) ==> IsAsciiLower(r) && r as int == c as int + 32
    ensures !IsAsciiUpper(c) ==> r == c
  {
    if IsAsciiUpper(c) then (c as int + 32) as char else c
  }

  function LowerAsciiString(s: string): (r: string)
    ensures |r| == |s| && forall i :: 0 <= i < |s| ==> r[i] == LowerAscii(s[i])
  {
    if s == [] then [] else [LowerAscii(s[0])] + LowerAsciiString(s[1..])
  }

  /** Python's `sub in s`. */
  predicate Contains(s: string, sub: string)
  {
    sub <= s || (s != [] && Contains(s[1..], sub))
  }

  /** A one-character `sub` occurs in `s` exactly when that character does. */
  lemma {:induction false} ContainsSingle(s: string, c: char)
    ensures Contains(s, [c]) <==> c in s
  {
    if s != [] {
      ContainsSingle(s[1..], c);
      assert s == [s[0]] + s[1..];
    }
  }

  lemma {:induction false} ContainsSelf(s: string)
    ensures Contains(s, s)
  {
  }

  /** A string that contains `sub` is at least as long as `sub`. */
  lemma {:induction false} ContainsLength(s: string, sub: string)
    requires Contains(s, sub)
    ensures |sub| <= |s|
  {
    if !(sub <= s) {
      ContainsLength(s[1..], sub);
    }
  }

  // Decimal numerals.

  /** The decimal digits `\d` and `int()` accept here: ASCII and full-width. */
  predicate IsDecimalDigit(c: char) { IsAsciiDigit(c) || IsWideDigit(c) }

  function DigitValue(c: char): (d: nat)
    requires IsDecimalDigit(c)
    ensures d < 10
  {
    if IsAsciiDigit(c) then c as int - '0' as int else c as int - '\U{FF10}' as int
  }

  function DigitChar(d: nat): (c: char)
    requires d < 10
    ensures IsAsciiDigit(c) && DigitValue(c) == d
  {
    ('0' as int + d) as char
  }

  predicate AllDigits(s: string)
  {
    forall i :: 0 <= i < |s| ==> IsDecimalDigit(s[i])
  }

  /** The value of a string of decimal digits, most significant first. */
  function DigitsValue(s: string): nat
    requires AllDigits(s)
  {
    if s == [] then 0 else DigitsValue(s[..|s| - 1]) * 10 + DigitValue(s[|s| - 1])
  }

  /** `str(n)` for a natural number: no leading zeros, "0" for zero. */
  function NatToString(n: nat): (s: string)
    ensures s != [] && AllDigits(s)
    ensures |s| > 1 ==> s[0] != '0'
    decreases n
  {
    if n < 10 then [DigitChar(n)] else NatToString(n / 10) + [DigitChar(n % 10)]
  }

  /** `str(n)` writes ASCII digits only. */
  lemma {:induction false} NatToStringAscii(n: nat)
    ensures forall i :: 0 <= i < |NatToString(n)| ==> IsAsciiDigit(NatToString(n)[i])
    decreases n
  {
    if n >= 10 {
      NatToStringAscii(n / 10);
    }
  }

  /** `str(i)` for a Python int. */
  function IntToString(i: int): (s: string)
    ensures s != []
  {
    if i < 0 then "-" + NatToString(-i) else NatToString(i)
  }

  lemma {:induction false} NatToStringValue(n: nat)
    ensures DigitsValue(NatToString(n)) == n
    decreases n
  {
    if n >= 10 {
      NatToStringValue(n / 10);
      var s := NatToString(n);
      assert s[..|s| - 1] == NatToString(n / 10);
    }
  }

  /** `s.strip()` with no argument. */
  function Strip(s: string): (r: string)
    ensures |r| <= |s|
    ensures r != [] ==> !IsSpace(r[0]) && !IsSpace(r[|r| - 1])
  {
    if s == [] then []
    else if IsSpace(s[0]) then Strip(s[1..])
    else if IsSpace(s[|s| - 1]) then Strip(s[..|s| - 1])
    else s
  }

  /** A string made only of whitespace strips to the empty string. */
  lemma {:induction false} StripBlank(s: string)
    ensures Strip(s) == [] <==> forall i :: 0 <= i < |s| ==> IsSpace(s[i])
    decreases |s|
  {
    if s != [] {
      if IsSpace(s[0]) {
        StripBlank(s[1..]);
        assert forall i :: 1 <= i < |s| ==> s[i] == s[1..][i - 1];
      } else if IsSpace(s[|s| - 1]) {
        StripBlank(s[..|s| - 1]);
      }
    }
  }

  /** The digits of a numeral, its underscores dropped. */
  function DropUnderscores(s: string): (r: string)
    ensures (forall i :: 0 <= i < |s| ==> IsDecimalDigit(s[i]) || s[i] == '_') ==> AllDigits(r)
    ensures AllDigits(s) ==> r == s
  {
    if s == [] then []
    else DropUnderscores(s[..|s| - 1]) + (if s[|s| - 1] == '_' then [] else [s[|s| - 1]])
  }

  /** The digit part `int()` accepts: decimal digits, with single underscores between two of them. */
  predicate Numeral(s: string)
  {
    s != [] && forall i :: 0 <= i < |s| ==> NumeralChar(s, i)
  }

  /** Position `i` holds a digit, or an underscore with a digit on either side. */
  predicate NumeralChar(s: string, i: nat)
    requires i < |s|
  {
    IsDecimalDigit(s[i]) || (s[i] == '_' && 0 < i < |s| - 1 && IsDecimalDigit(s[i - 1]) && IsDecimalDigit(s[i + 1]))
  }

  /** The value of a numeral: its digits read without the underscores. */
  function NumeralValue(s: string): nat
    requires Numeral(s)
  {
    assert forall i :: 0 <= i < |s| ==> NumeralChar(s, i) && (IsDecimalDigit(s[i]) || s[i] == '_');
    DigitsValue(DropUnderscores(s))
  }

  /** A numeral starts and ends with a digit. */
  lemma NumeralEnds(s: string)
    requires Numeral(s)
    ensures IsDecimalDigit(s[0]) && IsDecimalDigit(s[|s| - 1])
  {
    assert NumeralChar(s, 0) && NumeralChar(s, |s| - 1);
  }

  /** A plain run of digits is a numeral worth its digits. */
  lemma DigitsNumeral(s: string)
    requires s != [] && AllDigits(s)
    ensures Numeral(s) && NumeralValue(s) == DigitsValue(s)
  {
  }

  /**
   * `int(s)` for a string: surrounding whitespace, an optional sign, then a
   * numeral of decimal digits, ASCII or full-width, possibly grouped by
   * single underscores (`"1_000"`).  `None` stands for the `ValueError`.
   */
  function ParseInt(s: string): (r: Option<int>)
  {
    var t := Strip(s);
    if t == [] then None
    else if t[0] == '-' || t[0] == '+' then
      var body := t[1..];
      if Numeral(body) then
        var v: int := NumeralValue(body);
        Some(if t[0] == '-' then -v else v)
      else None
    else if Numeral(t) then Some(NumeralValue(t))
    else None
  }

  /** `int("1_0")` is 10. */
  lemma UnderscoreGrouping()
    ensures ParseInt("1_0") == Some(10)
  {
    var s := "1_0";
    assert Strip(s) == s;
    assert Numeral(s) by {
      assert NumeralChar(s, 0) && NumeralChar(s, 1) && NumeralChar(s, 2);
    }
    assert DropUnderscores(s) == "10" by {
      assert s[..2][..1] == "1" && s[..1][..0] == [];
    }
    assert DigitsValue("10") == 10 by {
      assert "10"[..1] == "1" && "1"[..0] == [];
    }
  }

  /** A leading, trailing or doubled underscore is refused. */
  lemma UnderscoreMisplaced()
    ensures ParseInt("_1").None?
    ensures ParseInt("1_").None?
    ensures ParseInt("1__0").None?
  {
    assert !IsDecimalDigit('_');
    var a, b := "_1", "1_";
    assert Strip(a) == a && a[0] == '_';
    if Numeral(a) {
      NumeralEnds(a);
    }
    assert Strip(b) == b && b[1] == '_';
    if Numeral(b) {
      NumeralEnds(b);
    }
    var d := "1__0";
    assert Strip(d) == d;
    assert !Numeral(d) by { assert d[1] == '_' && d[2] == '_' && !NumeralChar(d, 1); }
  }

  lemma NotSpaceDigitOrSign(c: char)
    requires IsDecimalDigit(c) || c == '-'
    ensures !IsSpace(c)
  {
  }

  /** `int(str(i)) == i`. */
  lemma IntToStringRoundTrip(i: int)
    ensures ParseInt(IntToString(i)) == Some(i)
  {
    var s := IntToString(i);
    var digits := if i < 0 then NatToString(-i) else NatToString(i);
    NotSpaceDigitOrSign(s[0]);
    NotSpaceDigitOrSign(s[|s| - 1]);
    assert Strip(s) == s;
    NatToStringValue(if i < 0 then -i else i);
    DigitsNumeral(digits);
    if i < 0 {
      assert s[1..] == digits;
    }
  }

  /** Python's `re.fullmatch(r'\d+', s)`. */
  predicate IsDigitString(s: string)
  {
    s != [] && AllDigits(s)
  }

  lemma NatToStringIsDigitString(n: nat)
    ensures IsDigitString(NatToString(n))
  {
  }

  /** The characters `validate_field_code` allows: `[a-zA-Z0-9０-９ぁ-んァ-ヶー一-龠々＿_･・＄￥]`. */
  predicate IsFieldCodeChar(c: char)
  {
    IsAsciiLetter(c) || IsAsciiDigit(c) || IsWideDigit(c) || IsCodeKanaOrSymbol(c)
  }

  /**
   * The class of the `table.field` pattern of `_validate_expression_format`:
   * `[a-zA-Z0-9ぁ-んァ-ヶー一-龠々＿_･・＄￥]`, the field-code class without
   * the full-width digits.
   */
  predicate IsTableRefChar(c: char)
  {
    IsAsciiLetter(c) || IsAsciiDigit(c) || IsCodeKanaOrSymbol(c)
  }

  /** The part of the field-code class shared with `generate_field_code_from_label`: kana, kanji and the symbols. */
  predicate IsCodeKanaOrSymbol(c: char)
  {
    ('\U{3041}' <= c <= '\U{3093}') || ('\U{30A1}' <= c <= '\U{30F6}') || c == '\U{30FC}'
    || ('\U{4E00}' <= c <= '\U{9FA0}') || c == '\U{3005}' || c == '\U{FF3F}' || c == '_'
    || c == '\U{FF65}' || c == '\U{30FB}' || c == '\U{FF04}' || c == '\U{FFE5}'
  }

  /** The line `^...$` anchors: the whole string, or the string without one final newline. */
  function AnchoredBody(s: string): (b: string)
    ensures |b| <= |s|
  {
    if |s| > 0 && s[|s| - 1] == '\n' then s[..|s| - 1] else s
  }

  /** `re.match(r'^[...]+$', s)` for the field-code class. */
  predicate MatchesFieldCodePattern(s: string)
  {
    var b := AnchoredBody(s);
    b != [] && forall i :: 0 <= i < |b| ==> IsFieldCodeChar(b[i])
  }

  /** `re.match(r'^\d+$', s)`. */
  predicate MatchesDigitsPattern(s: string)
  {
    IsDigitString(AnchoredBody(s))
  }

  /** `re.sub(r'[^0-9.]', '', s)`: the ASCII digits and dots of `s`, in order. */
  function KeepNumeric(s: string): (r: string)
    ensures |r| <= |s|
    ensures forall i :: 0 <= i < |r| ==> IsAsciiDigit(r[i]) || r[i] == '.'
    ensures (forall i :: 0 <= i < |s| ==> IsAsciiDigit(s[i]) || s[i] == '.') ==> r == s
  {
    if s == [] then []
    else if IsAsciiDigit(s[0]) || s[0] == '.' then [s[0]] + KeepNumeric(s[1..])
    else KeepNumeric(s[1..])
  }

  /** Position of the first `c` in `s`, or `|s|` when there is none. */
  function FindChar(s: string, c: char): (i: nat)
    ensures i <= |s| && (i < |s| ==> s[i] == c)
    ensures forall j :: 0 <= j < i ==> s[j] != c
  {
    if s == [] then 0 else if s[0] == c then 0 else 1 + FindChar(s[1..], c)
  }

  /**
   * `float(s)` for a string of ASCII digits and dots: at least one digit and
   * at most one dot, giving the value `mant / 10^exp`; `None` is the
   * `ValueError`.
   */
  function ParseDigitsAndDot(s: string): (r: Option<(nat, nat)>)
    requires forall i :: 0 <= i < |s| ==> IsAsciiDigit(s[i]) || s[i] == '.'
    ensures r.Some? ==> exists i :: 0 <= i < |s| && IsAsciiDigit(s[i])
    ensures (s != [] && forall i :: 0 <= i < |s| ==> IsAsciiDigit(s[i])) ==> r == Some((DigitsValue(s), 0))
  {
    var d := FindChar(s, '.');
    var whole := s[..d];
    var frac := if d < |s| then s[d + 1..] else [];
    if whole + frac == [] then None
    else if !AllDigits(frac) then None
    else
      assert AllDigits(whole + frac) by {
        forall i | 0 <= i < |whole + frac| ensures IsDecimalDigit((whole + frac)[i]) {
          if i >= |whole| { assert (whole + frac)[i] == frac[i - |whole|]; }
        }
      }
      assert whole + frac != [] ==> exists i :: 0 <= i < |s| && IsAsciiDigit(s[i]) by {
        if whole != [] { assert IsAsciiDigit(s[0]); }
        else if frac != [] { assert IsAsciiDigit(s[d + 1]); }
      }
      assert (forall i :: 0 <= i < |s| ==> IsAsciiDigit(s[i])) ==> d == |s|;
      assert d == |s| ==> whole + frac == s;
      Some((DigitsValue(whole + frac), |frac|))
  }
}
