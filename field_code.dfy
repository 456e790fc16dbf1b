/**
 * `generate_field_code_from_label` (server/tools/implementations/field_tools.py):
 * the field code the tools make up for a field given only a label.
 */
module FieldCode {
  import opened Json
  import opened Text
  import opened Constants
  import FieldValidator

  /** The class `re.sub` keeps: ASCII letters and digits, kana, kanji and the code symbols; no full-width digits. */
  predicate KeptInCode(c: char)
  {
    IsAsciiLetter(c) || IsAsciiDigit(c) || IsCodeKanaOrSymbol(c)
  }

  /** `re.sub(r'[^...]', '_', label)`: every character outside the class becomes `_`. */
  function Sanitised(text: string): (r: string)
    ensures |r| == |text|
    ensures forall i :: 0 <= i < |text| ==> r[i] == if KeptInCode(text[i]) then text[i] else '_'
  {
    if text == [] then [] else [if KeptInCode(text[0]) then text[0] else '_'] + Sanitised(text[1..])
  }

  /**
   * `generate_field_code_from_label(label)`; `now` stands for `int(time.time())`.
   * Of the kept characters only the ASCII letters have a lower case, so
   * `str.lower()` is `LowerAsciiString` here.
   */
  function GenerateFieldCode(text: string, now: nat): (code: string)
    ensures code != []
  {
    var lowered := LowerAsciiString(Sanitised(text));
    var prefixed := if lowered != [] && IsDecimalDigit(lowered[0]) then "f_" + lowered else lowered;
    if prefixed == [] then "field_" + NatToString(now) else prefixed
  }

  /** The character of the code that stands for a label character. */
  function CodeChar(c: char): char
  {
    if KeptInCode(c) then LowerAscii(c) else '_'
  }

  /**
   * A non-empty label gives one code character per label character, each the
   * kept character in lower case or `_`, after an `f_` exactly when the label
   * starts with an ASCII digit.
   */
  lemma GeneratedFromLabel(text: string, now: nat)
    requires text != []
    ensures var code := GenerateFieldCode(text, now);
      var offset := if IsAsciiDigit(text[0]) then 2 else 0;
      |code| == |text| + offset && code[..offset] == "f_"[..offset]
      && forall i :: 0 <= i < |text| ==> code[offset + i] == CodeChar(text[i])
  {
    var lowered := LowerAsciiString(Sanitised(text));
    assert lowered[0] == CodeChar(text[0]);
  }

  /** An empty label gives the time-stamped code. */
  lemma GeneratedFromEmptyLabel(now: nat)
    ensures GenerateFieldCode("", now) == "field_" + NatToString(now)
  {
  }

  /** Every generated code matches the field-code pattern and does not start with a digit. */
  lemma GeneratedCodeWellFormed(text: string, now: nat)
    ensures var code := GenerateFieldCode(text, now);
      MatchesFieldCodePattern(code) && !IsDecimalDigit(code[0])
  {
    var code := GenerateFieldCode(text, now);
    GeneratedCodeSettled(text, now);
    SettledCodeMatches(code);
    GeneratedCodeFirst(text, now);
  }

  lemma SettledCodeMatches(code: string)
    requires code != [] && SettledCode(code)
    ensures MatchesFieldCodePattern(code)
  {
    assert KeptInCode(code[|code| - 1]);
    assert AnchoredBody(code) == code;
  }

  lemma GeneratedCodeFirst(text: string, now: nat)
    ensures GenerateFieldCode(text, now) != [] && !IsDecimalDigit(GenerateFieldCode(text, now)[0])
  {
    var lowered := LowerAsciiString(Sanitised(text));
    if lowered != [] && IsDecimalDigit(lowered[0]) {
      assert ("f_" + lowered)[0] == 'f';
    } else if lowered == [] {
      assert ("field_" + NatToString(now))[0] == 'f';
    }
  }

  /** A generated code passes `validate_field_code` exactly when it is not one of the system field codes. */
  lemma GeneratedCodeAccepted(text: string, now: nat)
    ensures var code := GenerateFieldCode(text, now);
      FieldValidator.ValidateFieldCode(JStr(code)).Ok? <==> code !in SystemFieldCodes
  {
    GeneratedCodeWellFormed(text, now);
  }

  /** A label spelling a system field code gives that code back, which the validator then refuses. */
  lemma GeneratedCodeCanBeReserved(now: nat)
    ensures GenerateFieldCode("作成者", now) == "作成者"
    ensures FieldValidator.ValidateFieldCode(JStr(GenerateFieldCode("作成者", now))).Err?
  {
    assert Sanitised("作成者") == "作成者";
    assert LowerAsciiString("作成者") == "作成者";
  }

  /** A code the generator maps to itself: kept characters only, none of them upper case. */
  predicate SettledCode(code: string)
  {
    forall i :: 0 <= i < |code| ==> KeptInCode(code[i]) && !IsAsciiUpper(code[i])
  }

  lemma CodeCharSettled(c: char)
    ensures KeptInCode(CodeChar(c)) && !IsAsciiUpper(CodeChar(c))
  {
  }

  lemma GeneratedCodeSettled(text: string, now: nat)
    ensures SettledCode(GenerateFieldCode(text, now))
  {
    var lowered := LowerAsciiString(Sanitised(text));
    if text == [] {
      StampCodeSettled(now);
    } else {
      LoweredSettled(text);
      if IsDecimalDigit(lowered[0]) {
        SettledConcat("f_", lowered);
      }
    }
  }

  lemma SettledConcat(a: string, b: string)
    requires SettledCode(a) && SettledCode(b)
    ensures SettledCode(a + b)
  {
    forall i | 0 <= i < |a + b| ensures KeptInCode((a + b)[i]) && !IsAsciiUpper((a + b)[i]) {
      if i >= |a| {
        assert (a + b)[i] == b[i - |a|];
      }
    }
  }

  lemma StampCodeSettled(now: nat)
    ensures SettledCode("field_" + NatToString(now))
  {
    var digits := NatToString(now);
    NatToStringAscii(now);
    assert SettledCode(digits);
    SettledConcat("field_", digits);
  }

  lemma LoweredSettled(text: string)
    ensures SettledCode(LowerAsciiString(Sanitised(text)))
  {
    var lowered := LowerAsciiString(Sanitised(text));
    forall i | 0 <= i < |lowered| ensures KeptInCode(lowered[i]) && !IsAsciiUpper(lowered[i]) {
      assert lowered[i] == CodeChar(text[i]);
      CodeCharSettled(text[i]);
    }
  }

  lemma SettledCodeFixed(code: string, now: nat)
    requires code != [] && SettledCode(code) && !IsDecimalDigit(code[0])
    ensures GenerateFieldCode(code, now) == code
  {
    assert Sanitised(code) == code;
    assert LowerAsciiString(code) == code;
  }

  /** Generating a code from a generated code gives it back. */
  lemma GenerateFieldCodeIdempotent(text: string, now: nat)
    ensures var code := GenerateFieldCode(text, now); GenerateFieldCode(code, now) == code
  {
    GeneratedCodeWellFormed(text, now);
    GeneratedCodeSettled(text, now);
    SettledCodeFixed(GenerateFieldCode(text, now), now);
  }
}
