/**
 * The unit-position resolver: whether a NUMBER or CALC field's unit symbol is
 * rendered before or after the number.  The server carries two copies of it,
 * `FieldValidator._determine_unit_position` and the tool-level
 * `determine_unit_position`; both are modelled and shown to agree.
 */
module UnitPosition {
  import opened Text
  import opened Constants

  /** A character that makes a unit "compound" on its own: whitespace, `/`, `-` or `+`. */
  predicate IsSeparator(c: char)
  {
    IsSpace(c) || c == '/' || c == '-' || c == '+'
  }

  /** `[\w぀-ゟ゠-ヿ一-龯]`. */
  predicate IsUnitNameChar(c: char)
  {
    IsWordChar(c) || ('\U{3040}' <= c <= '\U{309F}') || ('\U{30A0}' <= c <= '\U{30FF}') || ('\U{4E00}' <= c <= '\U{9FAF}')
  }

  /** The compound-unit test, evaluated after the length checks. */
  predicate IsCompound(unit: string)
  {
    (exists i :: 0 <= i < |unit| && IsSeparator(unit[i]))
    || (|unit| > 1 && exists i :: 0 <= i < |unit| && !IsUnitNameChar(unit[i]))
  }

  /** `unit in table`, entry by entry. */
  predicate InTable(table: seq<string>, unit: string)
  {
    table != [] && (table[0] == unit || InTable(table[1..], unit))
  }

  lemma {:induction false} InTableIsMembership(table: seq<string>, unit: string)
    ensures InTable(table, unit) <==> unit in table
  {
    if table != [] {
      InTableIsMembership(table[1..], unit);
      assert table == [table[0]] + table[1..];
    }
  }

  /** `[pattern for pattern in patterns if pattern in unit]`. */
  function MatchingPatterns(patterns: seq<string>, unit: string): (r: seq<string>)
    ensures forall p :: p in r <==> p in patterns && Contains(unit, p)
  {
    if patterns == [] then []
    else (if Contains(unit, patterns[0]) then [patterns[0]] else []) + MatchingPatterns(patterns[1..], unit)
  }

  /** The rule that decides, in the order the validator tries them. */
  datatype Rule =
    | NoUnit | TooLong | Compound
    | ExactBoth | ExactBefore | ExactAfter
    | PartialBoth | PartialBefore | PartialAfter
    | NoMatch

  function DecidingRule(unit: string): Rule
  {
    if unit == [] then NoUnit
    else if |unit| >= 4 then TooLong
    else if IsCompound(unit) then Compound
    else if InTable(BeforeUnits, unit) && InTable(AfterUnits, unit) then ExactBoth
    else if InTable(BeforeUnits, unit) then ExactBefore
    else if InTable(AfterUnits, unit) then ExactAfter
    else PartialRule(unit)
  }

  /** The substring rules, tried when no exact match decided. */
  function PartialRule(unit: string): Rule
  {
    var before := MatchingPatterns(BeforeUnits, unit);
    var after := MatchingPatterns(AfterUnits, unit);
    if before != [] && after != [] then PartialBoth
    else if before != [] then PartialBefore
    else if after != [] then PartialAfter
    else NoMatch
  }

  /** `FieldValidator._determine_unit_position`: "BEFORE" only for the two BEFORE rules. */
  function ValidatorUnitPosition(unit: string): (r: string)
    ensures r == "BEFORE" || r == "AFTER"
  {
    match DecidingRule(unit)
    case ExactBefore => "BEFORE"
    case PartialBefore => "BEFORE"
    case _ => "AFTER"
  }

  /** The tool-level `determine_unit_position`, an if-chain of early returns. */
  function ToolsUnitPosition(unit: string): (r: string)
    ensures r == "BEFORE" || r == "AFTER"
  {
    if unit == [] then "AFTER"
    else if |unit| >= 4 then "AFTER"
    else if IsCompound(unit) then "AFTER"
    else
      var isBeforeExact := InTable(BeforeUnits, unit);
      var isAfterExact := InTable(AfterUnits, unit);
      if isBeforeExact && isAfterExact then "AFTER"
      else if isBeforeExact then "BEFORE"
      else if isAfterExact then "AFTER"
      else
        var beforeMatches := MatchingPatterns(BeforeUnits, unit);
        var afterMatches := MatchingPatterns(AfterUnits, unit);
        if beforeMatches != [] && afterMatches != [] then "AFTER"
        else if beforeMatches != [] then "BEFORE"
        else "AFTER"
  }

  /** The two copies return the same position for every unit string. */
  lemma ResolversAgree(unit: string)
    ensures ValidatorUnitPosition(unit) == ToolsUnitPosition(unit)
  {
  }

  /** No prefix symbol is a letter, digit, kana or ideograph. */
  lemma PrefixSymbolIsNotNameChar(c: char)
    requires IsPrefixSymbol(c)
    ensures !IsUnitNameChar(c)
  {
  }

  /** A single prefix symbol is not a compound unit. */
  lemma SymbolNotCompound(unit: string)
    requires |unit| == 1 && IsPrefixSymbol(unit[0])
    ensures !IsCompound(unit)
  {
    PrefixSymbolIsNotNameChar(unit[0]);
  }

  lemma BeforeUnitFacts(unit: string)
    requires unit in BeforeUnits
    ensures |unit| == 1 && IsPrefixSymbol(unit[0]) && unit !in AfterUnits
  {
    BeforeUnitsAreSymbols();
    UnitTablesDisjoint();
  }

  lemma ExactBeforeRule(unit: string)
    requires 0 < |unit| < 4 && !IsCompound(unit) && unit in BeforeUnits && unit !in AfterUnits
    ensures DecidingRule(unit) == ExactBefore
  {
    InTableIsMembership(BeforeUnits, unit);
    InTableIsMembership(AfterUnits, unit);
  }

  /** A BEFORE symbol is decided by the exact BEFORE rule. */
  lemma BeforeUnitIsExactBefore(unit: string)
    requires unit in BeforeUnits
    ensures DecidingRule(unit) == ExactBefore
  {
    BeforeUnitFacts(unit);
    SymbolNotCompound(unit);
    ExactBeforeRule(unit);
  }

  /** A unit that contains a BEFORE symbol is that symbol or is compound. */
  lemma ContainsBeforeSymbol(unit: string, p: string)
    requires p in BeforeUnits && Contains(unit, p)
    ensures unit == p || IsCompound(unit)
  {
    BeforeUnitsAreSymbols();
    assert p == [p[0]];
    ContainsPrefixSymbol(unit, p[0]);
  }

  lemma ContainsPrefixSymbol(unit: string, c: char)
    requires IsPrefixSymbol(c) && Contains(unit, [c])
    ensures unit == [c] || IsCompound(unit)
  {
    ContainsSingle(unit, c);
    var i :| 0 <= i < |unit| && unit[i] == c;
    PrefixSymbolIsNotNameChar(c);
    if |unit| == 1 {
      assert unit == [unit[0]];
    } else {
      assert !IsUnitNameChar(unit[i]);
    }
  }

  lemma PartialBeforeFacts(unit: string)
    requires DecidingRule(unit) == PartialBefore || DecidingRule(unit) == PartialBoth
    ensures !IsCompound(unit) && unit !in BeforeUnits && MatchingPatterns(BeforeUnits, unit) != []
  {
    InTableIsMembership(BeforeUnits, unit);
  }

  /** A partial BEFORE match (alone or with an AFTER match) is never the deciding rule. */
  lemma NoPartialBefore(unit: string)
    ensures DecidingRule(unit) != PartialBefore && DecidingRule(unit) != PartialBoth
  {
    if DecidingRule(unit) == PartialBefore || DecidingRule(unit) == PartialBoth {
      PartialBeforeFacts(unit);
      var p := MatchingPatterns(BeforeUnits, unit)[0];
      assert p in MatchingPatterns(BeforeUnits, unit);
      ContainsBeforeSymbol(unit, p);
      assert false;
    }
  }

  /**
   * With the shipped tables a unit is placed BEFORE exactly when it is itself
   * one of the BEFORE symbols: a longer unit containing such a symbol is
   * compound and falls to AFTER first.
   */
  lemma {:induction false} BeforeIffBeforeUnit(unit: string)
    ensures ValidatorUnitPosition(unit) == "BEFORE" <==> unit in BeforeUnits
  {
    NoPartialBefore(unit);
    InTableIsMembership(BeforeUnits, unit);
    if unit in BeforeUnits {
      BeforeUnitIsExactBefore(unit);
    }
  }

  /** The tie-breaking rules never fire with the shipped tables; nor does a partial BEFORE match. */
  lemma {:induction false} UnreachableRules(unit: string)
    ensures DecidingRule(unit) != ExactBoth && DecidingRule(unit) != PartialBoth && DecidingRule(unit) != PartialBefore
  {
    UnitTablesDisjoint();
    NoPartialBefore(unit);
    InTableIsMembership(BeforeUnits, unit);
    InTableIsMembership(AfterUnits, unit);
  }

  /** The first three rules: no unit, four or more characters, or a compound unit give AFTER. */
  lemma EarlyRulesGiveAfter(unit: string)
    requires unit == [] || |unit| >= 4 || IsCompound(unit)
    ensures ValidatorUnitPosition(unit) == "AFTER"
  {
  }

  /** Every AFTER unit resolves to AFTER. */
  lemma AfterUnitGivesAfter(unit: string)
    requires unit in AfterUnits
    ensures ValidatorUnitPosition(unit) == "AFTER"
  {
    UnitTablesDisjoint();
    BeforeIffBeforeUnit(unit);
  }

  /** `check_unit_position_warning`: `None` (here `[]`) when unit or position is empty or they agree. */
  function UnitPositionWarning(unit: string, position: string): (r: string)
    ensures r == [] <==> unit == [] || position == [] || position == ToolsUnitPosition(unit)
  {
    if unit == [] || position == [] then []
    else
      var recommended := ToolsUnitPosition(unit);
      if position != recommended then
        "単位記号「" + unit + "」には unitPosition=\"" + recommended + "\" が推奨されます。"
        + "現在の設定: \"" + position + "\"。"
        + "例: " + (if recommended == "BEFORE" then "$100, ¥100" else "100円, 100%, 100kg")
      else []
  }

  /** A BEFORE symbol declared BEFORE never draws a warning; declared AFTER it always does. */
  lemma WarningForBeforeSymbol(unit: string)
    requires unit in BeforeUnits
    ensures UnitPositionWarning(unit, "BEFORE") == []
    ensures UnitPositionWarning(unit, "AFTER") != []
  {
    BeforeIffBeforeUnit(unit);
    ResolversAgree(unit);
  }
}
