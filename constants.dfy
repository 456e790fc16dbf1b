/** The static tables the validators consult (repositories/validators/constants.py). */
module Constants {

  const NumberType := "NUMBER"
  const CalcType := "CALC"
  const SingleLineTextType := "SINGLE_LINE_TEXT"
  const MultiLineTextType := "MULTI_LINE_TEXT"
  const DatetimeType := "DATETIME"
  const LinkType := "LINK"
  const ReferenceTableType := "REFERENCE_TABLE"
  const SubtableType := "SUBTABLE"

  const ValidUnitPositions: seq<string> := ["BEFORE", "AFTER"]

  /** Unit symbols written before the number: currency signs, then other prefix marks. */
  const BeforeUnits: seq<string> :=
    ["$", "＄", "¥", "￥", "€", "£", "₩", "₹", "฿", "₽", "₴", "₱", "№", "＃", "#"]

  // Unit symbols written after the number, one constant per line of the source table.
  const AfterPercent: seq<string> := ["%", "％"]
  const AfterCurrency: seq<string> := ["円", "ドル", "ユーロ", "ポンド", "元", "ウォン"]
  const AfterWeight: seq<string> := ["kg", "g", "mg", "μg", "ton", "トン"]
  const AfterLength: seq<string> := ["m", "km", "cm", "mm", "μm", "nm"]
  const AfterVolume: seq<string> := ["L", "l", "ml", "mL", "cc", "kl"]
  const AfterCounter: seq<string> := ["個", "点", "枚", "本", "冊", "台", "人", "名", "社", "件", "回"]
  const AfterTime: seq<string> := ["時", "分", "秒", "h", "hr", "min", "sec"]
  const AfterOther: seq<string> := ["度", "°", "℃", "°C", "°F", "K", "A", "V", "W", "Hz", "Ω"]

  const AfterUnits: seq<string> :=
    AfterPercent + AfterCurrency + AfterWeight + AfterLength + AfterVolume + AfterCounter + AfterTime + AfterOther

  const FieldTypesRequiringOptions: seq<string> := ["CHECK_BOX", "RADIO_BUTTON", "DROP_DOWN", "MULTI_SELECT"]

  const CalcFieldFormats: seq<string> :=
    ["NUMBER", "NUMBER_DIGIT", "DATETIME", "DATE", "TIME", "HOUR_MINUTE", "DAY_HOUR_MINUTE"]

  const ValidLinkProtocols: seq<string> := ["WEB", "CALL", "MAIL"]

  /** Field types kintone maintains itself; they never need a place in a form layout. */
  const SystemFieldTypes: seq<string> :=
    ["RECORD_NUMBER", "__ID__", "__REVISION__", "CREATOR", "CREATED_TIME", "MODIFIER", "UPDATED_TIME"]

  const LayoutElementTypes: seq<string> := ["ROW", "GROUP", "SUBTABLE", "LABEL", "SPACER", "HR", "REFERENCE_TABLE"]

  const LookupFieldMinWidth := "250"

  /** Field codes that kintone reserves. */
  const SystemFieldCodes: seq<string> := ["$id", "$revision", "レコード番号", "作成者", "作成日時", "更新者", "更新日時"]

  predicate Distinct(s: seq<string>)
  {
    forall i, j :: 0 <= i < j < |s| ==> s[i] != s[j]
  }

  /** The characters of the BEFORE table. */
  predicate IsPrefixSymbol(c: char)
  {
    c == '$' || c == '＄' || c == '¥' || c == '￥' || c == '€' || c == '£' || c == '₩' || c == '₹'
    || c == '฿' || c == '₽' || c == '₴' || c == '₱' || c == '№' || c == '＃' || c == '#'
  }

  /** Every BEFORE unit is a single prefix symbol. */
  lemma BeforeUnitsAreSymbols()
    ensures forall u :: u in BeforeUnits ==> |u| == 1 && IsPrefixSymbol(u[0])
  {
  }

  predicate NoPrefixSymbolUnit(s: seq<string>)
  {
    forall u :: u in s ==> !(|u| == 1 && IsPrefixSymbol(u[0]))
  }

  lemma PercentNotSymbols() ensures NoPrefixSymbolUnit(AfterPercent) {}
  lemma CurrencyNotSymbols() ensures NoPrefixSymbolUnit(AfterCurrency) {}
  lemma WeightNotSymbols() ensures NoPrefixSymbolUnit(AfterWeight) {}
  lemma LengthNotSymbols() ensures NoPrefixSymbolUnit(AfterLength) {}
  lemma VolumeNotSymbols() ensures NoPrefixSymbolUnit(AfterVolume) {}
  lemma CounterNotSymbols() ensures NoPrefixSymbolUnit(AfterCounter) {}
  lemma TimeNotSymbols() ensures NoPrefixSymbolUnit(AfterTime) {}
  lemma OtherNotSymbols() ensures NoPrefixSymbolUnit(AfterOther) {}

  /** No AFTER unit is a single prefix symbol (checked line by line of the table). */
  lemma AfterUnitsAreNotSymbols()
    ensures NoPrefixSymbolUnit(AfterUnits)
  {
    PercentNotSymbols(); CurrencyNotSymbols(); WeightNotSymbols(); LengthNotSymbols();
    VolumeNotSymbols(); CounterNotSymbols(); TimeNotSymbols(); OtherNotSymbols();
  }

  /** The BEFORE and AFTER tables share no unit. */
  lemma UnitTablesDisjoint()
    ensures forall u :: u in BeforeUnits ==> u !in AfterUnits
  {
    BeforeUnitsAreSymbols();
    AfterUnitsAreNotSymbols();
  }

  /** The seven reserved codes are pairwise distinct and include the two `$` codes. */
  lemma SystemFieldCodesFacts()
    ensures |SystemFieldCodes| == 7 && Distinct(SystemFieldCodes)
    ensures "$id" in SystemFieldCodes && "$revision" in SystemFieldCodes && "作成者" in SystemFieldCodes
  {
  }

  lemma SystemFieldTypesFacts()
    ensures |SystemFieldTypes| == 7 && Distinct(SystemFieldTypes)
    ensures "__ID__" in SystemFieldTypes && "__REVISION__" in SystemFieldTypes
  {
  }

  lemma SmallTablesFacts()
    ensures Distinct(FieldTypesRequiringOptions) && |FieldTypesRequiringOptions| == 4
    ensures Distinct(CalcFieldFormats) && |CalcFieldFormats| == 7
    ensures "NUMBER" in CalcFieldFormats && "NUMBER_DIGIT" in CalcFieldFormats
    ensures ValidLinkProtocols == ["WEB", "CALL", "MAIL"] && ValidUnitPositions == ["BEFORE", "AFTER"]
    ensures LookupFieldMinWidth == "250"
  {
  }
}
