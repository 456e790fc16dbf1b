# kintone MCP server: field, layout and model rules in Dafny

This project models the synchronous core of a kintone MCP server. The server checks, repairs and reconciles kintone **field definitions** and **form layouts** before it sends them to kintone through a Node.js wrapper. Around that core are the pydantic validators of its request and settings models, the credentials and record models, the converters that reshape kintone responses, the exception hierarchy, the JSON-RPC error responses and the MCP log-level mapping.

Python values are modelled by one datatype, `Json.Json`, with `None`, booleans, ints, decimal floats, strings, lists and insertion-ordered dicts. A `raise` becomes an `Err` of a `Wrappers.Result`. Each file models one source file:

| file | module | models |
|---|---|---|
| constants.dfy | Constants | the static tables of `repositories/validators/constants.py` |
| unit_position.dfy | UnitPosition | the unit-position resolver, in both copies (validator and tool), and that the two agree |
| field_validator.dfy | FieldValidator | `FieldValidator.validate_field` and its per-type checks |
| expression_format.dfy | ExpressionFormat | `_validate_expression_format`, the stand-alone CALC expression advice |
| field_tools.dfy, field_code.dfy, field_handlers.dfy | FieldTools, FieldCode, FieldHandlers | the tool-side unit repair, field-code generation and the pure parts of `handle_field_tools` |
| layout_validator.dfy | LayoutValidator | the fail-fast layout validator, with its in-place defaults |
| layout_utils.dfy | LayoutUtils | code extraction, missing fields, lookup widths |
| layout_tools.dfy, layout_build.dfy, layout_edit.dfy | LayoutTools, LayoutBuilders, LayoutEdit | the helpers of `layout_tools.py`: analysis, lenient validation, pruning, auto-organising, the builders and element insertion |
| field_models.dfy, app_models.dfy, request_models.dfy, model_checks.dfy | FieldModels, AppModels, RequestModels, ModelChecks | the pydantic validator bodies of `kintone_field.py`, `kintone_app.py` and `validation_models.py` |
| credentials.dfy, encoding.dfy | Credentials, Encoding | `KintoneCredentials`, with the UTF-8 and base 64 encodings of the basic-authentication header |
| record.dfy | Record | the class `KintoneRecord` |
| converters.dfy | Converters | `KintoneDataConverter` and the converter choice of `parse_response` |
| exceptions.dfy | Exceptions | the exception constructors and `create_error_from_nodejs_response` |
| error_handler.dfy | ErrorHandler | JSON-RPC 2.0 error responses and the parameter checks |
| logging_levels.dfy | LoggingLevels | the MCP / RFC 5424 log-level mapping and its inverse |
| json.dfy, text.dfy, wrappers.dfy | Json, Text, Wrappers | Python values, the string and character operations used, and `Option`/`Result` |

Where the code does something in place, the model does too: `KintoneRecord` is a class whose `SetFieldValue` changes its `fields`, and loops such as `_convert_fields`, `to_update_format`, `validate_required_params`, the layout walkers and the builders' row accumulators are methods with loop invariants. Each such method is proved equal to a specification function, and the lemmas state what that function means.

Two behaviours of the code worth noting:
- `validate_field` never calls `_validate_expression_format`. So validating a CALC field does not reject `DAYS_BETWEEN`. The expression check is a separate function that returns a verdict rather than raising.
- `validate_text_field` accepts any `maxLength` that `int()` turns into a number from 1 to 64000, strings included.

## Model

| member | source | states |
|---|---|---|
| Constants.BeforeUnitsAreSymbols | src/python/repositories/validators/constants.py:14-37 | every unit of the BEFORE table is one prefix symbol character (currency, number and similar signs) |
| Constants.AfterUnitsAreNotSymbols | src/python/repositories/validators/constants.py:14-37 | no unit of the AFTER table is a single prefix symbol |
| Constants.UnitTablesDisjoint | src/python/repositories/validators/constants.py:14-37 | the BEFORE and AFTER unit tables share no unit |
| Constants.SystemFieldTypesFacts | src/python/repositories/validators/constants.py:105-113 | SYSTEM_FIELD_TYPES has exactly seven distinct tags, among them `__ID__` and `__REVISION__` |
| Constants.SmallTablesFacts | src/python/repositories/validators/constants.py:11-77 | FIELD_TYPES_REQUIRING_OPTIONS has four distinct entries, CALC_FIELD_FORMATS seven including NUMBER and NUMBER_DIGIT, the link protocols are WEB, CALL, MAIL, the unit positions BEFORE, AFTER, and LOOKUP_FIELD_MIN_WIDTH is "250" |
| Constants.SystemFieldCodesFacts | src/python/repositories/validators/constants.py:179-186 | SYSTEM_FIELD_CODES has exactly seven distinct codes, among them `$id`, `$revision` and 作成者 |
| UnitPosition.MatchingPatterns | src/python/repositories/validators/field_validator.py:209-211 | the partial-match list holds exactly the table patterns that occur inside the unit |
| UnitPosition.ValidatorUnitPosition | src/python/repositories/validators/field_validator.py:164-229 | the validator's resolver answers only BEFORE or AFTER (its rule order is stated by the lemmas below) |
| UnitPosition.ToolsUnitPosition | src/python/server/tools/implementations/field_tools.py:19-97 | the tool-level resolver answers only BEFORE or AFTER |
| UnitPosition.ResolversAgree | src/python/server/tools/implementations/field_tools.py:19-97 | the two textual copies of the resolver give the same answer for every unit string |
| UnitPosition.EarlyRulesGiveAfter | src/python/repositories/validators/field_validator.py:174-187 | an empty unit, a unit of four or more characters, or a compound unit resolves to AFTER |
| UnitPosition.BeforeUnitIsExactBefore | src/python/repositories/validators/field_validator.py:197-201 | every BEFORE-table unit is decided by the exact BEFORE-only rule |
| UnitPosition.AfterUnitGivesAfter | src/python/repositories/validators/field_validator.py:203-206 | every AFTER-table unit resolves to AFTER |
| UnitPosition.ContainsBeforeSymbol | src/python/repositories/validators/field_validator.py:185-211 | a unit containing a BEFORE symbol is that symbol or is compound |
| UnitPosition.NoPartialBefore | src/python/repositories/validators/field_validator.py:217-220 | the partial-BEFORE rules (alone or tied) never decide a unit with the shipped tables |
| UnitPosition.UnreachableRules | src/python/repositories/validators/field_validator.py:193-215 | with the shipped tables neither tie-break rule (exact or partial match in both lists) is ever reached |
| UnitPosition.BeforeIffBeforeUnit | src/python/repositories/validators/field_validator.py:164-229 | a unit resolves to BEFORE if and only if it is itself a BEFORE-table symbol |
| UnitPosition.UnitPositionWarning | src/python/server/tools/implementations/field_tools.py:138-164 | no warning exactly when the unit or the position is empty or the position equals the resolver's answer |
| UnitPosition.WarningForBeforeSymbol | src/python/server/tools/implementations/field_tools.py:138-164 | a BEFORE symbol declared BEFORE draws no warning, declared AFTER it always does |
| FieldValidator.ResolveUnit | src/python/repositories/validators/field_validator.py:246-254 | a string unit gets exactly the resolver's answer; any answer is BEFORE or AFTER |
| FieldValidator.AutoCorrectUnitPosition | src/python/repositories/validators/field_validator.py:232-270 | models `_auto_correct_unit_position` on the copy; its contract only says the result is a dict, what it changes is stated by AutoCorrectKeeps and ValidateFieldFillsPosition |
| FieldValidator.AutoCorrectKeeps | src/python/repositories/validators/field_validator.py:232-270 | the correction changes nothing but `unitPosition`, and a field with a truthy `unitPosition` comes back unchanged |
| FieldValidator.AutoCorrectSettles | src/python/repositories/validators/field_validator.py:232-270 | once corrected, a field with the same type, unit and position is left alone by a second correction |
| FieldValidator.ValidateFieldCode | src/python/repositories/validators/field_validator.py:273-317 | a code passes iff it is a string, not one of the seven reserved codes, and wholly in the allowed character class; a reserved code raises the reserved-code error first |
| FieldValidator.OptionEntriesCheckOk | src/python/repositories/validators/field_validator.py:359-413 | the options loop passes iff every entry is a dict with a truthy label and a string `index` of digits |
| FieldValidator.OptionsVerdictOk | src/python/repositories/validators/field_validator.py:320-415 | for a choice type, the options pass iff they are a non-empty dict whose every entry is acceptable |
| FieldValidator.ValidateOptions | src/python/repositories/validators/field_validator.py:320-415 | the loop that raises at the first bad entry returns exactly the verdict of the option rules |
| FieldValidator.NumberDisplayCheck | src/python/repositories/validators/field_validator.py:656-691 | the numeric settings pass iff `digit` is a boolean or a "true"/"false" string, `displayScale` converts to an int in 0..10, and a truthy `unitPosition` is BEFORE or AFTER |
| FieldValidator.ValidateCalc | src/python/repositories/validators/field_validator.py:502-581 | models `validate_calc_field` in the source's order; its contract only says an accepted result is a dict (see ValidateCalcShape, CalcResult, ValidateCalcNotIdempotent) |
| FieldValidator.ValidateCalcShape | src/python/repositories/validators/field_validator.py:502-581 | an accepted CALC field has a non-blank expression and one of the seven formats |
| FieldValidator.CalcNormaliseKeeps | src/python/repositories/validators/field_validator.py:517-528 | the formula move and the digit promotion change only `formula`, `expression` and `format` |
| FieldValidator.CalcResult | src/python/repositories/validators/field_validator.py:502-581 | an accepted CALC field is its normalised form, possibly with format NUMBER_DIGIT added |
| FieldValidator.CalcKeeps | src/python/repositories/validators/field_validator.py:502-581 | validating a CALC field changes only `formula`, `expression` and `format` |
| FieldValidator.NormalisedDigitFormat | src/python/repositories/validators/field_validator.py:524-528 | after normalisation `digit` true never sits beside a missing or NUMBER format |
| FieldValidator.CalcResultDigitFormat | src/python/repositories/validators/field_validator.py:524-528 | an accepted CALC field never has `digit` true with format NUMBER |
| FieldValidator.LinkCheck | src/python/repositories/validators/field_validator.py:584-604 | a LINK field passes iff `protocol` is WEB, CALL or MAIL |
| FieldValidator.ReferenceTableCheck | src/python/repositories/validators/field_validator.py:607-653 | an accepted referenceTable is a dict that is complete |
| FieldValidator.ReferenceTableCheckComplete | src/python/repositories/validators/field_validator.py:607-653 | a referenceTable passes iff it names `relatedApp.app` or `relatedApp.code`, `condition.field` and `condition.relatedField`, and any `size` is 1, 3, 5, 10, 20, 30, 40 or 50 as int or string |
| FieldValidator.TextCheck | src/python/repositories/validators/field_validator.py:694-719 | a text field passes iff `maxLength` is absent or converts to an int in 1..64000 |
| FieldValidator.DatetimeCheck | src/python/repositories/validators/field_validator.py:722-742 | a date/time field passes iff `defaultNowValue` is absent or a boolean |
| FieldValidator.AfterCheck | src/python/repositories/validators/field_validator.py:90-158 | a passing check keeps the field and a failing one raises its error |
| FieldValidator.CalcValidation | src/python/repositories/validators/field_validator.py:99-100 | the CALC step in the chosen order: the source's `validate_calc_field` (as written) or the corrected default-first check; an accepted result is a dict |
| FieldValidator.TypeSpecificChecks | src/python/repositories/validators/field_validator.py:90-152 | the type dispatch returns a dict when it passes; by default its CALC branch is the source's order |
| FieldValidator.TypeSpecificChecksResult | src/python/repositories/validators/field_validator.py:90-152 | in either CALC order, only the CALC branch can change the field, and it returns that order's CALC check; every other type is checked and kept as is |
| FieldValidator.TypeSpecificChecksKeeps | src/python/repositories/validators/field_validator.py:90-152 | in either CALC order, the type dispatch changes nothing outside the CALC repair keys |
| FieldValidator.LookupHint | src/python/repositories/validators/field_validator.py:155-159 | the hint step returns a dict |
| FieldValidator.LookupHintKeeps | src/python/repositories/validators/field_validator.py:865-878 | the lookup hint changes only `_recommendedMinWidth` |
| FieldValidator.LookupHintIdempotent | src/python/repositories/validators/field_validator.py:155-159 | adding the lookup hint twice is the same as once |
| FieldValidator.ValidateField | src/python/repositories/validators/field_validator.py:74-161 | models `validate_field` on a copy, with the source's CALC order by default; its contract only says the result is a dict, the lemmas below state what it does |
| FieldValidator.ValidateFieldStages | src/python/repositories/validators/field_validator.py:74-161 | a successful validation resolved the unit, accepted any truthy code, and, when typed, passed the type checks and added the lookup hint, in that order |
| FieldValidator.ValidateFieldOnlyRepairs | src/python/repositories/validators/field_validator.py:74-161 | a successful validation changes no key outside `unitPosition`, the CALC repair keys and `_recommendedMinWidth` |
| FieldValidator.ValidateFieldKeepsCode | src/python/repositories/validators/field_validator.py:74-161 | a successful validation keeps the field's code and type |
| FieldValidator.ValidateFieldKeepsExplicitPosition | src/python/repositories/validators/field_validator.py:241-270 | an explicit `unitPosition` is never overwritten |
| FieldValidator.ValidateFieldFillsPosition | src/python/repositories/validators/field_validator.py:241-258 | a NUMBER or CALC field with a non-empty unit and no position gets the resolver's answer |
| FieldValidator.ValidateFieldCodeAccepted | src/python/repositories/validators/field_validator.py:88-89 | a validated field's truthy code is a string outside the reserved codes and inside the character class |
| FieldValidator.ValidateFieldRejectsReservedCode | src/python/repositories/validators/field_validator.py:287-299 | a field whose code is reserved is refused with the reserved-code error |
| FieldValidator.CodeStageFails | src/python/repositories/validators/field_validator.py:88-89 | a code rejected by the code check is the error validation raises |
| FieldValidator.ValidateFieldFixpoint | src/python/repositories/validators/field_validator.py:74-161 | a field every stage leaves alone validates to itself |
| FieldValidator.TypeSpecificChecksStable | src/python/repositories/validators/field_validator.py:90-159 | with the corrected default-first CALC order, the type checks accept their own hinted result again unchanged (the source's order does not: see ValidateFieldNotIdempotent) |
| FieldValidator.ValidateFieldIdempotent | src/python/repositories/validators/field_validator.py:74-161 | with the corrected default-first CALC order, validating a validated field returns it unchanged |
| FieldValidator.ValidateFieldNotIdempotent | src/python/repositories/validators/field_validator.py:74-161 | as written, a CALC field with a non-blank expression, no unit, code, lookup, digit or format and a displayScale above 10 is accepted with NUMBER_DIGIT added, its result is then refused with the display-scale error, and the corrected order refuses it at once |
| FieldValidator.DefaultFirstRefinesValidateField | src/python/repositories/validators/field_validator.py:74-161 | whenever the corrected validator accepts a field, the source's validator returns the same result |
| FieldValidator.ValidateCalcNotIdempotent | src/python/repositories/validators/field_validator.py:537-579 | as written, a CALC field with no format, no digit and displayScale above 10 is accepted with NUMBER_DIGIT added, and that result is then refused; the default-first order refuses it at once |
| FieldValidator.NotIdempotentWitness | src/python/repositories/validators/field_validator.py:537-579 | the field {type CALC, expression "a", displayScale 11} passes once and fails on its own result |
| FieldValidator.ValidateCalcDefaultFirst | src/python/repositories/validators/field_validator.py:502-581 | the corrected CALC check (format defaulted before the numeric checks) returns a dict when it passes |
| FieldValidator.DefaultFirstResult | src/python/repositories/validators/field_validator.py:502-581 | an accepted default-first CALC field passes the checks again, has a non-blank expression and an allowed format |
| FieldValidator.DefaultFirstRefinesCalc | src/python/repositories/validators/field_validator.py:502-581 | whenever the default-first check accepts, the source's order accepts with the same result |
| FieldValidator.ValidateCalcDefaultFirstIdempotent | src/python/repositories/validators/field_validator.py:502-581 | with the default chosen first, a CALC field's result is accepted again unchanged |
| ExpressionFormat.FirstUnsupported | src/python/repositories/validators/field_validator.py:429-453 | the first unsupported function, in table order, whose name followed by `(` occurs case-insensitively; none iff no listed function is called |
| ExpressionFormat.FirstDaysMatch | src/python/repositories/validators/field_validator.py:434-436 | a match it returns starts at or after the given position and is a `DAYS_BETWEEN(a, b)` match there, with the dates read at that position |
| ExpressionFormat.FirstDaysMatchNone | src/python/repositories/validators/field_validator.py:434-436 | when no match is found from a position on, no position from there to the end starts a `DAYS_BETWEEN(a, b)` match |
| ExpressionFormat.FirstDaysMatchLeftmost | src/python/repositories/validators/field_validator.py:434-436 | no position between the starting point and the match found starts a match, so the match found is the leftmost |
| ExpressionFormat.ValidateExpressionFormat | src/python/repositories/validators/field_validator.py:418-499 | an unsupported-function verdict names a listed function the expression calls; a suggestion comes only with a table-qualified reference or a `DAYS_BETWEEN` call; an empty-expression verdict means the expression is blank |
| ExpressionFormat.ValidIff | src/python/repositories/validators/field_validator.py:418-499 | an expression is valid iff it calls no unsupported function, has no `table.field` reference (ASCII letters and digits, half-width kana and the code symbols, without full-width digits) once decimal literals are protected, and is not blank |
| ExpressionFormat.UnsupportedRefused | src/python/repositories/validators/field_validator.py:429-453 | calling a listed function makes the expression invalid with an unsupported-function problem naming a listed function |
| ExpressionFormat.KelvinSignCallRefused | src/python/repositories/validators/field_validator.py:429-431 | `VLOO\u212AUP(x)`, spelled with the Kelvin sign, is refused as an unsupported-function call, since `re.IGNORECASE` folds that sign onto `K` |
| ExpressionFormat.DaysBetweenSuggestion | src/python/repositories/validators/field_validator.py:433-447 | `DAYS_BETWEEN(a,b)` is refused with the suggestion `ROUNDDOWN(DATE_FORMAT(a, "YYYY/MM/DD") - DATE_FORMAT(b, "YYYY/MM/DD"), 0)` |
| ExpressionFormat.DaysCallMatched | src/python/repositories/validators/field_validator.py:434-436 | the `DAYS_BETWEEN` pattern matches a plain call with its two arguments as groups |
| ExpressionFormat.SingleMatch | src/python/repositories/validators/field_validator.py:434-441 | with one match covering the text, the as-written and the per-call rewrite agree |
| ExpressionFormat.TwoCallsScan | src/python/repositories/validators/field_validator.py:434-441 | `DAYS_BETWEEN(a,b)+DAYS_BETWEEN(c,d)` holds exactly two matches, the second after the `+` |
| ExpressionFormat.TwoCallsAsWritten | src/python/repositories/validators/field_validator.py:437-441 | as written, both calls of `DAYS_BETWEEN(a,b)+DAYS_BETWEEN(c,d)` are replaced by the rewrite of `a` and `b` |
| ExpressionFormat.TwoMatchesAsWritten | src/python/repositories/validators/field_validator.py:437-441 | as written, every match of a two-match scan gets the first match's rewrite |
| ExpressionFormat.TwoMatchesEach | src/python/repositories/validators/field_validator.py:437-441 | the corrected rewrite replaces each of two matches by the rewrite of its own arguments |
| ExpressionFormat.DaysVerdict | src/python/repositories/validators/field_validator.py:429-447 | an expression opening with a matched `DAYS_BETWEEN` call is refused, and the suggestion replaces every match by the rewrite of the first match's arguments, as written |
| ExpressionFormat.TwoCallsVerdict | src/python/repositories/validators/field_validator.py:429-447 | `DAYS_BETWEEN(a,b)+DAYS_BETWEEN(c,d)` is refused with the suggestion that rewrites both calls from `a` and `b` |
| ExpressionFormat.EachAgreesWhenUniform | src/python/repositories/validators/field_validator.py:437-441 | the corrected and the as-written rewrite agree whenever every match rewrites to the same text |
| ExpressionFormat.TableReferenceRewritten | src/python/repositories/validators/field_validator.py:471-489 | `table.field` is refused as a table-qualified reference with suggestion `field` |
| ExpressionFormat.DecimalLiteralNotReference | src/python/repositories/validators/field_validator.py:455-474 | a decimal literal such as `1.5` looks like `x.y` to the reference pattern, yet the expression stays valid because literals are protected first |
| ExpressionFormat.ProtectDecimalTail | src/python/repositories/validators/field_validator.py:455-469 | a decimal literal after a digit-free prefix is replaced by the first placeholder and recorded |
| FieldCode.Sanitised | src/python/server/tools/implementations/field_tools.py:178 | each label character outside the allowed class becomes `_`, every other character is kept, and the length is unchanged |
| FieldCode.GenerateFieldCode | src/python/server/tools/implementations/field_tools.py:167-188 | the generated code is never empty |
| FieldCode.GeneratedFromLabel | src/python/server/tools/implementations/field_tools.py:177-183 | a non-empty label gives one code character per label character, each the kept character lower-cased or `_`, after an `f_` exactly when the label starts with a digit |
| FieldCode.GeneratedFromEmptyLabel | src/python/server/tools/implementations/field_tools.py:185-186 | an empty label gives `field_` followed by the time stamp |
| FieldCode.GeneratedCodeWellFormed | src/python/server/tools/implementations/field_tools.py:167-188 | every generated code matches the field-code character class and does not start with a digit |
| FieldCode.GeneratedCodeAccepted | src/python/server/tools/implementations/field_tools.py:167-188 | a generated code passes `validate_field_code` iff it is not a reserved system code |
| FieldCode.GeneratedCodeCanBeReserved | src/python/server/tools/implementations/field_tools.py:167-188 | the label 作成者 gives the code 作成者, which `validate_field_code` refuses |
| FieldCode.GenerateFieldCodeIdempotent | src/python/server/tools/implementations/field_tools.py:167-188 | generating a code from a generated code gives it back |
| FieldTools.ToolsResolveUnit | src/python/server/tools/implementations/field_tools.py:118 | a string unit gets exactly the tool resolver's answer; any answer is BEFORE or AFTER |
| FieldTools.FillPosition | src/python/server/tools/implementations/field_tools.py:115-126 | the position step returns a dict |
| FieldTools.Corrected | src/python/server/tools/implementations/field_tools.py:100-135 | models `auto_correct_unit_position`; its contract only says the result is a dict, the lemmas below state what it does |
| FieldTools.CorrectedFrom | src/python/server/tools/implementations/field_tools.py:129-132 | the corrected sub-fields number as many as the input's |
| FieldTools.AutoCorrectUnitPosition | src/python/server/tools/implementations/field_tools.py:100-135 | the method (copy, fill, then loop over sub-fields) returns exactly `Corrected(field)` |
| FieldTools.CorrectSubFields | src/python/server/tools/implementations/field_tools.py:129-132 | the sub-field loop returns exactly the corrected sub-fields in dict order, or the first failure |
| FieldTools.CorrectedFromEntries | src/python/server/tools/implementations/field_tools.py:129-132 | corrected sub-fields keep their keys and order, each value the corrected sub-field |
| FieldTools.CorrectedFromOf | src/python/server/tools/implementations/field_tools.py:129-132 | conversely, entry-wise corrected sub-fields are exactly what the loop produces |
| FieldTools.CorrectedKeepsExplicitPosition | src/python/server/tools/implementations/field_tools.py:115-126 | an explicit `unitPosition` is never overwritten |
| FieldTools.CorrectedFillsNumber | src/python/server/tools/implementations/field_tools.py:115-119 | a NUMBER field with a non-empty unit and no position gets the tool resolver's answer and nothing else changes |
| FieldTools.CorrectedCalcNeedsNumberFormat | src/python/server/tools/implementations/field_tools.py:121-126 | a CALC field whose format is not NUMBER is returned unchanged |
| FieldTools.CorrectedSubtable | src/python/server/tools/implementations/field_tools.py:128-132 | a SUBTABLE's sub-fields come back with the same keys in order, each corrected, and nothing outside `fields` changes |
| FieldTools.CorrectedNotSubtable | src/python/server/tools/implementations/field_tools.py:115-135 | outside a SUBTABLE with sub-fields, correcting is only filling the position |
| FieldTools.CorrectedSubtableValue | src/python/server/tools/implementations/field_tools.py:128-132 | a SUBTABLE with sub-fields has its `fields` replaced by the corrected sub-fields |
| FieldTools.FilledSettles | src/python/server/tools/implementations/field_tools.py:115-126 | once the position is filled there is nothing left to fill |
| FieldTools.SubFieldsSettle | src/python/server/tools/implementations/field_tools.py:129-132 | correcting corrected sub-fields again gives them back unchanged |
| FieldTools.CorrectedIdempotent | src/python/server/tools/implementations/field_tools.py:100-135 | correcting a corrected field changes nothing more |
| FieldTools.NumberRepairAgrees | src/python/server/tools/implementations/field_tools.py:115-119 | on NUMBER fields the tool repair and the validator's repair give the same result |
| FieldTools.ValidatorFills | src/python/repositories/validators/field_validator.py:241-258 | the validator fills the missing position of a NUMBER or CALC field with a non-empty string unit |
| FieldTools.ValidatorKeeps | src/python/repositories/validators/field_validator.py:246-248 | the validator leaves alone a field without a unit or with a position |
| FieldTools.CalcRepairDiffers | src/python/server/tools/implementations/field_tools.py:121-126 | on a CALC field without format NUMBER the tool leaves the position empty while the validator fills it |
| FieldCode.GeneratedCodeFirst | src/python/server/tools/implementations/field_tools.py:180-186 | a generated code is never empty and never starts with a digit, ASCII or full-width, because of the `f_` prefix |
| FieldCode.SettledCodeFixed | src/python/server/tools/implementations/field_tools.py:177-188 | a code already made of lower-case allowed characters and not starting with a digit is returned unchanged |
| FieldHandlers.OptionEntry | src/python/server/tools/implementations/field_tools.py:305-323 | an option entry holds the caption as `label` and `str(index)` as `index` |
| FieldHandlers.KeyedEntry | src/python/server/tools/implementations/field_tools.py:305-323 | an option is stored iff its key is a string, under that key with the option entry |
| FieldHandlers.Fields | src/python/server/tools/implementations/field_tools.py:262-338 | the add_fields conversion of a dict item is exactly the prepared and validated field |
| FieldHandlers.EntriesFrom | src/python/server/tools/implementations/field_tools.py:299-325 | the converted entries number as many as the items converted |
| FieldHandlers.BuildDict | src/python/server/tools/implementations/field_tools.py:298-327 | the loop that fills a fresh dict returns exactly the dict of the converted items, or the first item's error |
| FieldHandlers.DictFromStep | src/python/server/tools/implementations/field_tools.py:299-323 | a converted item is assigned into the dict and the loop goes on |
| FieldHandlers.DictFromStop | src/python/server/tools/implementations/field_tools.py:316-325 | an item that does not convert stops the loop with its error |
| FieldHandlers.EntriesFromItems | src/python/server/tools/implementations/field_tools.py:299-325 | the entries exist iff every item converts, and each is that item's conversion |
| FieldHandlers.EntriesFromFirstError | src/python/server/tools/implementations/field_tools.py:299-325 | a failure is the error of the first item that does not convert |
| FieldHandlers.DictOk | src/python/server/tools/implementations/field_tools.py:298-327 | the conversion succeeds iff every item converts, and otherwise raises the first failure |
| FieldHandlers.AssignedKeys | src/python/server/tools/implementations/field_tools.py:305-323 | assigning keeps keys distinct, keeps every old key and adds each entry's key |
| FieldHandlers.AssignedLast | src/python/server/tools/implementations/field_tools.py:305-323 | a key holds the value of its last assignment |
| FieldHandlers.DictStored | src/python/server/tools/implementations/field_tools.py:298-327 | a completed dict has distinct keys, stores every item's key, and holds only items' conversions |
| FieldHandlers.DictLast | src/python/server/tools/implementations/field_tools.py:298-327 | a key holds the entry of the last item that has it |
| FieldHandlers.OptionsAcceptable | src/python/server/tools/implementations/field_tools.py:298-327 | when every item converts to an acceptable entry, the dict is non-empty and wholly acceptable to `validate_options` |
| FieldHandlers.IndexMatchesDigits | src/python/server/tools/implementations/field_tools.py:307 | `str(i)` passes the digits-only index pattern of `validate_options` |
| FieldHandlers.OptionEntryAcceptable | src/python/server/tools/implementations/field_tools.py:305-323 | an entry built from a truthy caption passes `validate_options`' entry checks |
| FieldHandlers.ChoiceOptionsAccepted | src/python/server/tools/implementations/field_tools.py:385-390 | non-empty string choices give a non-empty options dict that `validate_options` accepts |
| FieldHandlers.ListOptionsAccepted | src/python/server/tools/implementations/field_tools.py:297-327 | list options with truthy captions convert to a dict that `validate_options` accepts |
| FieldHandlers.ListOptionEntry | src/python/server/tools/implementations/field_tools.py:300-323 | a converted list option is keyed by its `value` when given, else its label, or the bare string, and carries its caption and list position |
| FieldHandlers.ListOptionErrors | src/python/server/tools/implementations/field_tools.py:316-325 | a dict option without `label` and an option that is neither dict nor string raise |
| FieldHandlers.ChosenCode | src/python/server/tools/implementations/field_tools.py:267-273 | the chosen code is truthy whenever the field has a truthy code or a string label |
| FieldHandlers.Coded | src/python/server/tools/implementations/field_tools.py:264-273 | the copy gets the chosen code and nothing else changes |
| FieldHandlers.RenameFormula | src/python/server/tools/implementations/field_tools.py:281-284 | a CALC field's `formula` moves to `expression` when there is none, and nothing else changes |
| FieldHandlers.DropBlankScale | src/python/server/tools/implementations/field_tools.py:287-289 | a NUMBER field loses a `displayScale` of `""`, and nothing else changes |
| FieldHandlers.OptionsAsDict | src/python/server/tools/implementations/field_tools.py:292-334 | list options become the converted dict (failing iff the conversion fails), a dict stays, any other shape raises, nothing but `options` changes |
| FieldHandlers.PrepareField | src/python/server/tools/implementations/field_tools.py:262-334 | a prepared field is a dict |
| FieldHandlers.PrepareFieldShape | src/python/server/tools/implementations/field_tools.py:264-334 | no code and no label raises, a missing type raises, and a prepared field keeps the chosen code, its type and every key outside the repaired ones |
| FieldHandlers.PrepareFieldCode | src/python/server/tools/implementations/field_tools.py:264-278 | a prepared field carries the chosen code and its own type, both truthy |
| FieldHandlers.PrepareFieldFormula | src/python/server/tools/implementations/field_tools.py:281-284 | a CALC field with `formula` and no `expression` is sent with the formula as expression and no formula |
| FieldHandlers.PrepareFieldScale | src/python/server/tools/implementations/field_tools.py:287-289 | a NUMBER field with `displayScale` `""` is sent without one |
| FieldHandlers.PrepareFieldOptions | src/python/server/tools/implementations/field_tools.py:292-334 | a choice field's list options are sent as their converted dict, preparation failing iff an item does not convert; other non-dict shapes raise |
| FieldHandlers.ProcessedFieldKey | src/python/server/tools/implementations/field_tools.py:337-338 | a processed field is stored under its chosen code, and the validated field keeps that code and the type |
| FieldHandlers.FirstLayoutOnlyFound | src/python/server/tools/implementations/field_tools.py:235-258 | the search finds a SPACER/HR/LABEL field iff there is one, and names the first one's type |
| FieldHandlers.PrepareAddFields | src/python/server/tools/implementations/field_tools.py:203-338 | the add_fields preparation loops return exactly the properties of `AddFields` or its first error |
| FieldHandlers.CheckObjects | src/python/server/tools/implementations/field_tools.py:231-232 | the loop succeeds iff every field is a dict |
| FieldHandlers.FindLayoutOnly | src/python/server/tools/implementations/field_tools.py:235-258 | the loop stops at the first layout element, as `FirstLayoutOnly` |
| FieldHandlers.AddFieldsRefusesLayout | src/python/server/tools/implementations/field_tools.py:235-258 | a SPACER, HR or LABEL among the fields makes add_fields raise, naming a layout type |
| FieldHandlers.AddFieldsStored | src/python/server/tools/implementations/field_tools.py:260-338 | with no layout element, add_fields succeeds iff every field prepares and validates; the stored codes are distinct, every field's code is stored, and only processed fields are stored |
| FieldHandlers.ArgCode | src/python/server/tools/implementations/field_tools.py:367-369 | the code is the given truthy code, else the one generated from a string label; it is always truthy |
| FieldHandlers.ChoiceConfig | src/python/server/tools/implementations/field_tools.py:393-412 | the choice definition is a dict |
| FieldHandlers.ChoiceConfigFields | src/python/server/tools/implementations/field_tools.py:393-400 | a choice definition holds the type, code, label, `noLabel` false, `required` and the options |
| FieldHandlers.ChoiceConfigDefaults | src/python/server/tools/implementations/field_tools.py:403-412 | RADIO_BUTTON defaults to the first choice, DROP_DOWN to `""`, the others to `[]`; only RADIO_BUTTON and CHECK_BOX carry `align` |
| FieldHandlers.CreateChoiceField | src/python/server/tools/implementations/field_tools.py:350-414 | a created choice field is a dict |
| FieldHandlers.CreateChoiceFieldErrors | src/python/server/tools/implementations/field_tools.py:352-364 | missing field_type, label or choices raise in that order, non-list choices raise, and success needs a choice type |
| FieldHandlers.CreateChoiceFieldConfig | src/python/server/tools/implementations/field_tools.py:367-414 | the definition is assembled from the type, the given or generated code, the label, `required` (false), the choices as options and `align` (HORIZONTAL) |
| FieldHandlers.CreateChoiceFieldOptionsAccepted | src/python/server/tools/implementations/field_tools.py:350-414 | with non-empty string choices the definition is built and its options pass `validate_options` |
| FieldHandlers.RelatedApp | src/python/server/tools/implementations/field_tools.py:466-469 | `relatedApp` holds the code when truthy, else the app id when truthy, and is empty only when neither is given |
| FieldHandlers.AddIf | src/python/server/tools/implementations/field_tools.py:472-479 | an optional setting is appended exactly when its condition holds |
| FieldHandlers.Condition | src/python/server/tools/implementations/field_tools.py:458-461 | the condition holds both linked fields |
| FieldHandlers.TableEntries | src/python/server/tools/implementations/field_tools.py:456-477 | the reference table starts with `relatedApp` and `condition` and has no `size` before the size step |
| FieldHandlers.ReferenceTable | src/python/server/tools/implementations/field_tools.py:451-479 | the reference table setting is a dict |
| FieldHandlers.ReferenceTableParts | src/python/server/tools/implementations/field_tools.py:451-479 | the reference table names the related app and the condition, and holds `str(size)` exactly when a size is given |
| FieldHandlers.CreateReferenceTableField | src/python/server/tools/implementations/field_tools.py:416-481 | a created reference-table field is a dict |
| FieldHandlers.CreateReferenceTableFieldErrors | src/python/server/tools/implementations/field_tools.py:418-425 | missing label, conditionField, relatedConditionField, or both app id and code raise, in that order |
| FieldHandlers.CreateReferenceTableFieldConfig | src/python/server/tools/implementations/field_tools.py:428-481 | the definition is a REFERENCE_TABLE with the given or generated code, the label, `noLabel` (true) and the reference table |
| FieldHandlers.CreateReferenceTableFieldAccepted | src/python/server/tools/implementations/field_tools.py:416-481 | the built reference table passes the validator's check iff no size is given or `str(size)` is an allowed size |
| FieldHandlers.MappingFault | src/python/server/tools/implementations/field_tools.py:521-529 | a mapping is accepted iff it is a dict with truthy `field` and `relatedField` and its `relatedField` is not `==` to the key field, with Python's `==` (`1 == 1.0 == True`) |
| FieldHandlers.MappingsVerdictFirst | src/python/server/tools/implementations/field_tools.py:521-529 | the mappings pass iff each does, and a refusal is the first faulty mapping's |
| FieldHandlers.MappingsVerdictNone | src/python/server/tools/implementations/field_tools.py:521-529 | the mappings from a position on pass exactly when none of them has a fault |
| FieldHandlers.MappingsVerdictSome | src/python/server/tools/implementations/field_tools.py:521-529 | a refusal is the fault of some mapping all of whose predecessors are acceptable |
| FieldHandlers.CheckFieldMappings | src/python/server/tools/implementations/field_tools.py:521-529 | the mapping loop returns exactly the verdict of the mapping rules |
| FieldHandlers.LookupSize | src/python/server/tools/implementations/field_tools.py:557-564 | the lookup size is a dict |
| FieldHandlers.LookupSizeFromPairs | src/python/server/tools/implementations/field_tools.py:562 | a size given as a non-empty list of key-value pairs is read as the dict `dict()` builds from them |
| FieldHandlers.LookupSizeNotDict | src/python/server/tools/implementations/field_tools.py:562 | a truthy size that is neither a dict nor a list of pairs is the error `dict()` raises |
| FieldHandlers.WidthPairKept | src/python/server/tools/implementations/field_tools.py:557-564 | `[["width", "300"]]` gives the size `{"width": "300"}` (a single instance) |
| FieldHandlers.LookupSizeWidth | src/python/server/tools/implementations/field_tools.py:557-564 | the width is never below 250; every other setting of `dict(size)` is kept, and a dict whose width is already at least 250 is returned unchanged |
| FieldHandlers.DefaultSort | src/python/server/tools/implementations/field_tools.py:589 | the default sort of a string key is `"<key> asc"` |
| FieldHandlers.PickerFields | src/python/server/tools/implementations/field_tools.py:574-579 | the picker fields are the given non-empty list, else the key field alone |
| FieldHandlers.LookupSetting | src/python/server/tools/implementations/field_tools.py:548-589 | the lookup setting is a dict |
| FieldHandlers.LookupSettingHead | src/python/server/tools/implementations/field_tools.py:548-579 | the lookup setting prefers the app code over the id, keeps the key field and mappings, and defaults the pickers to `[key]` |
| FieldHandlers.LookupSettingTail | src/python/server/tools/implementations/field_tools.py:582-589 | the sort defaults to `"<key> asc"` and the filter is present exactly when given |
| FieldHandlers.LookupType | src/python/server/tools/implementations/field_tools.py:507-544 | the field type is the given truthy type, else SINGLE_LINE_TEXT |
| FieldHandlers.CreateLookupField | src/python/server/tools/implementations/field_tools.py:483-602 | a created lookup field is a dict |
| FieldHandlers.CreateLookupFieldErrors | src/python/server/tools/implementations/field_tools.py:485-518 | missing label, key field, or app id and code raise in that order, then missing or non-list mappings raise |
| FieldHandlers.CreateLookupFieldMappings | src/python/server/tools/implementations/field_tools.py:517-529 | a lookup is built only from a non-empty list of mappings each with both fields and none naming the key field; one faulty mapping makes it fail |
| FieldHandlers.CreateLookupFieldConfig | src/python/server/tools/implementations/field_tools.py:543-602 | the definition holds the type, code, label, `required`, the lookup setting and the size |
| FieldHandlers.CreateLookupFieldWidth | src/python/server/tools/implementations/field_tools.py:557-564 | every created lookup field has a width of at least 250 |
| FieldHandlers.UpdateBlockedTypesFacts | src/python/server/tools/implementations/field_tools.py:625 | the five blocked types are system field types, and `__ID__` and `__REVISION__` are not blocked |
| FieldHandlers.UpdateField | src/python/server/tools/implementations/field_tools.py:604-643 | the update properties are a dict |
| FieldHandlers.UpdateFieldErrors | src/python/server/tools/implementations/field_tools.py:606-622 | missing app_id, field_code or field, a non-dict field, or an untyped field raise, in that order |
| FieldHandlers.UpdateFieldRejectsSystemTypes | src/python/server/tools/implementations/field_tools.py:625-635 | a field of one of the five system types is refused, naming the type |
| FieldHandlers.UpdateFieldProperties | src/python/server/tools/implementations/field_tools.py:638-643 | an accepted update holds one property, under the field code, the validated field, whose type is not blocked |
| LayoutValidator.ElementType | src/python/repositories/validators/layout_validator.py:13-44 | an accepted element is still a dict |
| LayoutValidator.ElementTypeFill | src/python/repositories/validators/layout_validator.py:13-44 | an untyped element always passes and takes the first allowed type, or ROW when none is given; a typed element passes exactly when the allowed list is empty or holds its type, and is then unchanged; no other key changes |
| LayoutValidator.CountTyped | src/python/repositories/validators/layout_validator.py:72-84 | the count of GROUP-tagged entries of a row is at most the number of entries |
| LayoutValidator.CountTypedExtremes | src/python/repositories/validators/layout_validator.py:72-84 | the count is zero exactly when no entry has the tag, and full exactly when every entry has it, which is what the row's GROUP rule compares |
| LayoutValidator.EntryFault | src/python/repositories/validators/layout_validator.py:89-101 | a row entry has no fault exactly when a LABEL has a truthy value and a REFERENCE_TABLE a truthy code |
| LayoutValidator.EntriesFault | src/python/repositories/validators/layout_validator.py:89-101 | a fault the row's loop reports is the fault of one of the entries it visits |
| LayoutValidator.EntriesFaultNone | src/python/repositories/validators/layout_validator.py:89-101 | the loop finds no fault exactly when no entry has one |
| LayoutValidator.ValidateRow | src/python/repositories/validators/layout_validator.py:47-103 | an accepted row is still a dict |
| LayoutValidator.ValidateRowRules | src/python/repositories/validators/layout_validator.py:47-103 | a typed row passes exactly when its entries are dicts, either all or none of them are GROUP, none is SUBTABLE and each meets its own requirement; the accepted row holds its defaulted entries as a list |
| LayoutValidator.EachFirst | src/python/repositories/validators/layout_validator.py:158-178 | a validator's loop over children passes exactly when every child does, and then holds each child's checked form in order; otherwise it raises the error of the first refused child |
| LayoutValidator.GroupChild | src/python/repositories/validators/layout_validator.py:158-178 | an accepted group child is a dict typed ROW and is validated as a row |
| LayoutValidator.GroupPrelude | src/python/repositories/validators/layout_validator.py:106-145 | the checks before a group's children keep it a dict |
| LayoutValidator.ValidateGroup | src/python/repositories/validators/layout_validator.py:106-180 | an accepted group is still a dict |
| LayoutValidator.GroupPreludeRules | src/python/repositories/validators/layout_validator.py:106-145 | a group gets past its own checks only with a truthy code and no `fields` key; it is then typed GROUP and `openGroup` keeps a given value and defaults to true |
| LayoutValidator.GroupPreludeLayout | src/python/repositories/validators/layout_validator.py:106-145 | those checks leave the group's layout as it was |
| LayoutValidator.ValidateGroupSettings | src/python/repositories/validators/layout_validator.py:106-180 | an accepted group has a code and no `fields`, is typed GROUP, keeps or defaults `openGroup`, and its layout is its children checked in order |
| LayoutValidator.GroupChildrenAreRows | src/python/repositories/validators/layout_validator.py:158-178 | a group's children pass exactly when each does, and then every child is a dict already typed ROW, so a GROUP or SUBTABLE child always refuses the group |
| LayoutValidator.ValidateSubtable | src/python/repositories/validators/layout_validator.py:183-215 | an accepted subtable passed the type check unchanged, has a truthy code, and its field definitions, when given, are a dict with no GROUP among them |
| LayoutValidator.FormLayoutFirst | src/python/repositories/validators/layout_validator.py:218-246 | a form layout passes exactly when each top-level item does, keeps its length, and is otherwise refused with the error of its first refused item |
| LayoutValidator.TopLevelRefusesInline | src/python/repositories/validators/layout_validator.py:236-239 | a LABEL, REFERENCE_TABLE, SPACER or HR item at the top level is refused as a disallowed type |
| LayoutValidator.RowOfGroupsPasses | src/python/repositories/validators/layout_validator.py:72-86 | a typed row whose entries are all GROUP passes unchanged, however many there are |
| LayoutValidator.ValidateFormLayout | src/python/repositories/validators/layout_validator.py:218-246 | the loop over the layout returns exactly the specification `FormLayout` (whose meaning `FormLayoutFirst` states) |
| LayoutValidator.DimensionValue | src/python/repositories/validators/layout_validator.py:268-296 | an accepted dimension is a positive number, and a non-string one is kept as given |
| LayoutValidator.SizeDimension | src/python/repositories/validators/layout_validator.py:268-296 | checking a dimension keeps the size a dict |
| LayoutValidator.SizeDimensionRules | src/python/repositories/validators/layout_validator.py:268-296 | a dimension check changes at most that dimension, keeps it present exactly when it was, and leaves it positive |
| LayoutValidator.FieldSizeRules | src/python/repositories/validators/layout_validator.py:249-358 | an empty size passes unchanged; an accepted non-empty size is a dict whose width, height and innerHeight, where present, are positive numbers, every other key unchanged |
| LayoutValidator.UnitSuffixStripped | src/python/repositories/validators/layout_validator.py:274-290 | a width written "10px" is read as the number 10 |
| LayoutValidator.DimensionNeedsDigits | src/python/repositories/validators/layout_validator.py:274-292 | a string with no digit among its digits and dots is refused as not numeric |
| LayoutValidator.ElementPositionRules | src/python/repositories/validators/layout_validator.py:361-398 | an index position passes exactly when the index is a non-negative int (a bool counts) and a GROUP position names its group; after and before together are refused; a single after or before passes exactly when it names a non-empty string |
| LayoutUtils.RowCodes | src/python/utils/layout_utils.py:188-192 | every collected code is truthy, and every field of a row with a truthy code contributes it |
| LayoutUtils.ExtractItem | src/python/utils/layout_utils.py:186-200 | an element contributes only truthy codes |
| LayoutUtils.ExtractItems | src/python/utils/layout_utils.py:181-200 | a list of elements contributes only truthy codes |
| LayoutUtils.Extract | src/python/utils/layout_utils.py:165-205 | a value that is not a list places nothing, and every extracted code is truthy |
| LayoutUtils.ExtractItemsAppend | src/python/utils/layout_utils.py:181-200 | extraction distributes over concatenation of element lists, so codes come out in document order |
| LayoutUtils.ExtractList | src/python/utils/layout_utils.py:175-203 | a list layout's codes are those of its elements, an empty list included |
| LayoutUtils.CollectCodes | src/python/utils/layout_utils.py:181-184 | the recursive walker appends to its accumulator exactly the codes the specification `Extract` gives |
| LayoutUtils.CollectItem | src/python/utils/layout_utils.py:186-200 | one step of the walk appends exactly the element's codes: a row's truthy field codes, a group's nested codes, or a subtable's code |
| LayoutUtils.ExtractFieldsFromLayout | src/python/utils/layout_utils.py:165-205 | the codes returned are exactly `Extract(layout)`, all truthy |
| LayoutUtils.CustomCodes | src/python/utils/layout_utils.py:223-226 | a code is listed exactly when some field of the map has it and a type outside SYSTEM_FIELD_TYPES, and the list keeps the map's order |
| LayoutUtils.NotFound | src/python/utils/layout_utils.py:232-235 | a code is kept exactly when it is listed and not among the found codes, in the listed order |
| LayoutUtils.MissingFields | src/python/utils/layout_utils.py:208-237 | without a field map nothing is missing; otherwise a code is missing exactly when it is a custom field code the layout does not place, in the map's order |
| LayoutUtils.EntryForPlaces | src/python/utils/layout_utils.py:286-302 | an appended element is traversable and places exactly its own code |
| LayoutUtils.DefOf | src/python/utils/layout_utils.py:282 | a code's definition in a field map is a dict or `None` |
| LayoutUtils.AddedEntries | src/python/utils/layout_utils.py:281-302 | at most one element is appended per missing code |
| LayoutUtils.AddedWarnings | src/python/utils/layout_utils.py:281-302 | one warning is added per appended element |
| LayoutUtils.AddedSnoc | src/python/utils/layout_utils.py:281-302 | each missing code with a non-empty definition appends a SUBTABLE element or a one-field ROW and its matching warning, after those of the codes before it; a code without one adds nothing |
| LayoutUtils.AddMissingFieldsToLayout | src/python/utils/layout_utils.py:240-304 | the method with its repairing loop returns exactly the specification `AddMissing` |
| LayoutUtils.AppendMissing | src/python/utils/layout_utils.py:278-302 | the loop's layout is the original followed by the appended elements, and its warnings those before followed by one per element |
| LayoutUtils.AddMissingReportOnly | src/python/utils/layout_utils.py:256-275 | without a field map or with nothing missing the layout comes back unchanged without warnings; without `auto_fix` it is unchanged with exactly two warnings, the first naming the missing codes |
| LayoutUtils.AddMissingAppends | src/python/utils/layout_utils.py:269-304 | with `auto_fix` the original elements stay in front unchanged, the appended ones follow in the order of the missing codes, and there is one warning after the first per appended element |
| LayoutUtils.AddedEntriesWalkable | src/python/utils/layout_utils.py:281-302 | every appended element is traversable by the walkers |
| LayoutUtils.PlacedCodes | src/python/utils/layout_utils.py:281-302 | every missing code with a non-empty definition is placed by the appended elements |
| LayoutUtils.AddedEntriesPlace | src/python/utils/layout_utils.py:281-302 | the appended elements place exactly the codes whose definition is non-empty, nothing else |
| LayoutUtils.AddMissingSettles | src/python/utils/layout_utils.py:240-304 | repairing settles: after one `auto_fix` call nothing is missing, so a second call returns the layout unchanged with no warnings (when every code and definition is non-empty) |
| LayoutUtils.RaiseWidthFacts | src/python/utils/layout_utils.py:57-89 | one correction block creates the size when absent, sets the width to the target exactly when it was missing, falsy or `int()`-below it, otherwise leaves the field untouched, and changes no other key of the field or of its size |
| LayoutUtils.RaiseWidthKeeps | src/python/utils/layout_utils.py:63-64 | a width already at or above the target is left alone |
| LayoutUtils.RaiseWidthAgain | src/python/utils/layout_utils.py:63-66 | raising a width to the value it already has changes nothing |
| LayoutUtils.RaiseInPlace | src/python/utils/layout_utils.py:57-66 | the in-place block returns exactly the specification `RaiseWidth` |
| LayoutUtils.AutoCorrectFieldWidth | src/python/utils/layout_utils.py:19-94 | the function's body returns exactly `CorrectFieldWidth`: first the `AttributeError` the debug lines raise on a size, lookup or relatedApp that is not a dict, then the lookup block and the recommended-width block on one copy |
| LayoutUtils.CorrectFieldWidthLookup | src/python/utils/layout_utils.py:53-73 | a lookup field's width ends up `int()`-convertible and at least 250, and a guidance naming the field's code is given exactly when the width was missing, falsy or below 250; no other field gets one |
| LayoutUtils.CorrectFieldWidthRecommended | src/python/utils/layout_utils.py:77-89 | a recommended width is honoured: the width ends up being the recommendation or a number at least as large |
| LayoutUtils.CorrectFieldWidthKeeps | src/python/utils/layout_utils.py:19-94 | a correction that succeeds had a dict size (or none) and a readable lookup; only the width inside the field's size changes, and a field with neither a lookup nor a recommended width comes back as it was with no guidance |
| LayoutUtils.CorrectFieldWidthRaises | src/python/utils/layout_utils.py:37-46 | a size that is present but not a dict raises, and so does a lookup that is not a dict |
| LayoutUtils.CorrectFieldWidthSettles | src/python/utils/layout_utils.py:19-94 | correcting a corrected field changes nothing and reports no guidance, when the recommended width is numeric |
| LayoutUtils.DefFor | src/python/utils/layout_utils.py:126-128 | a field's looked-up definition is a dict or `None` |
| LayoutUtils.RaiseWidthDel | src/python/utils/layout_utils.py:57-89 | a correction touches nothing of the field but its `size` |
| LayoutUtils.CorrectFieldDel | src/python/utils/layout_utils.py:124-137 | a corrected row field differs from the original at most in its `size` and keeps its code |
| LayoutUtils.CorrectFieldsShape | src/python/utils/layout_utils.py:123-137 | correcting a row's fields keeps their number and everything but their sizes |
| LayoutUtils.CorrectLayoutShape | src/python/utils/layout_utils.py:97-162 | the width walker keeps the layout's shape: the same elements in the same order, nested groups included, with only the `size` of row fields changed |
| LayoutUtils.CorrectFieldSettles | src/python/utils/layout_utils.py:124-137 | a corrected row field corrected again stays as it is and reports nothing |
| LayoutUtils.CorrectFieldsSettle | src/python/utils/layout_utils.py:123-137 | the fields of a corrected row settle: correcting them again changes nothing and reports nothing |
| LayoutUtils.CorrectLayoutSettles | src/python/utils/layout_utils.py:97-162 | the width walker is idempotent: walking its result again changes nothing and yields no guidance, when every recommended width is numeric |
| LayoutUtils.CorrectItemsSettle | src/python/utils/layout_utils.py:114-154 | a corrected list of elements settles in the same way |
| LayoutUtils.CorrectItemSettles | src/python/utils/layout_utils.py:120-152 | a corrected element settles in the same way |
| LayoutUtils.CorrectFieldsFailsEarly | src/python/utils/layout_utils.py:124-137 | once a prefix of a row's fields raises, the whole walk raises the same error |
| LayoutUtils.CorrectItemsFailsEarly | src/python/utils/layout_utils.py:120-152 | once a prefix of the elements raises, the whole walk raises the same error |
| LayoutUtils.ProcessFields | src/python/utils/layout_utils.py:123-137 | the loop over a row's fields returns exactly `CorrectFields`, after the guidances collected before it |
| LayoutUtils.ProcessLayout | src/python/utils/layout_utils.py:114-154 | the nested walker returns exactly `CorrectLayout`, after the guidances collected before it |
| LayoutUtils.ProcessItems | src/python/utils/layout_utils.py:119-154 | the loop over elements returns exactly `CorrectItems`, after the guidances collected before it |
| LayoutUtils.ProcessItem | src/python/utils/layout_utils.py:121-152 | one element, a row with corrected fields or a group with a corrected layout, is exactly `CorrectItem` |
| LayoutUtils.AutoCorrectLayoutWidths | src/python/utils/layout_utils.py:97-162 | the corrected layout and guidances, collected from an empty list, are exactly `CorrectLayout` |
| LayoutTools.RowFields | src/python/server/tools/implementations/layout_tools.py:380 | a ROW's `fields`, defaulted to `[]`, is a list of dicts |
| LayoutTools.GroupItems | src/python/server/tools/implementations/layout_tools.py:388 | a GROUP's `layout`, defaulted to `[]`, is a layout the helpers traverse |
| LayoutTools.RowEntries | src/python/server/tools/implementations/layout_tools.py:403-406 | a row's FIELD entries are dicts and no more than its entries |
| LayoutTools.FieldEntries | src/python/server/tools/implementations/layout_tools.py:398-409 | the FIELD entries collected at any depth are dicts |
| LayoutTools.NodeEntries | src/python/server/tools/implementations/layout_tools.py:401-408 | one element's FIELD entries are dicts |
| LayoutTools.FieldEntriesAppend | src/python/server/tools/implementations/layout_tools.py:398-409 | the FIELD entries of two layouts side by side are those of each, in turn |
| LayoutTools.CountFieldsInLayout | src/python/server/tools/implementations/layout_tools.py:398-409 | the recursive count is the number of FIELD entries of rows at any depth |
| LayoutTools.CountRowFields | src/python/server/tools/implementations/layout_tools.py:403-406 | the loop over a row counts exactly its FIELD entries |
| LayoutTools.CountFieldsInElement | src/python/server/tools/implementations/layout_tools.py:402-408 | one element counts its row's FIELD entries or its group's nested count |
| LayoutTools.Bump | src/python/server/tools/implementations/layout_tools.py:377 | bumping a type's count adds one to the count of every key `==` to it (Python merges `True`, `1` and `1.0`), leaves the others alone, keeps the key already stored, and adds the type as a key only when no stored key equals it |
| LayoutTools.BumpDistinct | src/python/server/tools/implementations/layout_tools.py:377 | the type-count dict never holds two keys that are `==` to each other |
| LayoutTools.SummarizeSnoc | src/python/server/tools/implementations/layout_tools.py:375-393 | each element adds one to the count of the stored key `==` to its type and, by type, its row's FIELD entries, a group summary, or a subtable code |
| LayoutTools.AnalyzeLayoutStructure | src/python/server/tools/implementations/layout_tools.py:365-395 | the loop over the top-level elements yields exactly the specification `Summarize` |
| LayoutTools.CountElement | src/python/server/tools/implementations/layout_tools.py:375-393 | one pass of the loop bumps the count of the element's type, merged with any `==` key, and adds its row's FIELD entries, its group summary or its subtable code, and changes nothing else |
| LayoutTools.TypeCountsTally | src/python/server/tools/implementations/layout_tools.py:375-377 | `element_types` holds no two `==` keys, and under each type the number of elements whose type is `==` to it |
| LayoutTools.TallyCongruent | src/python/server/tools/implementations/layout_tools.py:377 | `counts.get(t)` gives the same count for any two `==` types |
| LayoutTools.EqualTypesMerge | src/python/server/tools/implementations/layout_tools.py:375-377 | elements typed `True`, `1` and `1.0` are counted under the one key `True` (a single instance) |
| LayoutTools.FieldCountsAddUp | src/python/server/tools/implementations/layout_tools.py:379-389 | the top-level `field_count` and the groups' counts together make up every FIELD entry of the layout |
| LayoutTools.GroupsTallied | src/python/server/tools/implementations/layout_tools.py:384-389 | there are as many `groups` entries as `element_types` counts GROUP elements |
| LayoutTools.SubtablesTallied | src/python/server/tools/implementations/layout_tools.py:390-393 | there are as many `subtables` entries as `element_types` counts SUBTABLE elements |
| LayoutTools.SummarizeMeaning | src/python/server/tools/implementations/layout_tools.py:365-395 | the summary counts every element, counts under each type the elements whose type is `==` to it, accounts for every FIELD entry, and has one group or subtable entry per GROUP or SUBTABLE element |
| LayoutTools.ElementIssues | src/python/server/tools/implementations/layout_tools.py:416-438 | every problem of an element is reported with that element's position |
| LayoutTools.Issues | src/python/server/tools/implementations/layout_tools.py:412-440 | every reported problem names a position inside the layout |
| LayoutTools.ValidateLayout | src/python/server/tools/implementations/layout_tools.py:412-440 | the loop appending a message per problem yields exactly the specification `Issues` |
| LayoutTools.CheckElement | src/python/server/tools/implementations/layout_tools.py:416-438 | the messages for one element are exactly its specification problems: no type, an empty ROW, a table without code, a GROUP without label or layout, a LABEL without label |
| LayoutTools.IssuesNone | src/python/server/tools/implementations/layout_tools.py:412-440 | no error is reported exactly when every element has a type, a ROW has fields, a table has a code, a GROUP has a label and a layout, and a LABEL has a label |
| LayoutTools.IssuesReportEach | src/python/server/tools/implementations/layout_tools.py:412-440 | every failing element is reported with its own position |
| LayoutTools.KeptFields | src/python/server/tools/implementations/layout_tools.py:500-503 | the surviving entries of a row are dicts and no more than its entries |
| LayoutTools.Prune | src/python/server/tools/implementations/layout_tools.py:489-526 | a pruned layout is again a layout the helpers traverse |
| LayoutTools.PruneNode | src/python/server/tools/implementations/layout_tools.py:494-524 | one element prunes to at most one element |
| LayoutTools.KeepRowFields | src/python/server/tools/implementations/layout_tools.py:500-503 | the loop over a row's entries keeps exactly `KeptFields` |
| LayoutTools.PruneLayout | src/python/server/tools/implementations/layout_tools.py:489-526 | the loop over a layout's elements yields exactly the specification `Prune` |
| LayoutTools.PruneElement | src/python/server/tools/implementations/layout_tools.py:494-524 | one element yields exactly `PruneNode`: a copy of a ROW or GROUP with pruned contents, dropped when emptied, or the element itself |
| LayoutTools.RemoveFieldsFromLayoutStructure | src/python/server/tools/implementations/layout_tools.py:489-526 | removing listed fields is pruning by the rule "a FIELD entry whose code is listed goes" |
| LayoutTools.RemoveDeletedFieldsFromLayout | src/python/server/tools/implementations/layout_tools.py:598-640 | cleaning deleted fields is pruning by the rule "a FIELD entry or table stays only when the field map defines its code" |
| LayoutTools.KeptFieldsMembers | src/python/server/tools/implementations/layout_tools.py:500-503 | an entry survives exactly when it is one of the row's entries that the rule keeps |
| LayoutTools.KeptFieldsTwice | src/python/server/tools/implementations/layout_tools.py:500-503 | keeping twice keeps the same entries |
| LayoutTools.RowEntriesKept | src/python/server/tools/implementations/layout_tools.py:500-503 | the FIELD entries of a row's survivors are the surviving FIELD entries |
| LayoutTools.PruneFieldEntries | src/python/server/tools/implementations/layout_tools.py:489-526 | the FIELD entries left after pruning are the layout's FIELD entries the rule keeps, in document order |
| LayoutTools.PruneTwice | src/python/server/tools/implementations/layout_tools.py:489-526 | pruning a pruned layout changes nothing |
| LayoutTools.PruneCompact | src/python/server/tools/implementations/layout_tools.py:505-520 | pruning leaves no emptied row or group behind, at any depth |
| LayoutTools.OthersOf | src/python/server/tools/implementations/layout_tools.py:522-524 | the top-level elements other than rows and groups are dicts |
| LayoutTools.KeptOthers | src/python/server/tools/implementations/layout_tools.py:631-638 | those of them the rule keeps are dicts |
| LayoutTools.PruneOthers | src/python/server/tools/implementations/layout_tools.py:489-526 | elements other than rows and groups are never rewritten: those the rule keeps stay, in order, and the rest go |
| LayoutTools.KeptOthersAll | src/python/server/tools/implementations/layout_tools.py:522-524 | a rule that keeps every other element keeps them all |
| LayoutTools.FieldEntriesTyped | src/python/server/tools/implementations/layout_tools.py:398-409 | every entry the walk collects is typed FIELD |
| LayoutTools.RemoveFieldsMeaning | src/python/server/tools/implementations/layout_tools.py:489-526 | after removal no listed FIELD code is left, every unlisted FIELD entry stays, no row or group is left empty, other elements stay, and removing again changes nothing |
| LayoutTools.RemoveDeletedMeaning | src/python/server/tools/implementations/layout_tools.py:598-640 | after cleaning a FIELD entry stays exactly when the field map defines its code, a table stays exactly when the map defines its code, labels, spacers and rules stay, no row or group is left empty, and cleaning again changes nothing |
| LayoutTools.CollectPlacedFields | src/python/server/tools/implementations/layout_tools.py:581-595 | the set passed in gains exactly the codes the layout places: FIELD entries in rows and SUBTABLE or REFERENCE_TABLE elements, at any depth |
| LayoutTools.CollectRowCodes | src/python/server/tools/implementations/layout_tools.py:587-590 | the loop over a row adds exactly the codes of its FIELD entries |
| LayoutTools.CollectPlacedElement | src/python/server/tools/implementations/layout_tools.py:584-595 | one element adds exactly its placed codes |
| LayoutTools.CodesOfMembers | src/python/server/tools/implementations/layout_tools.py:587-590 | a code is collected exactly when some entry carries it |
| LayoutTools.DefinedCodes | src/python/server/tools/implementations/layout_tools.py:612 | the defined codes are among the codes given |
| LayoutTools.CodesKept | src/python/server/tools/implementations/layout_tools.py:609-615 | among FIELD entries, the survivors' codes are exactly the codes the field map defines |
| LayoutTools.PrunePlaced | src/python/server/tools/implementations/layout_tools.py:598-640 | cleaning out deleted fields keeps exactly the placed codes the field map defines |
| LayoutBuilders.ChunksFlatten | src/python/server/tools/implementations/layout_tools.py:831-832 | the slices `fields[i:i + k]` for `i in range(0, len(fields), k)`, put back together, are the list itself |
| LayoutBuilders.ChunksSizes | src/python/server/tools/implementations/layout_tools.py:831-832 | no slice is empty or longer than the step, and every slice but the last holds exactly the step |
| LayoutBuilders.ChunksCount | src/python/server/tools/implementations/layout_tools.py:831-832 | there is no slice for an empty list, and otherwise ceil(len / step) slices |
| LayoutBuilders.ChunksAppend | src/python/server/tools/implementations/layout_tools.py:556-576 | a list cut after whole slices is sliced as its two parts are |
| LayoutBuilders.Rows | src/python/server/tools/implementations/layout_tools.py:565-576 | one ROW per slice |
| LayoutBuilders.RowsContents | src/python/server/tools/implementations/layout_tools.py:556-576 | a layout of rows holds as FIELD entries exactly the rows' entries, in order, and places exactly their codes |
| LayoutBuilders.RowsKept | src/python/server/tools/implementations/layout_tools.py:551-576 | rows of FIELD entries whose codes the field map defines survive cleaning unchanged |
| LayoutBuilders.ChunksMembers | src/python/server/tools/implementations/layout_tools.py:831-832 | every item of every slice is an item of the list |
| LayoutBuilders.OrganizeEntries | src/python/server/tools/implementations/layout_tools.py:557-562 | one new FIELD entry per unplaced code |
| LayoutBuilders.Width | src/python/server/tools/implementations/layout_tools.py:564 | rows close at `fields_per_row` entries, and a value below 1 closes every row after its first entry |
| LayoutBuilders.CollectUnplaced | src/python/server/tools/implementations/layout_tools.py:541-548 | the loop over the field map gathers exactly the specification `Unplaced` |
| LayoutBuilders.AutoOrganizeLayout | src/python/server/tools/implementations/layout_tools.py:529-578 | `_auto_organize_layout` returns exactly the specification `AutoOrganize`: the cleaned layout followed by rows of the unplaced fields |
| LayoutBuilders.AppendRows | src/python/server/tools/implementations/layout_tools.py:556-576 | the `current_row` accumulator appends exactly the rows of consecutive slices of `Width(fields_per_row)` entries, the last closed at the end |
| LayoutBuilders.UnplacedMembers | src/python/server/tools/implementations/layout_tools.py:541-548 | a code is unplaced exactly when its definition is not a SUBTABLE or REFERENCE_TABLE, its code is not a system code, and the layout does not place it |
| LayoutBuilders.EntriesFacts | src/python/server/tools/implementations/layout_tools.py:557-562 | the new entries are FIELD dicts carrying the given codes, in order |
| LayoutBuilders.ChunkedEntries | src/python/server/tools/implementations/layout_tools.py:556-576 | the new rows are non-empty slices of FIELD dicts that put back together give the new entries |
| LayoutBuilders.RowsShape | src/python/server/tools/implementations/layout_tools.py:556-576 | rows built from FIELD dicts hold between one and `w` entries, are all full but the last, are just enough in number, and hold the dicts in order |
| LayoutBuilders.RowsClean | src/python/server/tools/implementations/layout_tools.py:412-440 | `_validate_layout` reports nothing about such rows |
| LayoutBuilders.OrganizeShape | src/python/server/tools/implementations/layout_tools.py:529-578 | organising keeps the cleaned layout in front and adds only rows of between one and `fields_per_row` entries, all full but the last, just enough of them, holding the unplaced codes' entries in field-map order |
| LayoutBuilders.OrganizePlaces | src/python/server/tools/implementations/layout_tools.py:529-578 | after organising the layout places exactly the codes it placed that the field map defines plus the unplaced codes, so every definition the organiser lays out is placed |
| LayoutBuilders.OrganizedNothingLeft | src/python/server/tools/implementations/layout_tools.py:529-578 | once organised, nothing is left unplaced |
| LayoutBuilders.UnplacedDefined | src/python/server/tools/implementations/layout_tools.py:541-548 | every unplaced code is defined by the field map, so its entry survives cleaning |
| LayoutBuilders.OrganizeIdempotent | src/python/server/tools/implementations/layout_tools.py:529-578 | organising an organised layout changes nothing |
| LayoutBuilders.SectionEntries | src/python/server/tools/implementations/layout_tools.py:835-842 | one entry per field of the row |
| LayoutBuilders.RowElements | src/python/server/tools/implementations/layout_tools.py:835-842 | the loop builds exactly the row's `SectionEntries` |
| LayoutBuilders.BuildSectionLayout | src/python/server/tools/implementations/layout_tools.py:822-849 | `_build_section_layout`, reading the step from the options, returns exactly the specification `SectionLayout`, including the error `range` raises for a zero or non-int step |
| LayoutBuilders.BuildTableLayout | src/python/server/tools/implementations/layout_tools.py:857-878 | `_build_table_layout` returns exactly the specification `TableLayout` |
| LayoutBuilders.SectionEntryFacts | src/python/server/tools/implementations/layout_tools.py:836-842 | an entry is a FIELD dict with the field's code (default "") and a size whose width is the field's width (default "200px") |
| LayoutBuilders.SectionEntriesFacts | src/python/server/tools/implementations/layout_tools.py:835-842 | the entries are FIELD dicts carrying their fields' codes in order |
| LayoutBuilders.SectionShape | src/python/server/tools/implementations/layout_tools.py:822-849 | with a positive step the section layout succeeds with rows of between one and `k` entries, all full but the last, just enough of them, one entry per field in order, and nothing `_validate_layout` would report |
| LayoutBuilders.TableShape | src/python/server/tools/implementations/layout_tools.py:857-878 | one row per input row holding that row's entries, and `_validate_layout` reports nothing exactly when no input row is empty |
| LayoutBuilders.InSection | src/python/server/tools/implementations/layout_tools.py:794-798 | a section's field list holds dicts |
| LayoutBuilders.SectionNamesDistinct | src/python/server/tools/implementations/layout_tools.py:793-798 | the `sections` dict has no repeated key |
| LayoutBuilders.SectionNamesFacts | src/python/server/tools/implementations/layout_tools.py:793-798 | the section names are exactly the sections the fields name, "default" for a field without one |
| LayoutBuilders.InSectionNone | src/python/server/tools/implementations/layout_tools.py:794-798 | a section no field names has no fields |
| LayoutBuilders.SectionsOf | src/python/server/tools/implementations/layout_tools.py:793-798 | one dict entry per section name |
| LayoutBuilders.FindSection | src/python/server/tools/implementations/layout_tools.py:796 | the lookup finds the entry of a section exactly when it has one |
| LayoutBuilders.SectionsStepNew | src/python/server/tools/implementations/layout_tools.py:796-798 | a field whose section has no entry yet opens a new one holding it |
| LayoutBuilders.SectionsStepOld | src/python/server/tools/implementations/layout_tools.py:796-798 | a field whose section has an entry is appended to that entry and nothing else changes |
| LayoutBuilders.GroupSections | src/python/server/tools/implementations/layout_tools.py:793-798 | the first loop of `_build_form_layout` yields exactly `SectionsOf`: each section, in order of first appearance, with its fields in order |
| LayoutBuilders.GroupedErr | src/python/server/tools/implementations/layout_tools.py:800-814 | with a step `range` refuses, the first section already raises |
| LayoutBuilders.BuildFormLayout | src/python/server/tools/implementations/layout_tools.py:781-819 | `_build_form_layout` with its two loops returns exactly the specification `FormLayout`, for sections that are strings, ints, booleans or None |
| LayoutBuilders.SectionText | src/python/server/tools/implementations/layout_tools.py:804-810 | the text `f"section_{name}"` puts after `section_`: the string itself, the decimal digits of an int, True/False, or None |
| LayoutBuilders.InSectionFacts | src/python/server/tools/implementations/layout_tools.py:794-798 | a section's list holds exactly the fields that name that section |
| LayoutBuilders.OccDistinct | src/python/server/tools/implementations/layout_tools.py:793-798 | in a list without repeats an element occurs once or not at all |
| LayoutBuilders.SectionsPartition | src/python/server/tools/implementations/layout_tools.py:793-798 | grouping by section loses and duplicates no field: the sections together hold all of them |
| LayoutBuilders.GroupedEntries | src/python/server/tools/implementations/layout_tools.py:800-814 | the grouped entries number as many as the sections' fields |
| LayoutBuilders.GroupOfFacts | src/python/server/tools/implementations/layout_tools.py:804-810 | a section other than "default" becomes a GROUP coded `section_` plus `str()` of the section, labelled with the section value itself, holding its rows' FIELD entries |
| LayoutBuilders.GroupedContents | src/python/server/tools/implementations/layout_tools.py:800-814 | with a positive step, the grouped layout holds the FIELD entries of each section in turn |
| LayoutBuilders.FormShape | src/python/server/tools/implementations/layout_tools.py:781-819 | with a positive `fieldsPerRow` the build succeeds with one FIELD entry per field, in field order without grouping and section by section with grouping |
| LayoutEdit.FirstWithoutCode | src/python/server/tools/implementations/layout_tools.py:451-454 | the first entry of a ROW config without a `code` key, if any, with every earlier entry having one |
| LayoutEdit.EntriesOf | src/python/server/tools/implementations/layout_tools.py:451-463 | one FIELD entry per configured entry |
| LayoutEdit.RowElement | src/python/server/tools/implementations/layout_tools.py:447-465 | building a ROW raises a KeyError exactly when some configured entry has no `code`, and then at the first such entry |
| LayoutEdit.BuildEntry | src/python/server/tools/implementations/layout_tools.py:452-461 | one FIELD entry, whose `size` starts empty and receives `width` then `height` when truthy, is exactly `EntryOf` |
| LayoutEdit.BuildRowElement | src/python/server/tools/implementations/layout_tools.py:447-465 | the loop over a ROW config's entries yields exactly `RowElement` |
| LayoutEdit.BuildLayoutElement | src/python/server/tools/implementations/layout_tools.py:443-486 | `_build_layout_element` returns exactly the specification `LayoutElement` |
| LayoutEdit.EntryOfFacts | src/python/server/tools/implementations/layout_tools.py:452-457 | a built entry is a FIELD dict carrying the configured code |
| LayoutEdit.RowElementFacts | src/python/server/tools/implementations/layout_tools.py:447-465 | a built ROW holds one FIELD entry per configured entry, with the configured codes in order, and passes `_validate_layout` exactly when it has entries |
| LayoutEdit.TableElementValid | src/python/server/tools/implementations/layout_tools.py:467-468 | a built SUBTABLE or REFERENCE_TABLE passes `_validate_layout` exactly when the configured code is truthy |
| LayoutEdit.GroupElementFacts | src/python/server/tools/implementations/layout_tools.py:470-473 | a built GROUP holds the configured code (default `group_<hex>`), label (default "") and layout (default `[]`) |
| LayoutEdit.GroupElementValid | src/python/server/tools/implementations/layout_tools.py:470-473 | a built GROUP passes `_validate_layout` exactly when its label and layout are truthy |
| LayoutEdit.LabelElementValid | src/python/server/tools/implementations/layout_tools.py:475-476 | a built LABEL passes `_validate_layout` exactly when its label is truthy |
| LayoutEdit.PlainElementValid | src/python/server/tools/implementations/layout_tools.py:478-484 | SPACER, HR and unknown types pass `_validate_layout` exactly when the type is non-empty |
| LayoutEdit.ElementValid | src/python/server/tools/implementations/layout_tools.py:443-486 | the built element carries the requested type and passes `_validate_layout` exactly when the configuration is complete |
| LayoutEdit.RowElementValid | src/python/server/tools/implementations/layout_tools.py:447-464 | a built ROW has type ROW and passes `_validate_layout` exactly when its configuration lists fields |
| LayoutEdit.OtherElementValid | src/python/server/tools/implementations/layout_tools.py:466-484 | any other built element carries the requested type and passes `_validate_layout` exactly when the configuration is complete for that type |
| LayoutEdit.InsertPos | src/python/server/tools/implementations/layout_tools.py:898 | Python's `list.insert(i, x)` position: an index within the list is kept, a negative one counts from the end, and both ends clamp |
| LayoutEdit.InsertAt | src/python/server/tools/implementations/layout_tools.py:898 | the list grows by one, holds `x` at the insert position, and without it is the original list |
| LayoutEdit.GroupIndex | src/python/server/tools/implementations/layout_tools.py:894-899 | the first top-level GROUP whose code is `==` to the group code, or none when no such group exists |
| LayoutEdit.FieldHitFirst | src/python/server/tools/implementations/layout_tools.py:919-923 | the entry found is the first whose code is `==` to the target, and none is found only when no entry's code is |
| LayoutEdit.RowSearchFound | src/python/server/tools/implementations/layout_tools.py:918-923 | in a ROW the search finds an entry exactly when some entry's code is `==` to the target |
| LayoutEdit.SearchNodeFound | src/python/server/tools/implementations/layout_tools.py:910-923 | the search finds something in an element exactly when the element carries a code `==` to the target, as its own code, in a GROUP's layout, or in a ROW's entries |
| LayoutEdit.SearchItemsFound | src/python/server/tools/implementations/layout_tools.py:909-924 | `search_and_insert` returns True exactly when some element carries the target |
| LayoutEdit.SearchFirst | src/python/server/tools/implementations/layout_tools.py:909-924 | the first element that carries the target receives the element beside it or inside it, and every other element is unchanged |
| LayoutEdit.AddAtEnd | src/python/server/tools/implementations/layout_tools.py:928-930 | with no position (`None`, read as `{}`) or none of index, after or before, the element goes at the end and everything else stays |
| LayoutEdit.AddAtIndex | src/python/server/tools/implementations/layout_tools.py:900-902 | a top-level index insert fails exactly when the index is not an int, and otherwise follows list-insert semantics, so removing the element gives the layout back |
| LayoutEdit.AddToNoGroup | src/python/server/tools/implementations/layout_tools.py:891-899 | when no top-level GROUP has the code, the layout is unchanged, even for an index that is not an int |
| LayoutEdit.AddToFirstGroup | src/python/server/tools/implementations/layout_tools.py:891-899 | otherwise only the first top-level GROUP with the code changes, and only its `layout`, which receives the element by list insert; an index that is not an int is an error |
| LayoutEdit.AddBesideNothing | src/python/server/tools/implementations/layout_tools.py:905-926 | with after or before, the layout is unchanged when no element carries the target |
| LayoutEdit.AddBesideFirst | src/python/server/tools/implementations/layout_tools.py:905-926 | otherwise the first element that carries the target receives the element beside it (after or before) or inside it, and nothing else changes |
| LayoutEdit.FindEntry | src/python/server/tools/implementations/layout_tools.py:919-923 | the inner loop over a ROW's entries finds exactly `FieldHit` |
| LayoutEdit.SearchStops | src/python/server/tools/implementations/layout_tools.py:910-924 | the search stops at the first matching element and changes only that one |
| LayoutEdit.SearchFails | src/python/server/tools/implementations/layout_tools.py:924 | when no element matches, the search reports nothing found |
| LayoutEdit.InsertInNode | src/python/server/tools/implementations/layout_tools.py:911-923 | one step of the loop, on the element's own code, then a GROUP's layout, then a ROW's entries, is exactly `SearchNode` |
| LayoutEdit.SearchAndInsert | src/python/server/tools/implementations/layout_tools.py:909-924 | `search_and_insert` reports a match exactly when `SearchItems` finds one, and leaves the list as `SearchItems` gives it |
| LayoutEdit.InsertIntoGroup | src/python/server/tools/implementations/layout_tools.py:891-899 | the loop that finds the group to insert into yields exactly `AddToGroup` |
| LayoutEdit.AddElementToLayout | src/python/server/tools/implementations/layout_tools.py:881-932 | `_add_element_to_layout`, a `None` position included, returns exactly the specification `AddElement` |
| LayoutEdit.PositionOrEmpty | src/python/server/tools/implementations/layout_tools.py:883-884 | a missing position (`None`) is read as the empty dict and a dict is kept |
| FieldModels.ValidateLength | src/python/models/kintone_field.py:138-144 | a length passes exactly when absent or non-negative, and is then kept |
| FieldModels.OptionValues | src/python/models/kintone_field.py:160 | the option values, one per option in order |
| FieldModels.ValidateChoiceOptions | src/python/models/kintone_field.py:152-164 | options pass exactly when there are some and no two share a value; no options is the "at least one" error |
| FieldModels.ChoiceOptionsRefuseRepeatedValue | src/python/models/kintone_field.py:159-162 | two options with the same value are refused as duplicates, wherever they sit |
| FieldModels.ValidateRelatedApp | src/python/models/kintone_field.py:229-234 | a related app passes exactly when an app id or an app code is given |
| FieldModels.ValidateFieldMappings | src/python/models/kintone_field.py:258-264 | field mappings pass exactly when there is at least one |
| FieldModels.ValidateDisplayFields | src/python/models/kintone_field.py:277-283 | display fields pass exactly when there is at least one |
| FieldModels.ValidateReferenceSize | src/python/models/kintone_field.py:285-293 | a size passes exactly when absent or one of 1, 3, 5, 10, 20, 30, 40, 50 |
| FieldModels.ReferenceSizesAgree | src/python/models/kintone_field.py:285-293 | the model and the field validator's reference-table check allow the same integer sizes |
| FieldModels.SubtableCodes | src/python/models/kintone_field.py:321-333 | the sub-field codes, one per sub-field in order |
| FieldModels.ValidateSubtableFields | src/python/models/kintone_field.py:321-333 | sub-fields pass exactly when there is at least one and no two share a code |
| FieldModels.ValidateCode | src/python/models/kintone_field.py:359-369 | a code passes exactly when it is non-empty, starts with an ASCII letter and goes on with ASCII letters, digits and underscores (a trailing newline allowed, as `$` does) |
| FieldModels.ValidateLabel | src/python/models/kintone_field.py:371-376 | a label passes exactly when non-empty |
| FieldModels.ModelCodePassesFieldValidator | src/python/models/kintone_field.py:359-369 | every code the model accepts also passes the field validator's code check |
| FieldModels.FieldValidatorWiderThanModel | src/python/models/kintone_field.py:359-369 | the field validator accepts codes the model refuses, such as a kanji code |
| FieldModels.SystemTypeCount | src/python/models/kintone_field.py:384-397 | `is_system_field` holds for exactly eight distinct field types |
| FieldModels.LayoutElementTypeCount | src/python/models/kintone_field.py:399-407 | `is_layout_element` holds for exactly LABEL, SPACER and HR, none of them a system type |
| FieldModels.SystemTypeTablesDiffer | src/python/models/kintone_field.py:384-397 | the model's system types and the validators' SYSTEM_FIELD_TYPES differ: STATUS is in one only, `__ID__` in the other only |
| FieldModels.FirstKeyMismatch | src/python/models/kintone_field.py:421-425 | the first entry whose key is not its field's code, or none exactly when every key matches |
| FieldModels.ValidateCreationProperties | src/python/models/kintone_field.py:415-427 | properties pass exactly when non-empty and every key equals its field's code; the first mismatch in dict order is the one reported |
| FieldModels.ValidateDeleteFields | src/python/models/kintone_field.py:443-451 | delete codes pass exactly when there is at least one and none is repeated |
| AppModels.ValidateIcon | src/python/models/kintone_app.py:63-70 | an icon passes exactly when a PRESET names its key and a FILE carries its file |
| AppModels.ValidateTitleField | src/python/models/kintone_app.py:78-83 | a title field passes exactly when its mode is AUTO or it names a code |
| AppModels.CheckIntString | src/python/models/kintone_app.py:92-114 | an `int()` and range test passes exactly when the string parses to an integer in range, keeps the string, and reports every refusal, out of range included, as "not a number" (the caught range error) |
| AppModels.ValidateDigits | src/python/models/kintone_app.py:92-102 | a digit count passes exactly when it parses to 1..30; any refusal carries the "must be a number" message |
| AppModels.ValidateDecimalPlaces | src/python/models/kintone_app.py:104-114 | decimal places pass exactly when they parse to 0..10; any refusal carries the "must be a number" message |
| AppModels.SizeWithUnitRefused | src/python/models/kintone_app.py:123-134 | "10px" is refused as a size |
| AppModels.ValidateSizeValue | src/python/models/kintone_app.py:123-134 | a size passes exactly when absent or parsing to an integer of at least 0; any refusal carries the "must be a number" message |
| AppModels.ValidateLayoutElement | src/python/models/kintone_app.py:155-164 | an element passes exactly when a ROW has entries and a GROUP or SUBTABLE has a code |
| AppModels.ValidateSettingsName | src/python/models/kintone_app.py:193-199 | a name passes exactly when absent or 1..64 characters long |
| AppModels.ValidateDescription | src/python/models/kintone_app.py:201-207 | a description passes exactly when absent or at most 10000 characters long |
| AppModels.ValidateFiscalMonth | src/python/models/kintone_app.py:209-220 | a fiscal month passes exactly when absent or parsing to 1..12; any refusal carries the "must be a number" message |
| AppModels.ValidateCreationName | src/python/models/kintone_app.py:243-251 | a name passes exactly when it is not blank and at most 64 characters before stripping, and is stored stripped |
| AppModels.CreationNameSettles | src/python/models/kintone_app.py:243-251 | a stored name is non-blank, 1..64 characters, and is stored again unchanged |
| AppModels.PaddedNameCountsPadding | src/python/models/kintone_app.py:243-251 | one instance: `"  app  "` is accepted and stored as `app`, without its padding (the general fact is AppModels.CreationNameSettles) |
| AppModels.ValidateDeployApps | src/python/models/kintone_app.py:258-266 | app ids pass exactly when there is at least one and none is repeated |
| AppModels.ValidatePropertyCode | src/python/models/kintone_app.py:283-293 | a property code passes exactly under the same ASCII rule as a field code |
| AppModels.ValidateMoveAppId | src/python/models/kintone_app.py:315-321 | an app id passes exactly when positive |
| RequestModels.ValidateAuth | src/python/models/validation_models.py:49-55 | a request passes exactly when it has an API token, or both a user name and a password, an empty string counting as absent |
| RequestModels.PositiveId | src/python/models/validation_models.py:64-74 | an id passes exactly when `int()` takes it to a positive integer, which replaces it; every refusal, 0 and negative ids included, is the "ID must be a number" error |
| RequestModels.ZeroIdReportedAsNotANumber | src/python/models/validation_models.py:64-74 | the id 0 is reported as not a number, where the corrected check would report it out of range |
| RequestModels.PositiveIdNormalises | src/python/models/validation_models.py:64-74 | an id given as a decimal string and the same id as a number normalise alike |
| RequestModels.NormaliseFields | src/python/models/validation_models.py:96-102 | a field list becomes None exactly when it is None or empty, and is otherwise kept |
| RequestModels.NormaliseFieldsIdempotent | src/python/models/validation_models.py:96-102 | normalising twice is normalising once, and a normalised list is never empty |
| RequestModels.ValidatePayload | src/python/models/validation_models.py:121-127 | a record, properties or states payload passes exactly when it has at least one member |
| RequestModels.ValidateAppIds | src/python/models/validation_models.py:242-255 | the loop passes exactly when every id is a positive integer, keeps order and length, and otherwise names the first bad id with the "must be a number" error, also for 0 or a negative id |
| RequestModels.ValidateIconConfig | src/python/models/validation_models.py:287-295 | an icon passes exactly when a FILE carries its file and a PRESET names its preset |
| RequestModels.ValidateSettings | src/python/models/validation_models.py:304-310 | settings pass exactly when at least one of name, description, icon and theme is given |
| ModelChecks.ElementsCount | src/python/models/kintone_app.py:258-266 | `len(set(v)) == len(v)` exactly when the list has no duplicates |
| ModelChecks.HasDuplicatesIff | src/python/models/kintone_field.py:443-451 | the length comparison the validators write is a duplicate test, in both directions |
| ModelChecks.ParseInRangeAsWritten | src/python/models/kintone_app.py:92-102 | as written, the range error raised inside the `try` is replaced, so no value is ever reported as out of range |
| ModelChecks.ParseInRangeMeaning | src/python/models/kintone_app.py:92-114 | the corrected check accepts exactly the values that parse to an integer in range, reports "not a number" exactly for values `int()` refuses, and "out of range" for the rest |
| ModelChecks.AsWrittenAcceptsAlike | src/python/models/kintone_app.py:92-114 | the code as written accepts the same values with the same result; only an out-of-range number is misreported as not a number |
| ModelChecks.RangeErrorSwallowed | src/python/models/kintone_app.py:92-102 | as written, the digit count "31" is reported as not a number; corrected, as out of range |
| Credentials.HostEnd | src/python/models/kintone_credentials.py:45-47 | the first character that ends a URL's network location, or the length, with no such character before it |
| Credentials.Netloc | src/python/models/kintone_credentials.py:45-47 | the network location `urlparse` yields holds no path, query or fragment character |
| Credentials.ValidateDomain | src/python/models/kintone_credentials.py:39-53 | an empty domain is the "required" error; a domain passes exactly when the host left after cutting an `http`/`https` URL to its network location contains a dot, and is stored lower-cased |
| Credentials.LowerAsciiFacts | src/python/models/kintone_credentials.py:53 | lower-casing keeps the dots, leaves no upper-case letter, and lower-casing again changes nothing |
| Credentials.AcceptedDomainShape | src/python/models/kintone_credentials.py:39-53 | an accepted domain contains a dot and no upper-case letter, and one cut from a URL has no `/`, `?` or `#` |
| Credentials.DomainSettles | src/python/models/kintone_credentials.py:39-53 | a stored domain that does not itself look like a URL is stored again unchanged |
| Credentials.UpperCaseSchemeKept | src/python/models/kintone_credentials.py:45 | the scheme test is case-sensitive: a domain given as `HTTP://...` keeps its scheme, lower-cased |
| Credentials.SchemeAndPathCut | src/python/models/kintone_credentials.py:45-53 | an `https` scheme is cut off together with any path, query or fragment after the host |
| Credentials.ValidateAuthMethod | src/python/models/kintone_credentials.py:55-79 | credentials pass exactly when they carry a token alone or, without a token, a user name with a password; each other combination gets its own error |
| Credentials.ExactlyOneAuthMethod | src/python/models/kintone_credentials.py:55-89 | accepted credentials use exactly one authentication method |
| Credentials.RequestAuthLooser | src/python/models/kintone_credentials.py:55-79 | whatever the credentials model accepts the request models' `validate_auth` accepts, and that also accepts a token sent with a password, which the credentials model refuses |
| Credentials.BaseUrl | src/python/models/kintone_credentials.py:91-94 | the base URL is the domain behind `https://` |
| Credentials.BaseUrlRoundTrip | src/python/models/kintone_credentials.py:39-94 | validating the base URL of a validated domain gives the domain back |
| Credentials.GetAuthHeaders | src/python/models/kintone_credentials.py:96-110 | a header is produced exactly when a token or a user name and password are given: the token header when a token is, else `Basic` and the base 64 of the UTF-8 bytes of `user:password` |
| Credentials.AcceptedCredentialsHaveHeader | src/python/models/kintone_credentials.py:55-110 | accepted credentials always produce exactly one header |
| Credentials.BasicTokenRoundTrip | src/python/models/kintone_credentials.py:102-108 | decoding the basic token gives back the UTF-8 bytes of `user:password`, their text, and, for a user id without a colon, the user id and password |
| Credentials.FromCredentials | src/python/models/kintone_credentials.py:142-152 | the connection summary says `api_token` exactly for token credentials and `basic_auth` otherwise, and copies the domain, base URL and connection flag |
| Credentials.ConnectionMethodMatchesHeader | src/python/models/kintone_credentials.py:96-152 | for accepted credentials the summary names `basic_auth` exactly when the header is the `Authorization` one |
| Encoding.EncodeChar | src/python/models/kintone_credentials.py:105 | a character takes one to four UTF-8 bytes, one exactly below 0x80, continuation bytes after the first |
| Encoding.EncodeUtf8 | src/python/models/kintone_credentials.py:105 | `str.encode()` yields at least one byte per character |
| Encoding.DecodeFirst | src/python/models/kintone_credentials.py:105 | the first decoded character takes between one byte and all of them |
| Encoding.DecodeFirstEncodeChar | src/python/models/kintone_credentials.py:105 | the first character of an encoding followed by anything is read back whole |
| Encoding.Utf8RoundTrip | src/python/models/kintone_credentials.py:105 | decoding undoes `str.encode()` |
| Encoding.Alphabet | src/python/models/kintone_credentials.py:105 | no base 64 digit is the padding character |
| Encoding.AlphabetIndex | src/python/models/kintone_credentials.py:105 | a character of the alphabet stands for a value below 64 |
| Encoding.AlphabetIndexInverse | src/python/models/kintone_credentials.py:105 | reading a base 64 digit gives back its value |
| Encoding.Block | src/python/models/kintone_credentials.py:105 | three bytes become four characters with no padding |
| Encoding.Final1 | src/python/models/kintone_credentials.py:105 | one final byte becomes two characters and two `=` |
| Encoding.Final2 | src/python/models/kintone_credentials.py:105 | two final bytes become three characters and one `=` |
| Encoding.DecodeBlockInverse | src/python/models/kintone_credentials.py:105 | a full group decodes to its three bytes |
| Encoding.DecodeFinal1Inverse | src/python/models/kintone_credentials.py:105 | a one-byte final group decodes to its byte |
| Encoding.DecodeFinal2Inverse | src/python/models/kintone_credentials.py:105 | a two-byte final group decodes to its bytes |
| Encoding.Base64RoundTrip | src/python/models/kintone_credentials.py:105 | decoding undoes `base64.b64encode` |
| Encoding.DecodeAfterBlock | src/python/models/kintone_credentials.py:105 | a full group followed by more text decodes to the group's bytes followed by the rest's |
| Encoding.EncodedLength | src/python/models/kintone_credentials.py:105 | the encoding takes four characters for every three bytes or fewer at the end |
| Encoding.EncodedCharacters | src/python/models/kintone_credentials.py:105 | every character of an encoding is in the alphabet or is padding |
| Record.Wrap | src/python/models/kintone_record.py:38-46 | the stored entry is a non-empty dict |
| Record.Unwrap | src/python/models/kintone_record.py:23-36 | a non-empty dict entry gives its `value` (None when it has none), and anything else, `{}` included, comes back as it is |
| Record.UnwrapWrap | src/python/models/kintone_record.py:23-46 | reading an entry written by `set_field_value` gives the value written |
| Record.UpdateFormat | src/python/models/kintone_record.py:80-92 | the update format has no more entries than the record |
| Record.UpdateFormatEntries | src/python/models/kintone_record.py:80-92 | the update format keeps exactly the entries whose code does not start with `$`, unchanged |
| Record.UpdateFormatDistinct | src/python/models/kintone_record.py:80-92 | distinct codes stay distinct in the update format |
| Record.PutDistinct | src/python/models/kintone_record.py:38-46 | storing under a code keeps every code appearing once |
| Record.KintoneRecord.constructor | src/python/models/kintone_record.py:18-21 | a record holds the given app id, record id, fields and revision |
| Record.KintoneRecord.FieldValue | src/python/models/kintone_record.py:23-36 | a missing code reads as None, a present one as its unwrapped entry |
| Record.KintoneRecord.SystemField | src/python/models/kintone_record.py:48-58 | a system field absent from the record's fields reads as None, a present one as the value of its stored wrapper |
| Record.KintoneRecord.CreatedTime | src/python/models/kintone_record.py:60-63 | reads as None when the record has no `$created_time` entry, and otherwise as the value inside that entry's wrapper |
| Record.KintoneRecord.UpdatedTime | src/python/models/kintone_record.py:65-68 | reads as None when the record has no `$updated_time` entry, and otherwise as the value inside that entry's wrapper |
| Record.KintoneRecord.Creator | src/python/models/kintone_record.py:70-73 | reads as None when the record has no `$creator` entry, and otherwise as the value inside that entry's wrapper |
| Record.KintoneRecord.Modifier | src/python/models/kintone_record.py:75-78 | reads as None when the record has no `$modifier` entry, and otherwise as the value inside that entry's wrapper |
| Record.KintoneRecord.SetFieldValue | src/python/models/kintone_record.py:38-46 | the record stores `{"value": value}` under the code, in place of an existing entry or as a new last one, keeps each code once and everything else unchanged, so the code then reads back as the value and every other code as before |
| Record.KintoneRecord.ToUpdateFormat | src/python/models/kintone_record.py:80-92 | the copy is exactly `UpdateFormat(fields)`, and the record is left as it is |
| Record.AccessorCodesAreSystemCodes | src/python/models/kintone_record.py:48-92 | the accessors read system codes, so the update format never carries what they read |
| Converters.ValuesOf | src/python/repositories/nodejs_wrapper_interface.py:272-274 | one entry per field, mapping its code to its `value` (None when it has none) |
| Converters.ConvertFields | src/python/repositories/nodejs_wrapper_interface.py:261-275 | the loop copying the `value` of every non-system field yields exactly `ConvertedFields` |
| Converters.ErrStays | src/python/repositories/nodejs_wrapper_interface.py:272-274 | once a prefix of the conversion fails, the whole conversion fails the same way |
| Converters.ConvertedFieldsSucceed | src/python/repositories/nodejs_wrapper_interface.py:261-275 | the conversion succeeds exactly when every entry whose code does not start with `$` is a dict |
| Converters.ConvertedFieldsValues | src/python/repositories/nodejs_wrapper_interface.py:261-275 | for a dict, the converted fields are the record's update format with each entry replaced by its `value` |
| Converters.SystemNumber | src/python/repositories/nodejs_wrapper_interface.py:191-192 | a missing system field reads as 0 |
| Converters.ConvertKintoneRecord | src/python/repositories/nodejs_wrapper_interface.py:177-200 | a `record` is converted; otherwise the first of a non-empty `records` list is; otherwise the result is `{}` |
| Converters.ConvertSingleDefaults | src/python/repositories/nodejs_wrapper_interface.py:187-194 | a record without system fields converts with record id and revision 0 and its fields' values |
| Converters.Iterated | src/python/repositories/nodejs_wrapper_interface.py:213-217 | `for x in v` over a list goes over its items |
| Converters.ConvertEach | src/python/repositories/nodejs_wrapper_interface.py:213-217 | the list converts exactly when each record does, one converted record per record in order |
| Converters.ConvertKintoneRecords | src/python/repositories/nodejs_wrapper_interface.py:203-218 | without `records` the result is `[]`; with a list, each record is converted in turn |
| Converters.SingleIsFirstOfMany | src/python/repositories/nodejs_wrapper_interface.py:177-218 | with only a `records` list, the single-record converter returns the first of what the list converter returns |
| Converters.ConvertAppInfo | src/python/repositories/nodejs_wrapper_interface.py:221-242 | a non-dict app is an error; a dict converts exactly when `int()` takes its `appId` (default 0), giving one argument per app field |
| Converters.AppArgs | src/python/repositories/nodejs_wrapper_interface.py:231-242 | the argument dict holds each app key once, in order |
| Converters.AppArgsDistinct | src/python/repositories/nodejs_wrapper_interface.py:231-242 | the argument dict has no repeated key |
| Converters.AppInfoDefaults | src/python/repositories/nodejs_wrapper_interface.py:221-242 | `app_id` is `int(appId)`, 0 when absent; code, name and description default to "", creator and modifier to `{}`, the space id to None |
| Converters.ConvertAppList | src/python/repositories/nodejs_wrapper_interface.py:245-258 | the list converts exactly when each app does, one converted app per app in order |
| Converters.SelectConverter | src/python/repositories/nodejs_wrapper_interface.py:294-299 | the record converter is chosen exactly when the model name contains "Record", the app converter exactly when it contains "App" and not "Record" |
| Converters.ParseResponse | src/python/repositories/nodejs_wrapper_interface.py:281-303 | the response is converted by the chosen converter, or passed on unchanged when none applies |
| Converters.RecordWinsOverApp | src/python/repositories/nodejs_wrapper_interface.py:294-299 | one instance: `AppRecord`, holding both words, gets the record converter, while `AppInfo` gets the app converter |
| Exceptions.OrEmpty | src/python/utils/exceptions.py:21 | falsy details are replaced by `{}`, truthy ones kept |
| Exceptions.FixedCode | src/python/utils/exceptions.py:40-102 | every subclass fixes its own error code except `KintoneError` and `KintoneAPIError`, which take it as an argument |
| Exceptions.DefaultMessage | src/python/utils/exceptions.py:40-94 | exactly the authentication, permission, network and timeout errors have a default message |
| Exceptions.FixedCodesDistinct | src/python/utils/exceptions.py:40-102 | no two subclasses fix the same code |
| Exceptions.NewKintoneError | src/python/utils/exceptions.py:17-21 | `KintoneError` keeps message and code, and its details default to `{}` |
| Exceptions.NewApiError | src/python/utils/exceptions.py:28-37 | `KintoneAPIError` also keeps the kintone error code and the HTTP status |
| Exceptions.NewClassError | src/python/utils/exceptions.py:40-102 | a subclass carries its own fixed code whatever the caller passes, and its default message when none is given |
| Exceptions.ClassOfCode | src/python/utils/exceptions.py:114-134 | six codes are recognised, `KINTONE_API_ERROR` picks the API error, any other recognised code picks the class that fixes it, and the timeout and configuration classes are never picked |
| Exceptions.ClassOfFixedCode | src/python/utils/exceptions.py:114-124 | each recognised class is picked by its own fixed code |
| Exceptions.UnrecognisedFixedCodes | src/python/utils/exceptions.py:86-134 | the timeout and configuration codes come back as a plain `KintoneError` |
| Exceptions.FromNodejsResponse | src/python/utils/exceptions.py:105-136 | a response that has not failed gives "Unknown error occurred"; a failed one whose `error` is not a dict cannot be read |
| Exceptions.SucceededIsUnknown | src/python/utils/exceptions.py:105-136 | with `success` absent or true, the result is the plain unknown error, whatever else the response holds |
| Exceptions.FailureDefaults | src/python/utils/exceptions.py:109-134 | a failed response without code, message or details gives `UNKNOWN_ERROR`, "Unknown error occurred" and `{}` |
| Exceptions.KnownCodeGivesClass | src/python/utils/exceptions.py:114-124 | a recognised code gives its class, with that class's fixed code, the response's message and its details |
| Exceptions.ApiErrorFromDetails | src/python/utils/exceptions.py:125-132 | `KINTONE_API_ERROR` takes the kintone code and HTTP status from the details dict, and non-dict details cannot be read |
| Exceptions.UnknownCodeKept | src/python/utils/exceptions.py:133-134 | an unrecognised code is kept, with message and details, on a plain `KintoneError` |
| ErrorHandler.CodesAreReserved | src/python/utils/error_handler.py:34-44 | the five codes are distinct and lie in the range that section 5.1 of JSON-RPC 2.0 reserves, outside the server-error range, whose ends are the last two codes |
| ErrorHandler.NewMCPError | src/python/utils/error_handler.py:53-64 | `MCPError` keeps code, message and request id, and falsy data becomes `{}` |
| ErrorHandler.ErrorObject | src/python/utils/error_handler.py:70-73 | the error object holds the code and the message and no `data` |
| ErrorHandler.ErrorObjectWithData | src/python/utils/error_handler.py:77 | setting `data` keeps code and message and adds the data |
| ErrorHandler.Envelope | src/python/utils/error_handler.py:68-74 | the response has `jsonrpc` "2.0", the error object and no `id` |
| ErrorHandler.Filled | src/python/utils/error_handler.py:76-77 | after the optional `data` step the error carries `data` exactly when it was asked for |
| ErrorHandler.Complete | src/python/utils/error_handler.py:76-82 | the finished response has `data` exactly when it was asked for and `id` exactly when the request id is not None |
| ErrorHandler.ToDict | src/python/utils/error_handler.py:66-82 | `to_dict` gives `jsonrpc` "2.0", code and message, `data` exactly when it is truthy, and `id` exactly when a request id was given |
| ErrorHandler.CreateErrorResponse | src/python/utils/error_handler.py:353-386 | `jsonrpc` is "2.0", `data` is present exactly when it is not None, `id` exactly when it is not None |
| ErrorHandler.ToDictIsCreateErrorResponse | src/python/utils/error_handler.py:66-82 | `to_dict` gives the same response as `create_error_response` (lines 353-386) once falsy data is passed as None |
| ErrorHandler.EmptyDataDiffers | src/python/utils/error_handler.py:76-77 | an empty dict is where they differ: `to_dict` drops it, `create_error_response` keeps it |
| ErrorHandler.InvalidParamsResponse | src/python/utils/error_handler.py:388-396 | `invalid_params` uses -32602 |
| ErrorHandler.MethodNotFoundResponse | src/python/utils/error_handler.py:398-406 | `method_not_found` uses -32601 |
| ErrorHandler.InternalErrorResponse | src/python/utils/error_handler.py:408-416 | `internal_error` uses -32603 |
| ErrorHandler.ServerErrorResponse | src/python/utils/error_handler.py:418-426 | `server_error` uses -32000 |
| ErrorHandler.KindCode | src/python/utils/error_handler.py:184-195 | `ValueError` and only it gets -32602, `FileNotFoundError` -32601, permission and timeout errors -32000, anything else -32603 |
| ErrorHandler.ToMcpErrorResponse | src/python/utils/error_handler.py:183-207 | the response has no `jsonrpc`; its error has the kind's code, the exception's text or the fixed timeout message, and data with the type name and the exception's timestamp or the current time |
| ErrorHandler.ToMcpCodesReserved | src/python/utils/error_handler.py:183-207 | every code it gives is a reserved JSON-RPC code, and -32000 exactly for permission and timeout errors |
| ErrorHandler.MissingParams | src/python/utils/error_handler.py:299-302 | the missing names are at most the required ones |
| ErrorHandler.MissingParamsMeaning | src/python/utils/error_handler.py:299-302 | a name is reported exactly when it is required and absent or None |
| ErrorHandler.ValidateRequiredParams | src/python/utils/error_handler.py:287-309 | raises exactly when some required name is absent or None, and reports exactly those names in list order |
| ErrorHandler.TypeOf | src/python/utils/error_handler.py:327 | no value has `object` as its own type |
| ErrorHandler.Mismatch | src/python/utils/error_handler.py:325-328 | an entry reports a mismatch exactly when its parameter is present, not None and not an instance of the expected type, naming both types |
| ErrorHandler.TypeErrors | src/python/utils/error_handler.py:325-328 | there are at most as many mismatches as expected types |
| ErrorHandler.TypeErrorsMeaning | src/python/utils/error_handler.py:325-328 | a mismatch is reported exactly when some expected type finds it |
| ErrorHandler.ValidateParamTypes | src/python/utils/error_handler.py:312-335 | raises exactly when some present, non-None parameter has another type, reporting the mismatches in order |
| ErrorHandler.LenientChecks | src/python/utils/error_handler.py:326-327 | a boolean passes an `int` check, and an absent or None parameter passes every check |
| LoggingLevels.Severity | src/python/utils/logging_config.py:17-26 | each level has its RFC 5424 (section 6.2.1) severity, below 8 |
| LoggingLevels.PythonLevel | src/python/utils/logging_config.py:30-39 | each level's number is the one the mapping lists |
| LoggingLevels.PythonLevelOrder | src/python/utils/logging_config.py:30-39 | the mapping is injective and a more severe level has a larger number |
| LoggingLevels.Inverse | src/python/utils/logging_config.py:42 | the inverse is keyed by exactly the mapping's numbers |
| LoggingLevels.InverseAt | src/python/utils/logging_config.py:42 | when no number repeats, the inverse maps each number back to its level |
| LoggingLevels.InverseRoundTrip | src/python/utils/logging_config.py:30-42 | every level is found again under its own number, so the inverse loses nothing |
| LoggingLevels.Exact | src/python/utils/logging_config.py:97-99 | the level found has the number, and none is found exactly when no level has it |
| LoggingLevels.ExactFindsFirst | src/python/utils/logging_config.py:97-99 | the search returns the first entry with the number |
| LoggingLevels.Approximate | src/python/utils/logging_config.py:101-111 | the fallback gives one of the five standard levels |
| LoggingLevels.FormatterMcpLevel | src/python/utils/logging_config.py:94-111 | the search loop always returns a level, the exact one when the number is mapped and otherwise the fallback |
| LoggingLevels.HandlerMcpLevel | src/python/utils/logging_config.py:163-166 | the handler's level is the formatter's, so the INFO fallback is never taken |
| LoggingLevels.McpLevelRoundTrip | src/python/utils/logging_config.py:94-99 | a level mapped to its number and back is the same level |
| LoggingLevels.Fallbacks | src/python/utils/logging_config.py:101-111 | an unmapped number gives DEBUG up to 10, INFO up to 20, WARNING up to 30, ERROR up to 40 and CRITICAL above |
| LoggingLevels.FallbackNotMonotone | src/python/utils/logging_config.py:101-111 | a larger number can give a less severe level (24 is WARNING but 25 is NOTICE) |
| Json.NumKeyEq | src/python/server/tools/implementations/layout_tools.py:376-377 | two numbers are `==`, and so one dict key, exactly when their values are equal: `True`, `1` and `1.0` are one key |
| Json.KeyEqExamples | src/python/server/tools/implementations/layout_tools.py:376-377 | `True == 1 == 1.0` and `2.5 == 2.50` hold; `True` differs from `"1"` and `False` from `None` (single instances) |
| Json.KeyEqStr | src/python/server/tools/implementations/layout_tools.py:379 | only the string itself is `==` to a string, so `element_type == "ROW"` holds for that string alone |
| Json.PairsOfSome | src/python/server/tools/implementations/field_tools.py:562 | `dict(items)` succeeds exactly when every item is a pair with a string key, and then lists each item's pair in order |
| Json.AssignedNonEmpty | src/python/server/tools/implementations/field_tools.py:562 | a dict built by assigning at least one pair is not empty, so `dict()` of a non-empty list of pairs is truthy |
| Text.KeepNumeric | src/python/repositories/validators/layout_validator.py:274 | only ASCII digits and dots remain, in order, and a string made of them alone is unchanged |
| Text.ParseDigitsAndDot | src/python/repositories/validators/layout_validator.py:275-278 | `float()` of such a string succeeds only with a digit present, and a string of digits parses to its value |
| Text.StripBlank | src/python/repositories/validators/field_validator.py:492 | a string strips to empty exactly when it is all whitespace |
| Text.UnderscoreGrouping | src/python/repositories/validators/field_validator.py:713 | `int()` reads the underscore-grouped "1_0" as 10 |
| Text.UnderscoreMisplaced | src/python/repositories/validators/field_validator.py:713 | `int()` refuses a leading, a trailing or a doubled underscore: "_1", "1_", "1__0" |

## Left out

- I/O, the network, the Node.js subprocess, the clock and uuid4 are outside the model. The time read by `generate_field_code_from_label` and the uuid suffixes of new group and spacer ids are parameters.
- Log lines (`logger.*`) are not return values and are not modelled. Only returned warnings and guidance lists are.
- Deep copies (`copy.deepcopy`) become value semantics. A function returns the new value and the caller's value is untouched by construction.
- LayoutEdit.AddElementToLayout: `_add_element_to_layout` copies the layout shallowly. A `list.insert` into a group's nested `layout` therefore also changes the caller's layout. The model returns the new layout as a value and does not capture that aliasing.
- Floats are decimals (`mant / 10^exp`). IEEE rounding, `inf` and `nan` are not modelled.
- Text: Python's `\w`, `\s` and `\d` are modelled by explicit character ranges. These cover the scripts the server's data uses, not the full Unicode tables.
- Credentials.ValidateDomain: `str.lower()` is modelled for ASCII letters only; other cased letters in a domain are kept as they are. `urlparse(v).netloc` is modelled for values starting with `http://` or `https://`, as what follows `//` up to the first `/`, `?` or `#`. Its other rules (a `;` in the path, a bracketed IPv6 host) are not modelled.
- ExpressionFormat.ValidateExpressionFormat: the suggestion inserts the captured arguments literally. `re.sub` would read a backslash in them as a template escape.
- ErrorHandler.ValidateRequiredParams: the source raises with keyword arguments that `KintoneValidationError` does not accept, so the actual exception is a `TypeError`. The model states only that the call raises and with which names, not the exception kind.
- ErrorHandler.ValidateParamTypes: the same `TypeError` applies; the model states only that the call raises and with which mismatches.
- ErrorHandler.ToMcpErrorResponse: the `KintoneBaseError` branch calls a method that does not exist and is not modelled. Only exceptions outside that hierarchy are.
- The subprocess and JSON-parse error helpers of `ErrorHandler`, `log_error` and the `handle_kintone_errors` decorator are not modelled. They wrap I/O and logging.
- `format_validation_error` is pydantic machinery and is not modelled. `parse_nodejs_error_response` is `create_error_from_nodejs_response` under another name.
- Exceptions.NewClassError: the extra attributes some subclasses store (`validation_errors`, `command`, `exit_code`, `stderr`, `missing_config` and the timeout value) are not modelled. Only message, code, details, kintone code and HTTP status are.
- `parse_response_list` in `nodejs_wrapper_interface.py` is not modelled, and neither is the pydantic model construction that ends `parse_response`. Converters.ParseResponse stops at the converted keyword arguments.
- `NumberFieldConfig.validate_numeric_string` and `CalcFieldConfig.validate_expression` in `kintone_field.py` are not modelled.
- Pydantic's own checks (aliases, `Field(min_length=...)`, type coercion) are not modelled. Attributes arrive already typed, and only the validator bodies are modelled.
- `setup_logging` and the other logging set-up functions change global logger state and are not modelled.
- LoggingLevels.HandlerMcpLevel: the handler's INFO fallback is dead code, since the formatter always returns a level. The model proves this rather than modelling the fallback as reachable.
- Where a source type hint promises a dict or a list and the code would crash on anything else, a `requires` states the shape. Examples are a non-dict field map and a non-list `fields` in the layout utilities.
- LayoutUtils.AddMissingSettles: the idempotence of adding missing fields is proved only for field maps whose codes are not empty and whose definitions are truthy. An empty code is never collected by `extract_fields_from_layout`, so it would be added again on every call.
- LayoutUtils.CorrectLayoutSettles: the idempotence of the width repair is proved only when every truthy `_recommendedMinWidth` is a value `int()` accepts. CorrectFieldWidthSettles, CorrectFieldSettles and CorrectItemSettles carry the same proviso.
- FieldValidator.AutoCorrectUnitPosition: its own contract only says the result is a dict. What it changes is stated by AutoCorrectKeeps and ValidateFieldFillsPosition.
- FieldValidator.ValidateField: its own contract only says the result is a dict. Its effect is stated by the lemmas listed after it.
- FieldValidator.ValidateCalc: its own contract only says an accepted result is a dict. Its behaviour is stated by ValidateCalcShape, CalcResult and ValidateCalcNotIdempotent.
- FieldValidator.TypeSpecificChecks: its own contract only says an accepted result is a dict. TypeSpecificChecksResult and TypeSpecificChecksKeeps state what it does in either CALC order; TypeSpecificChecksStable holds for the corrected order only.
- FieldValidator.LookupHint: its own contract only says the result is a dict. LookupHintKeeps and LookupHintIdempotent state what it does.
- FieldTools.Corrected: its own contract only says the result is a dict. The lemmas listed after it state what it does.
- Dict keys are strings in the model. Python also stores ints, booleans and other hashable values as keys, and merges `True` with `1` and `False` with `0`. The members below refuse, with a type fault, what Python would store under such a key.
- FieldHandlers.LookupSize: `dict(size)` of a list is modelled for pairs whose key is a string. A pair with an int, boolean or None key is refused, where `dict()` builds a dict with that key.
- FieldHandlers.KeyedEntry: an option whose value or label is an int or a boolean is refused, where the source stores it under that key.
- FieldHandlers.CreateChoiceField: choices that are ints or booleans are refused, where the source builds options keyed by them.
- FieldHandlers.PrepareAddFields: list-form options keyed by ints or booleans are refused, as in KeyedEntry; the rest of the preparation is modelled.
- FieldHandlers.Fields: the same restriction as PrepareAddFields.
- FieldHandlers.AddFieldsStored: the same restriction as PrepareAddFields; a field code that is an int is not stored under that int.
- FieldHandlers.UpdateField: a `field_code` that is not a string is refused, where the source uses it as the key of the properties dict.
- FieldHandlers.ReferenceTable: `str()` is modelled for strings, ints and booleans. A float `size` such as 1.5 is refused, where the source writes "1.5".
- FieldHandlers.DefaultSort: the same `str()` scope as ReferenceTable. A float or a None key is refused.
- LayoutTools.CollectPlacedFields: a code that is a list or a dict is collected, where `placed_fields.add` raises `TypeError` because such a value is not hashable.
- LayoutBuilders.BuildFormLayout: sections are modelled when they are strings, ints, booleans or None. A float, list or dict section is excluded by `KeyableSections`. So are a field list holding both `True` and `1`, or both `False` and `0`, which one Python dict key would merge.
- LayoutBuilders.FormLayout: the same section scope as BuildFormLayout.
- LayoutBuilders.FormShape: the same section scope as BuildFormLayout.
- Text.ParseInt: `int()` of a string is modelled for ASCII and full-width digits, an optional sign, surrounding whitespace and single underscores between digits. Other Unicode decimal digits (Arabic-Indic, Devanagari and so on) are refused, where `int()` accepts them.
- FieldValidator.NumberDisplayCheck: reads `displayScale` through Text.ParseInt and shares its digit scope.
- FieldValidator.TextCheck: reads `maxLength` through Text.ParseInt and shares its digit scope.

## Findings

| source | as written | input that shows it | evidently intended | confidence | as-written member | corrected member |
|---|---|---|---|---|---|---|
| src/python/repositories/validators/field_validator.py:537-579 | a CALC field without `format` skips the numeric checks and only then gets the default `NUMBER_DIGIT`, so its own result can fail validation | `{type: CALC, expression: "a", displayScale: 11}` passes once; its result, now with `format` NUMBER_DIGIT, is refused for `displayScale` | the default format is chosen before the checks, so a validated field validates again unchanged | not executed | FieldValidator.ValidateCalcNotIdempotent, FieldValidator.NotIdempotentWitness, FieldValidator.ValidateFieldNotIdempotent | FieldValidator.ValidateCalcDefaultFirst, FieldValidator.ValidateCalcDefaultFirstIdempotent, FieldValidator.DefaultFirstRefinesCalc, FieldValidator.ValidateFieldIdempotent, FieldValidator.DefaultFirstRefinesValidateField |
| src/python/repositories/validators/field_validator.py:437-441 | the rewrite built from the FIRST `DAYS_BETWEEN` match is used for every match | `DAYS_BETWEEN(a,b)+DAYS_BETWEEN(c,d)`: both calls become the rewrite of `a`, `b` | each call is rewritten from its own arguments | not executed | ExpressionFormat.TwoCallsAsWritten, ExpressionFormat.TwoMatchesAsWritten, ExpressionFormat.DaysVerdict, ExpressionFormat.TwoCallsVerdict | ExpressionFormat.TwoMatchesEach, ExpressionFormat.EachAgreesWhenUniform |
| src/python/models/kintone_app.py:92-114 | the range error raised inside `try` is caught by the `except ValueError` around it and replaced by the "not a number" message | `digits = "31"` is reported as not a number | a number out of range is reported as out of range | not executed | ModelChecks.ParseInRangeAsWritten, ModelChecks.RangeErrorSwallowed, AppModels.CheckIntString | ModelChecks.ParseInRange, ModelChecks.ParseInRangeMeaning |
| src/python/models/validation_models.py:64-74 | the same pattern: the "must be positive" error raised inside `try` is replaced by the "must be a number" message | the id 0 is reported as not a number | an id of 0 or below is reported as not positive | not executed | RequestModels.PositiveId, RequestModels.ZeroIdReportedAsNotANumber | ModelChecks.ParseInRange, ModelChecks.ParseInRangeMeaning |
| src/python/models/validation_models.py:244-255 | the same pattern inside the loop over app ids | the app id list `[0]` names 0 as not a number | the id is named as not positive | not executed | RequestModels.ValidateAppIds | ModelChecks.ParseInRange, ModelChecks.ParseInRangeMeaning |
