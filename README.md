# PVsyst component parser — a Dafny model

`pvsyst_parser.py` turns the semicolon-separated lines that PVsyst exports
for inverters and solar panels into specification records, and gathers a
batch of them into a table. This project models:

- **the positional parsing engine**: one line is split on `;`, and a fixed
  table of fields reads its tokens;
- **the per-field policies**:
  - text is stripped, or is `""` past the end of the line;
  - floats are `0` when absent or blank, and a malformed float rejects the
    whole record;
  - cell counts are the digits' value, or `0`, and a count whose digits
    `int` still rejects rejects the whole record;
  - the grid frequency goes through a lenient normaliser;
- **the panel's derived area and efficiency**;
- **the batch loops** that keep the successful parses in input order;
- **the column filter** applied before export.

Modules, one per concern:

- `Wrappers` (`wrappers.dfy`) holds `Option`. It stands in for Python's `None`
  and for the `try`/`except` that turns any error into `None`.
- `Text` (`text.dfy`) models the Python string operations the parser uses:
  - `str.strip()` over Python's whitespace set and `str.lower()`;
  - the substring test `in`;
  - `str.replace(pat, '')`, `str.isdigit()` and `str.split(';')`.
- `Numbers` (`numbers.dfy`) models `float(text)`, `int(text)` and
  `round(x, n)` over exact reals and integers.
- `Values` (`values.dfy`) holds the value of an attribute.
  - Text, an integer and a float are kept apart because the source keeps
    them apart: a missing float field is the integer `0`, and a dual-rated
    frequency is the integer `50`.
  - It also holds the attribute names (`Attr`) and a record (a map from name
    to value).
- `Frequency` (`frequency.dfy`) models `parse_frequency`.
- `Fields` (`fields.dfy`) is the shared extraction engine.
  - A field is a name, a token position and a kind.
  - `ExtractAll` evaluates the dictionary literal of either parser: either
    every key is present, or the result is `None`.
- `Inverter` (`inverter.dfy`) models `parse_inverter_data` as the inverter's
  field table plus the engine.
- `Panel` (`panel.dfy`) models `parse_solar_panel_data`: the panel's table,
  then the derivation of `Panel_Area_m2` and `Efficiency_percent`.
- `Batch` (`batch.dfy`) models the two collecting loops and the
  `existing_columns` filter.
  - `CollectRecords` is the loop, proved against the specification function
    `Kept`.
  - `SelectColumns` is the filter.

Where the efficiency is zero, the model follows the code:

- The efficiency is the integer `0` exactly when the rounded area is not
  positive. That covers a negative area, not only an area of `0`.
- The efficiency is also numerically zero (the float `0.0`) when the area is
  positive and the power is `0`.
- So a zero efficiency does not mean a zero area.
  `Panel.ZeroPowerZeroEfficiency` and `Panel.NegativeLengthZeroEfficiency`
  show the two cases, and
  `Panel.EfficiencyIntZeroIffNoArea` states the rule that does hold.

`str.strip()` and the numeric conversions disagree about what whitespace
is. `strip()` also removes the separator characters U+001C..U+001F, but
`float` and `int` do not, and they raise on text that holds one. So a token
such as `350` followed by U+001C passes the blank test of a float field and
then rejects the record; a count token `12` followed by U+001C passes the
`strip().isdigit()` guard and then rejects the record too.

The inverter table declares `Total_String_Inputs` before `Total_MPPT`, and
the export order puts `Total_MPPT` first. `Batch.InverterColumns` follows
the export order and `Inverter.InverterFields` follows the record literal.

## Model

| member | source | states |
|---|---|---|
| Text.Split | pvsyst_parser.py:8 | `split(';')` yields at least one token, and no token contains `;` |
| Text.SplitCount | pvsyst_parser.py:8 | a line has exactly one more token than it has `;` characters |
| Text.JoinSplit | pvsyst_parser.py:8 | joining the tokens with `;` gives the line back, so splitting loses nothing |
| Text.SplitJoin | pvsyst_parser.py:8 | splitting tokens joined with `;` (tokens without `;`) gives those tokens back |
| Text.TrimLeft | pvsyst_parser.py:14 | the result is a suffix of the text, everything removed is whitespace, and it does not start with whitespace |
| Text.TrimRight | pvsyst_parser.py:14 | the result is a prefix of the text, everything removed is whitespace, and it does not end with whitespace |
| Text.Strip | pvsyst_parser.py:14 | `strip()` leaves no whitespace at either end and never lengthens the text |
| Text.StripIdempotent | pvsyst_parser.py:14 | stripping twice is stripping once |
| Text.StripEmptyIffAllSpace | pvsyst_parser.py:29 | a token strips to `""` exactly when it is whitespace only, which is the blank test of every float field |
| Text.StripNoSpaceEnds | pvsyst_parser.py:25 | a token with no whitespace at its ends is left unchanged by `strip()` |
| Text.Lower | pvsyst_parser.py:14 | `lower()` keeps the length and lowers each character |
| Text.ContainsStrip | pvsyst_parser.py:14-15 | an occurrence of a pattern without whitespace, such as `50/60`, survives `strip()` |
| Text.ContainsLower | pvsyst_parser.py:14-15 | an occurrence of a pattern that has no upper-case letters survives `lower()` |
| Text.RemoveAll | pvsyst_parser.py:19 | `replace('hz', '')` never lengthens the text |
| Text.RemoveAllSkipsPrefix | pvsyst_parser.py:19 | text before the first `h` is kept verbatim by `replace('hz', '')` |
| Text.RemoveAllNoop | pvsyst_parser.py:19 | text without an `h` is unchanged by `replace('hz', '')` |
| Text.RemoveAllNoOccurrence | pvsyst_parser.py:19 | text in which the pattern does not occur is unchanged by `replace` |
| Text.RemoveAllFirstOccurrence | pvsyst_parser.py:19 | `replace(pat, '')` keeps the text before the first occurrence, deletes that occurrence, and goes on with the rest; with `Text.RemoveAllNoOccurrence` this fixes the result for every text |
| Text.RemoveAllDeletes | pvsyst_parser.py:19 | an occurrence behind text without the pattern's first character is deleted, and the text before it kept |
| Text.IndexOf | pvsyst_parser.py:29 | the first position of a character: the character is there and not earlier (locates the decimal point) |
| Numbers.ParseUnsigned | pvsyst_parser.py:29 | an unsigned decimal literal reads as a non-negative number |
| Numbers.PyFloat | pvsyst_parser.py:29 | `float` of a blank token fails, and so does `float` of text holding a U+001C..U+001F character |
| Numbers.SignedDecimal | pvsyst_parser.py:29 | the sign `float` accepts: an empty literal fails, a literal led by `-` reads as a number that is not positive, any other as one that is not negative |
| Numbers.PyInt | pvsyst_parser.py:64 | `int` of a blank token fails, and so does `int` of text holding a U+001C..U+001F character |
| Numbers.PyFloatIgnoresSpace | pvsyst_parser.py:29 | surrounding whitespace other than U+001C..U+001F never changes what `float` reads, and whenever `float` reads a number, stripping first reads the same number |
| Numbers.StripKeepsNoSeparator | pvsyst_parser.py:29 | `strip()` brings no U+001C..U+001F character into a text that has none |
| Numbers.SeparatorRejects | pvsyst_parser.py:29 | digits followed by a U+001C..U+001F character strip to the digits, yet `float` and `int` both reject them |
| Numbers.DigitRunParses | pvsyst_parser.py:64 | a run of ASCII digits reads as its value under both `float` and `int` |
| Numbers.PyFloatNegative | pvsyst_parser.py:29 | a leading `-` negates what `float` reads, and fails exactly when the unsigned text fails |
| Numbers.RoundHalfEven | pvsyst_parser.py:82 | rounding to an integer moves the value by at most one half |
| Numbers.Steps | pvsyst_parser.py:82 | the number of `10^-n` steps `round(x, n)` lands on is within one half of `x * 10^n` |
| Numbers.Round | pvsyst_parser.py:82 | `round(x, n)` lies within half a unit of the `n`-th decimal place of `x` |
| Numbers.RoundIdempotent | pvsyst_parser.py:233-235 | rounding an already rounded value to the same places changes nothing |
| Numbers.RoundNonPositive | pvsyst_parser.py:85-88 | rounding never makes a value that is not positive into a positive one |
| Values.AsNumber | pvsyst_parser.py:80-81 | a value is usable in arithmetic exactly when it is not text |
| Values.Lookup | pvsyst_parser.py:80-81 | `specs[key]` used as a number succeeds exactly when the key is present and holds a number |
| Frequency.ParseFrequency | pvsyst_parser.py:11-21 | the normaliser always returns a number and never fails |
| Frequency.FrequencyOf | pvsyst_parser.py:15-21 | after stripping and lowering, the result is always a number |
| Frequency.BlankIsZero | pvsyst_parser.py:12-13 | an empty or whitespace-only frequency is 0 |
| Frequency.DualRatingIsFifty | pvsyst_parser.py:14-16 | any text containing `50/60`, whatever surrounds it, is the integer 50 |
| Frequency.DigitsReadAsThemselves | pvsyst_parser.py:17-19 | a plain number such as `60` reads as itself |
| Frequency.UnitIsDropped | pvsyst_parser.py:14-19 | digits, optional spaces and `hz` in any case (`60Hz`, `50 HZ`) read as the digits' value |
| Fields.ExtractField | pvsyst_parser.py:25-43 | a field past the end of the line takes its default; a field fails exactly when it is a float whose present, non-blank token does not parse, or a count whose token passes the digits guard and `int` rejects; the value fits the field's kind |
| Fields.MalformedIsGuardedFailure | pvsyst_parser.py:29-43 | a field fails exactly when its token exists and is not empty, and either it is a float field whose token is not all whitespace and `float` raises on it, or it is a count whose stripped token is all digits and `int` raises on it; only those two kinds can fail |
| Fields.DigitTokenConverts | pvsyst_parser.py:64 | a token that passes the `strip().isdigit()` guard converts under `int` to its digits' value, unless it holds a U+001C..U+001F character, and then `int` raises |
| Fields.ExtractAll | pvsyst_parser.py:24-49 | a record is produced exactly when no field is malformed, and it then has exactly the declared keys: never a partial record |
| Fields.ExtractAllField | pvsyst_parser.py:24-44 | each key of the record holds what its own field reads from its own token |
| Fields.NumericFieldIsNumber | pvsyst_parser.py:29-43 | every numeric attribute of a produced record is a number |
| Fields.AbsentFieldDefaults | pvsyst_parser.py:25-43 | a field whose position is beyond the token count takes its default (`""` or 0) |
| Fields.BlankFloatIsZero | pvsyst_parser.py:29 | a float field whose token is present but empty or whitespace-only is 0 and never fails |
| Fields.FloatFieldValue | pvsyst_parser.py:29 | a float field with a readable token holds what `float` reads |
| Fields.DigitsFloatField | pvsyst_parser.py:74-75 | a float field whose token is a run of digits holds the digits' value |
| Fields.TextFieldValue | pvsyst_parser.py:58-63 | a text field is its token stripped, and `""` when the token is absent, or empty where the field is guarded |
| Fields.DigitsFieldValue | pvsyst_parser.py:64-65 | a count is the digits' value when the stripped token is a non-empty run of digits, and 0 otherwise; a digit run holding a U+001C..U+001F character fails the field |
| Fields.OnlyFallibleTokensDecide | pvsyst_parser.py:29-49 | changing a token that no float field and no count reads never changes whether the record is produced |
| Fields.ShortLineSucceeds | pvsyst_parser.py:25-43 | a line too short to reach any float field or count always yields a record |
| Inverter.ParseInverterData | pvsyst_parser.py:5-49 | an inverter record is produced exactly when no field is malformed (the inverter has only float fields that can be), and it has all nineteen attributes |
| Inverter.InverterFalliblePositions | pvsyst_parser.py:25-43 | the inverter has no counts, and its float fields read positions past 4 and never position 13 |
| Inverter.InverterSeparatorRejects | pvsyst_parser.py:29-43 | a float token that is not blank but holds a U+001C..U+001F character rejects the whole inverter |
| Inverter.InverterLayout | pvsyst_parser.py:25-43 | the nineteen entries of the inverter table, one per line of the record literal: attribute, token position and coercion |
| Inverter.InverterKeys | pvsyst_parser.py:24-44 | the inverter table declares exactly the nineteen attribute names |
| Inverter.InverterFieldValue | pvsyst_parser.py:24-44 | each inverter attribute holds its own field's reading of its own token |
| Inverter.ShortInverterLine | pvsyst_parser.py:25-43 | a line of at most five tokens is accepted, with every numeric field 0, `Phase` `""` and `Frequency_Hz` 0 |
| Inverter.FrequencyNeverRejects | pvsyst_parser.py:35 | whatever token 13 holds, it never decides whether the inverter is accepted |
| Fields.HertzFieldValue | pvsyst_parser.py:35 | a frequency field holds the normalised token, or 0 when the position is absent |
| Inverter.InverterFrequency | pvsyst_parser.py:35 | `Frequency_Hz` is the normalised token 13, or 0 when the line stops earlier |
| Inverter.DualRatedInverter | pvsyst_parser.py:15-16 | an inverter whose token 13 mentions `50/60` is recorded at 50 Hz |
| Panel.PanelLayout | pvsyst_parser.py:58-76 | the nineteen entries of the panel table, one per line of the record literal: attribute, token position and coercion |
| Panel.PanelKeys | pvsyst_parser.py:57-77 | the panel table declares exactly the nineteen attribute names read from the line |
| Panel.PanelArea | pvsyst_parser.py:80-82 | the area in m² is within 0.0005 of length × width / 10^6, the dimensions being in millimetres |
| Panel.EfficiencyPercent | pvsyst_parser.py:86 | for a positive area the efficiency is within 0.005 of power / (10 × area), i.e. power against 1000 W/m² in percent |
| Panel.Derive | pvsyst_parser.py:79-88 | the derivation adds exactly the area and the efficiency, changes no other attribute, and succeeds whenever length, width and power are numbers |
| Panel.DerivedValues | pvsyst_parser.py:80-88 | the area comes from the record's own length and width; the efficiency comes from its own power when the area is positive, and is the integer 0 otherwise |
| Panel.EfficiencyIntZeroIffNoArea | pvsyst_parser.py:85-88 | the efficiency is the integer 0 exactly when the rounded area is not positive |
| Panel.ZeroPowerZeroEfficiency | pvsyst_parser.py:85-88 | a panel of 0 W with a 1.7 m² area has efficiency `0.0`, so a zero efficiency does not mean a zero area |
| Panel.NegativeLengthZeroEfficiency | pvsyst_parser.py:85-88 | a negative length gives a -1.7 m² area and the integer efficiency 0, so the zero branch covers more than a zero area |
| Panel.DerivationIsLocal | pvsyst_parser.py:80-88 | two records with the same length, width and power get the same derived values |
| Panel.DoubledDimensions | pvsyst_parser.py:80-82 | doubling both dimensions quadruples the area, within the rounding (0.0025) |
| Panel.ExportRoundingIsNoOp | pvsyst_parser.py:232-235 | the export's column rounding to 3 and 2 places leaves the derived values unchanged |
| Panel.ParseSolarPanelData | pvsyst_parser.py:51-93 | a panel record is produced exactly when no float field and no count is malformed (the derivation never fails on a parsed record), and it has the nineteen read and two derived attributes |
| Panel.CountSeparatorRejects | pvsyst_parser.py:64-65 | a count token whose stripped form is all digits but which holds a U+001C..U+001F character rejects the whole panel |
| Panel.ParsedDimensionsAreNumbers | pvsyst_parser.py:74-81 | a parsed record's length, width and power are numbers, so the derivation cannot raise |
| Panel.PanelFieldValue | pvsyst_parser.py:57-77 | each attribute read from the line holds its own field's reading of its own token |
| Panel.CellCounts | pvsyst_parser.py:64-65 | in a produced panel, `Cells_in_Series` and `Cells_in_Parallel` are the digits' value of tokens 12 and 13, or 0, so never negative |
| Panel.PanelTechnology | pvsyst_parser.py:63 | `Technology` is token 11 stripped, and `""` when it is absent or empty |
| Panel.DatasheetFigures | pvsyst_parser.py:82-86 | a 1700 mm × 1000 mm, 350 W module has area 1.7 m² and efficiency 20.59 % |
| Panel.DatasheetLine | pvsyst_parser.py:62-86 | a line whose power, length and width tokens are `350`, `1700` and `1000` parses to area 1.7 and efficiency 20.59 |
| Batch.Kept | pvsyst_parser.py:122-135 | the records a batch yields: never more than one per input, and never an empty one |
| Batch.CollectRecords | pvsyst_parser.py:122-135 | the loop's list is exactly the specification `Kept`: at most one row per input and no empty row |
| Batch.CollectInverters | pvsyst_parser.py:122-135 | the inverter tab collects `Kept` under the inverter parser, and every row has all nineteen attributes |
| Batch.CollectPanels | pvsyst_parser.py:196-209 | the panel tab collects `Kept` under the panel parser, and every row has all twenty-one attributes |
| Batch.KeptAppend | pvsyst_parser.py:123-135 | gathering two batches in sequence gives their two results in sequence: input order is kept |
| Batch.KeptMembership | pvsyst_parser.py:132-135 | a record is collected exactly when some non-empty input parsed to it, truthily |
| Batch.KeptAllContribute | pvsyst_parser.py:123-135 | when every input succeeds, the result is their records one for one, in input order |
| Batch.FailedInputIsSkipped | pvsyst_parser.py:132-135 | inputs A, B, C with B failing give exactly [A, C] |
| Batch.KeptInvertersComplete | pvsyst_parser.py:133-135 | every collected inverter row has all nineteen attributes |
| Batch.KeptPanelsComplete | pvsyst_parser.py:207-209 | every collected panel row has all twenty-one attributes |
| Batch.ParsedRecordsAreTruthy | pvsyst_parser.py:134 | a parsed record is never an empty dictionary, so the truthiness test drops only failed parses |
| Batch.SelectColumns | pvsyst_parser.py:155 | every selected column is declared and present in the table; never more columns than declared |
| Batch.SelectColumnsMembership | pvsyst_parser.py:155 | a column is selected exactly when it is declared and present in the table |
| Batch.ColumnsOfRows | pvsyst_parser.py:155 | the table has a column exactly when some row has that key |
| Batch.SelectColumnsAppend | pvsyst_parser.py:155 | selection distributes over concatenation, so the selected columns keep the declared order |
| Batch.SelectAllPresent | pvsyst_parser.py:155 | when every declared column is present, the declared order is selected whole |
| Batch.InverterColumnsFollowFields | pvsyst_parser.py:143-152 | the inverter export order is the record literal's order, except that `Total_MPPT` and `Total_String_Inputs` trade places |
| Batch.InverterColumnsDeclared | pvsyst_parser.py:143-152 | the inverter export lists every attribute of an inverter record and nothing else |
| Batch.InverterColumnsDistinct | pvsyst_parser.py:143-152 | no inverter column is listed twice |
| Batch.PanelColumnsFollowFields | pvsyst_parser.py:217-225 | the panel export order is the record literal's order, then the area and the efficiency |
| Batch.PanelColumnsDeclared | pvsyst_parser.py:217-225 | the panel export lists every attribute of a panel record, read or derived, and nothing else |
| Batch.PanelColumnsDistinct | pvsyst_parser.py:217-225 | no panel column is listed twice |
| Batch.InverterExportColumns | pvsyst_parser.py:143-155 | a non-empty inverter batch exports all nineteen declared columns in declared order |
| Batch.PanelExportColumns | pvsyst_parser.py:217-228 | a non-empty panel batch exports all twenty-one declared columns in declared order |

## Left out

- The Streamlit interface is not modelled: tabs, text areas, buttons, the
  add/remove counters clamped to 1..50 (lines 95-120, 176-194) and the
  `st.error` messages (lines 48, 92). The batch loops take the list of pasted
  texts as a parameter.
- Building the DataFrame, projecting it onto the selected columns (line
  156), the Excel writer, `io.BytesIO`, the download button and the preview
  are not modelled. These are foreign library calls and I/O. The column
  filter is modelled on the records themselves: a column is in
  `df.columns` exactly when some record has that key.
- Numbers.PyFloat: Python's `float` also accepts exponents (`1e3`), `inf`,
  `nan`, digit-group underscores, and decimal digits of other scripts
  (Unicode category Nd, such as Arabic-Indic `٣٥٠` or fullwidth `３５０`,
  which it reads as 350). Here those tokens count as malformed, so a float
  field holding one rejects the record where Python would accept it. The
  model accepts optional whitespace, an optional sign and a decimal literal
  of ASCII digits with at least one digit.
- Numbers.ParseUnsigned: reads ASCII digits only, for the same reason as
  `Numbers.PyFloat`.
- Numbers.PyInt: Python 3.11 and later refuse to convert a string of more
  than 4300 digits, so a count token that long rejects the record there.
  The model has no such limit and stores its value.
- Numbers.Round: the value is rounded exactly as a real, half to even. The
  source rounds a binary double, so a value such as 2.675, whose double lies
  just below the half, can round the other way there. The divisions by 1000
  are exact here too. More generally, every float reading is the exact real
  the literal denotes, not the nearest double, and nothing overflows: a
  length token of 400 digits reads as `inf` in the source, which makes the
  area `inf` or `nan`, while here it is a large finite number.
- Text.Lower: only ASCII letters are lowered. Python also lowers other
  Unicode letters, which can only matter for a frequency token containing
  such letters.
- Text.IsDigit: only ASCII `0`..`9` count as digits. Python's `isdigit`
  holds for more characters, with two outcomes at lines 64-65:
  - Decimal digits of other scripts (Unicode category Nd, such as `١٢` or
    fullwidth `１２`) pass the guard, and `int` converts them. The source
    stores 12; the model stores 0.
  - Other digit characters, such as superscripts, pass the guard and then
    make `int` raise, which rejects the record. The model stores 0.
