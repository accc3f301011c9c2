# ReadStat CSV + JSON-metadata conversion layer, in Dafny

This project models the part of ReadStat that turns a CSV file into typed
ReadStat values. A JSON sidecar describes the columns. The layer produces
values for SAV, DTA and CSV output. The project also models two small codecs
that sit beside that layer, and the label-set registry of `extract_metadata`.
Every `exit(EXIT_FAILURE)` of the C code is a `Fault`: a `Result` error, or a
`fault` out-parameter next to the writes that were already done.

| module (file) | models |
|---|---|
| `Types` (types.dfy) | `readstat_value_t`, the fatal conditions, the `'a' + i` tag, the routines the layer calls but does not define (`Foreign`) |
| `FileFormat` (format.dfy) | `format()`: output format from the file name's suffix |
| `DtaDays` (dta_days.dfy) | the Stata day codec: `is_leap`, `readstat_dta_num_days` (with its `strptime("%Y-%m-%d")`), `readstat_dta_days_string` |
| `JsonMetadata` (json_metadata.dfy) | navigation of jsmn's flattened token array: `slurp_object`, `match_token`, `find_object_property`, `get_object_property`, `find_variable_property`, `copy_variable_property`, `missing_double_idx`, `column_type` |
| `Variables` (variables.dfy) | `readstat_variable_t` as a class with a fixed-capacity `missingRanges` array and `missingCount` |
| `Plans` (plans.dfy) | a "plan" is the additions a producer makes to the missing-value table, up to its first fatal condition |
| `Missingness` (missingness.dfy) | `produce_missingness` and its DISCRETE, DTA RANGE and SAV RANGE producers, `dta_add_missing` |
| `ColumnValue` (column_value.dfy) | `produce_csv_column_value` and its six value builders |
| `ValueLabel` (value_label.dfy) | `produce_value_label` and its five per-format helpers |
| `ColumnHeader` (column_header.dfy) | `produce_column_header` |
| `CsvMetadata` (csv_metadata.dfy) | `struct csv_metadata` as a class; the calls made into the parser's handlers are recorded as a sequence of events |
| `CsvDriver` (csv_driver.dfy) | `csv_metadata_cell`, `csv_metadata_row` and the row-count fix-up at the end of `readstat_parse_csv` |
| `ExtractMetadata` (extract_metadata.dfy) | `get_label_set`, `handle_value_label`, and the checks and data of `handle_variable` |

Stateful code is modelled with classes and methods: the variable record, the
CSV state record, and the `extract_metadata` context. Each method is proved
against a function or predicate, and lemmas state what the source promises
about that function. The missing-value producers stop at the first fatal
condition. Their specification says which additions were made before that
point and which fault ended the run.

Where the specification and the code disagree, the model follows the code. The
one exception is the bug in the Findings section: `extract_metadata` reads
its missing-value list from the wrong slots. The model writes the corrected
list, and `ExtractMetadata.MissingAsWritten` states the code as written.

- The calendar inverse law (`num_days(days_string(d)) == d` for every `d`) holds
  only for years 0 to 9999. `strptime`'s `%Y` reads at most four digits, so a
  five-digit year or a negative year does not read back.
- `readstat_dta_num_days` is defined with one argument and exits on a bad date,
  but its callers pass an end pointer and test it. It is modelled as returning
  an optional day count.
- The DTA cell rule takes the first matching range. The DTA label rule takes
  the last matching range, because its loop never stops early. Each rule is
  stated as written. `ValueLabel.LabelMatchesCell` shows that the two rules agree
  when the ranges do not overlap.

## Model

| member | source | states |
|---|---|---|
| Types.TagFor | src/bin/modules/produce_missingness.c:101-102 | the tag `'a' + i` as an eight-bit char; it is a lower-case letter for i < 26 |
| Types.TaggedDouble | src/bin/modules/produce_missingness.c:103-111 | the value `dta_add_missing` builds: tagged, not system-missing, tag `'a' + i`, payload the code |
| Types.TruncatePrefix | src/bin/modules/json_metadata.c:55 | `snprintf(dest, size-1, "%.*s", …)` keeps a prefix of at most size-2 characters, and the whole text when it fits |
| FileFormat.DetectFormat | src/bin/format.c:5-43 | names shorter than 4 are UNKNOWN; each format holds iff the name ends with its exact suffix (`.csv` only with the CSV reader); UNKNOWN iff no suffix matches |
| DtaDays.DaysInMonth | src/stata/readstat_dta_days.c:24-25 | every month has 28 to 31 days |
| DtaDays.YearStartStep | src/stata/readstat_dta_days.c:10-12 | consecutive year starts differ by the year's length, 365 or 366 by the Gregorian leap rule |
| DtaDays.YearStartMonotone | src/stata/readstat_dta_days.c:27-33 | an earlier year starts, and ends, before a later year starts |
| DtaDays.YearOfMonths | src/stata/readstat_dta_days.c:24-25 | the twelve month lengths sum to the year's length, in leap and common years |
| DtaDays.DaysBeforeMonthMonotone | src/stata/readstat_dta_days.c:35-37 | the days before a month grow by at least each earlier month's length |
| DtaDays.DaysBeforeMonthBounds | src/stata/readstat_dta_days.c:35-37 | the days before a month stay inside the year |
| DtaDays.DayNumberInYear | src/stata/readstat_dta_days.c:22-39 | a valid date's day count lies in its year's range |
| DtaDays.EarlierYearEarlierDay | src/stata/readstat_dta_days.c:27-33 | a date in an earlier year has a smaller day count |
| DtaDays.EarlierMonthEarlierDay | src/stata/readstat_dta_days.c:35-39 | a date in an earlier month of the same year has a smaller day count |
| DtaDays.DayNumberInjective | src/stata/readstat_dta_days.c:14-41 | two valid dates with the same day count are the same date |
| DtaDays.EpochDays | src/stata/readstat_dta_days.c:22-39 | 1960-01-01 is day 0 and 1959-12-31 is day -1 |
| DtaDays.SkipSpaces | src/stata/readstat_dta_days.c:17 | `strptime` skips white space up to the next non-space character |
| DtaDays.GetNumber | src/stata/readstat_dta_days.c:17 | a number field reads at least one digit and yields a value within the field's bounds |
| DtaDays.Literal | src/stata/readstat_dta_days.c:17 | a literal `-` consumes exactly one character |
| DtaDays.ParseDateRange | src/stata/readstat_dta_days.c:17 | a parsed date has a year in 0..9999, a month in 1..12 and a day in 1..31 |
| DtaDays.DigitChar | src/stata/readstat_dta_days.c:89 | a printed digit reads back as the same digit |
| DtaDays.PadDecimal | src/stata/readstat_dta_days.c:89 | `%0Nd` prints only digits, at least one |
| DtaDays.PadFour | src/stata/readstat_dta_days.c:89 | `%04d` of a year up to 9999 is its four decimal digits |
| DtaDays.PadTwo | src/stata/readstat_dta_days.c:89 | `%02d` of a number up to 99 is its two decimal digits |
| DtaDays.FormatLayout | src/stata/readstat_dta_days.c:89 | the printed date is ten characters: four year digits, `-`, two month digits, `-`, two day digits |
| DtaDays.ReadFour | src/stata/readstat_dta_days.c:17 | reading four printed year digits gives the year back |
| DtaDays.ReadTwo | src/stata/readstat_dta_days.c:17 | reading two printed month or day digits gives the number back |
| DtaDays.YearField | src/stata/readstat_dta_days.c:17 | the `%Y` field of a printed date reads back as the year |
| DtaDays.TwoDigitField | src/stata/readstat_dta_days.c:17 | the `%m` and `%d` fields of a printed date read back as the month and day |
| DtaDays.ParseFormatted | src/stata/readstat_dta_days.c:14-91 | parsing a printed date gives the same date, for years 0..9999 |
| DtaDays.NumDays | src/stata/readstat_dta_days.c:14-42 | the day count is defined exactly when the text parses as `%Y-%m-%d`, and it is that date's signed offset from 1960-01-01 |
| DtaDays.DaysOfDate | src/stata/readstat_dta_days.c:22-40 | the three loops plus `mday - 1` give the date's day count |
| DtaDays.YearsBefore | src/stata/readstat_dta_days.c:27-29 | the backward year loop subtracts the lengths of the years from the target year up to 1959 |
| DtaDays.YearsAfter | src/stata/readstat_dta_days.c:31-33 | the forward year loop adds the lengths of the years from 1960 up to the year before the target |
| DtaDays.MonthsBefore | src/stata/readstat_dta_days.c:35-37 | the month loop adds the lengths of the months before the target month |
| DtaDays.WalkBackward | src/stata/readstat_dta_days.c:51-70 | a negative count walks back from December 1959 to a valid date with that count |
| DtaDays.WalkForward | src/stata/readstat_dta_days.c:71-88 | a count of zero or more walks forward from 1960-01-01 to a valid date with that count |
| DtaDays.DaysString | src/stata/readstat_dta_days.c:44-91 | the walk reaches the valid date whose day count is `days`; the text is its `%04d-%02d-%02d` print cut to `size - 1` characters (nothing for size 0); with `size` ≥ 11 and years 0..9999, `num_days` reads it back as `days` |
| DtaDays.FormattedDayNumber | src/stata/readstat_dta_days.c:14-91 | `num_days` of a printed valid date (years 0..9999) is that date's day count |
| JsonMetadata.ClipIsTruncate | src/bin/modules/json_metadata.c:50-57 | copying a token's text into a buffer truncates it to the buffer's capacity |
| JsonMetadata.SlurpObject | src/bin/modules/json_metadata.c:25-31 | the subtree size is at least 1, and equals 1 plus the subtree sizes of the token's children |
| JsonMetadata.ChildStartsAdjacent | src/bin/modules/json_metadata.c:39-46 | each child of a token starts right after the previous child's whole subtree |
| JsonMetadata.KeyFromMeaning | src/bin/modules/json_metadata.c:38-48 | no result iff no key matches; otherwise the result is the value after the first matching key |
| JsonMetadata.FindObjectProperty | src/bin/modules/json_metadata.c:38-48 | the loop finds the value of the first key equal to the property name, skipping whole key/value subtrees |
| JsonMetadata.GetObjectProperty | src/bin/modules/json_metadata.c:50-57 | NULL iff the key is absent; otherwise the value's text truncated to size-2 characters |
| JsonMetadata.NamedFromMeaning | src/bin/modules/json_metadata.c:70-81 | no result iff no variable has a matching name; otherwise it is the first variable with that name |
| JsonMetadata.FindNamed | src/bin/modules/json_metadata.c:70-81 | the loop over `variables` finds the first variable whose `name` matches |
| JsonMetadata.FindVariableProperty | src/bin/modules/json_metadata.c:59-82 | null when the root is not an object or has no `variables`; otherwise the property of the first variable of that name |
| JsonMetadata.PropertyText | src/bin/modules/json_metadata.c:84-97 | NULL iff the property is absent or its text is empty; otherwise a prefix of the text of at most maxsize-2 characters |
| JsonMetadata.CopyVariableProperty | src/bin/modules/json_metadata.c:84-97 | the method computes that text |
| JsonMetadata.Entries | src/bin/modules/json_metadata.c:110-126 | one parse result per `values` entry, in order |
| JsonMetadata.IndexFromMeaning | src/bin/modules/json_metadata.c:110-127 | the 1-based index of the first entry equal to v; 0 iff every entry parses and none equals v; a fault only after an entry that does not parse |
| JsonMetadata.ScanValues | src/bin/modules/json_metadata.c:110-127 | the loop over `values` computes that index |
| JsonMetadata.MissingDoubleIdx | src/bin/modules/json_metadata.c:99-128 | 0 without `missing` or `values`; otherwise the scan of `values` |
| JsonMetadata.ColumnType | src/bin/modules/json_metadata.c:130-145 | DOUBLE iff the type is `"NUMERIC"`, STRING iff `"STRING"`; an absent type is its own fault; nothing else succeeds |
| Variables.Variable.constructor | src/bin/modules/produce_csv_column_header.c:273-274 | a new record is zero-filled, with a missing-value table of the given capacity |
| Variables.Variable.Clear | src/bin/modules/produce_csv_column_header.c:274 | `memset` zero-fills every field and every table slot |
| Variables.FitsAppend | src/bin/modules/produce_missingness.c:112-113 | a run of additions fits the table iff its two halves fit one after the other |
| Variables.ApplyAllAppend | src/bin/modules/produce_missingness.c:112-114 | applying two runs of additions is applying their concatenation |
| Variables.PairsKeepEarlier | src/bin/modules/produce_missingness.c:112-114 | pair additions never change the slots of earlier entries |
| Variables.PairsInOrder | src/bin/modules/produce_missingness.c:112-114 | the k-th pair addition lands in slots 2(count+k) and 2(count+k)+1 |
| Variables.TaggedPairs | src/bin/modules/produce_missingness.c:100-116 | after `dta_add_missing` calls, entry count+k holds the tagged code with tag `'a' + count + k` in both of its slots |
| Variables.RangePairs | src/bin/modules/produce_missingness.c:195-204 | after range additions, entry count+k holds its low and high bounds in its two slots |
| Variables.SlotsInOrder | src/bin/modules/produce_missingness.c:82-86 | single-slot additions land in slots count, count+1, …, and earlier slots are unchanged |
| Variables.AddMissingDoubleRange | src/bin/modules/produce_missingness.c:198 | adding a range writes its two bounds to the next pair of slots and counts one more entry |
| Plans.RunChain | src/bin/modules/produce_missingness.c:77-97 | running the per-token steps one after another leaves the table holding the chained additions, and stops at the first fault |
| Plans.RoomChain | src/bin/modules/produce_missingness.c:77-97 | the table has room for every step iff it has room for the chained additions |
| Plans.ChainOfSingles | src/bin/modules/produce_missingness.c:77-97 | when each step adds one entry or faults, the chain holds each step's entry in order up to the first fault, and that fault ends it |
| Plans.ChainOfOnes | src/bin/modules/produce_missingness.c:77-97 | when each step is one result, the chain's k-th entry is the k-th result's, it covers every step unless one fails, and then it ends with that step's fault |
| Plans.ChainKeeps | src/bin/modules/produce_missingness.c:77-97 | a property of every step's additions and faults holds for the chain's |
| Missingness.DoubleMissing | src/bin/modules/produce_missingness.c:53-64 | a missing value that does not parse as a number is fatal |
| Missingness.SavDateMissing | src/bin/modules/produce_missingness.c:13-27 | a SAV missing date that does not parse is fatal |
| Missingness.DtaDateMissingRoundTrip | src/bin/modules/produce_missingness.c:29-51 | a printed DTA date gives the tagged INT32 with its day count and tag `'a' + idx` |
| Missingness.DtaAddMissing | src/bin/modules/produce_missingness.c:100-116 | returns tag `'a' + old count`, writes the tagged code to slots 2·idx and 2·idx+1, adds 1 to the count, and changes nothing else |
| Missingness.AddDiscreteValue | src/bin/modules/produce_missingness.c:79-96 | one `values` entry makes the addition its format, type and date flag call for, or the fault |
| Missingness.DiscreteChain | src/bin/modules/produce_missingness.c:77-97 | the DISCRETE run's k-th entry is the k-th value's addition; it covers every value unless a value fails, and then it stops there with that value's fault |
| Missingness.AddDiscreteValues | src/bin/modules/produce_missingness.c:77-97 | the loop over `values` leaves the table and count of the chained steps, up to the first fault |
| Missingness.ProduceMissingnessDiscrete | src/bin/modules/produce_missingness.c:66-98 | DISCRETE: no `values` is fatal; otherwise the table grows by the values' additions up to the first fault |
| Missingness.SavBound | src/bin/modules/produce_missingness.c:196-202 | a SAV bound is read as a date on a date column and as a number otherwise |
| Missingness.DiscreteDtaDates | src/bin/modules/produce_missingness.c:82-88 | on a DTA date column the i-th value becomes the single-slot tagged day count with tag `'a' + i`; the first bad date ends the run |
| Missingness.DiscreteDoublePairs | src/bin/modules/produce_missingness.c:80-91 | on a DOUBLE column each value becomes the pair (v, v); the first value that does not parse ends the run |
| Missingness.DiscreteUnsupported | src/bin/modules/produce_missingness.c:92-95 | any other column adds nothing and is fatal unless `values` is empty |
| Missingness.DiscreteFaults | src/bin/modules/produce_missingness.c:66-98 | DISCRETE fails only for no `values`, a bad date, a bad number or an unsupported column |
| Missingness.CategoryAdmitted | src/bin/modules/produce_missingness.c:144-172 | a category without code or label is fatal; its code is added once if in [low, high] and once more if equal to `discrete-value` |
| Missingness.AddForCategory | src/bin/modules/produce_missingness.c:145-171 | one category makes that step's additions or its fault |
| Missingness.AddForCode | src/bin/modules/produce_missingness.c:153-169 | the range test runs before the discrete test |
| Missingness.AddRangeCode | src/bin/modules/produce_missingness.c:155-162 | a code within [low, high] (both inclusive) is added by `dta_add_missing` |
| Missingness.AddDiscreteCode | src/bin/modules/produce_missingness.c:163-169 | a code equal to `discrete-value` is added by `dta_add_missing` |
| Missingness.AddForCategories | src/bin/modules/produce_missingness.c:143-172 | the loop over categories, in document order, leaves the table of the chained steps, up to the first fault |
| Missingness.ProduceMissingnessRangeDta | src/bin/modules/produce_missingness.c:118-173 | DTA RANGE fills the table by its plan and stops at the plan's fault |
| Missingness.RangeDtaEntries | src/bin/modules/produce_missingness.c:122-172 | no categories with low, high or discrete-value is fatal, and with none of them a no-op; low without high and high without low are fatal; every entry is an admitted tagged code |
| Missingness.RangeDtaTable | src/bin/modules/produce_missingness.c:144-172 | entry count+k holds an admitted code, tagged `'a' + count + k`, in both of its slots |
| Missingness.AddSavRange | src/bin/modules/produce_missingness.c:195-199 | low and high together add one (lo, hi) range |
| Missingness.AddSavDiscrete | src/bin/modules/produce_missingness.c:201-204 | `discrete-value` adds one (v, v) range |
| Missingness.ProduceMissingnessRangeSav | src/bin/modules/produce_missingness.c:177-205 | SAV RANGE fills the table by its plan and stops at the plan's fault |
| Missingness.RangeSavEntries | src/bin/modules/produce_missingness.c:182-204 | low without high and high without low are fatal; otherwise the range, then the discrete value, each as a (lo, hi) pair |
| Missingness.ProduceMissingness | src/bin/modules/produce_missingness.c:207-235 | the count is reset to 0 first; without `missing` the table stays empty; otherwise it holds the dispatched producer's additions |
| Missingness.MissingDispatch | src/bin/modules/produce_missingness.c:207-234 | no `type` is fatal; an unknown type is fatal iff the output is not CSV; CSV ignores every non-DISCRETE type |
| ColumnValue.ValueSysmiss | src/bin/modules/produce_csv_column_value.c:14-22 | system-missing, not tagged, with the column's type |
| ColumnValue.ValueString | src/bin/modules/produce_csv_column_value.c:24-32 | the cell text as an untagged STRING |
| ColumnValue.ValueDoubleRegular | src/bin/modules/produce_csv_column_value.c:73-105 | the parsed number, never tagged; fatal iff the text is not a number |
| ColumnValue.ValueDoubleDateSav | src/bin/modules/produce_csv_column_value.c:129-141 | the parsed SAV date, never tagged; fatal iff it does not parse |
| ColumnValue.FirstRange | src/bin/modules/produce_csv_column_value.c:43-63 | the first range, in index order, containing the value; a non-DOUBLE low bound met first is fatal |
| ColumnValue.DoubleDta | src/bin/modules/produce_csv_column_value.c:34-71 | tagged `'a' + k` for the first range k containing the value; untagged DOUBLE iff no range contains it; not a number is fatal |
| ColumnValue.ValueDoubleDta | src/bin/modules/produce_csv_column_value.c:34-71 | the search loop computes that value |
| ColumnValue.FirstDay | src/bin/modules/produce_csv_column_value.c:116-120 | the first of the remaining entries whose `i32_value`, read through the platform view for DOUBLE entries, equals the day count; none iff no such entry |
| ColumnValue.Int32DateDta | src/bin/modules/produce_csv_column_value.c:107-127 | a bad date is fatal; otherwise the first entry, of any type, whose `i32_value` equals the day count is returned, tag included; an untagged INT32 day count iff no entry matches |
| ColumnValue.ValueInt32DateDta | src/bin/modules/produce_csv_column_value.c:107-127 | the search loop over all entries computes that value, comparing each entry's `i32_value` |
| ColumnValue.DoubleEntryMatches | src/bin/modules/produce_csv_column_value.c:116-118 | a tagged DOUBLE range entry whose `i32_value` equals a date cell's day count, with no earlier match, is returned as the cell's value, tag included |
| ColumnValue.CellValue | src/bin/modules/produce_csv_column_value.c:149-181 | an empty cell is system-missing before any dispatch; strings pass through; SAV and CSV values are never tagged; unsupported iff no branch applies |
| ColumnValue.ProduceCsvColumnValue | src/bin/modules/produce_csv_column_value.c:143-183 | exactly one value event with the classified value, or the fault and no event |
| ValueLabel.LastRange | src/bin/modules/produce_value_label.c:54-66 | the last range containing the code, with no later range containing it |
| ValueLabel.DtaDoubleLabel | src/bin/modules/produce_value_label.c:42-69 | a DTA double label is tagged `'a' + k` for the last range k containing the code, untagged iff none does; not a number is fatal |
| ValueLabel.LabelMatchesCell | src/bin/modules/produce_value_label.c:54-66 | with non-overlapping DOUBLE ranges, the label's tag agrees with the cell's tag |
| ValueLabel.ValueLabelDoubleDta | src/bin/modules/produce_value_label.c:42-69 | the loop computes that value |
| ValueLabel.DtaDateLabel | src/bin/modules/produce_value_label.c:71-88 | a DTA date label carries the day count; it is tagged `'a' + (k-1)` iff `missing_string_idx` gives k > 0; a bad date is fatal |
| ValueLabel.DtaDateLabelRoundTrip | src/bin/modules/produce_value_label.c:71-81 | a printed date code decodes to its day count |
| ValueLabel.ValueLabelInt32DateDta | src/bin/modules/produce_value_label.c:71-88 | the method computes that value |
| ValueLabel.LabelValue | src/bin/modules/produce_value_label.c:116-136 | CSV gives no value; SAV labels are never tagged; SAV strings pass through; unsupported combinations are fatal |
| ValueLabel.DecodeCode | src/bin/modules/produce_value_label.c:116-136 | the dispatch computes that value |
| ValueLabel.CategoryLabel | src/bin/modules/produce_value_label.c:108-136 | a category without code or label is fatal; otherwise one label event for the column, with the label text, except on CSV |
| ValueLabel.ProduceCategoryLabel | src/bin/modules/produce_value_label.c:108-137 | one category's event or fault |
| ValueLabel.ValueLabelsShape | src/bin/modules/produce_value_label.c:104-138 | CSV emits nothing; otherwise one event per category in document order, up to the first fatal category |
| ValueLabel.ShapeCsv | src/bin/modules/produce_value_label.c:131-132 | CSV emits no label events, and fails only for a category without code or label |
| ValueLabel.ShapeOther | src/bin/modules/produce_value_label.c:107-138 | SAV and DTA emit the j-th category's event as the j-th event, and stop at the first fault |
| ValueLabel.CollectCalls | src/bin/modules/produce_value_label.c:107-138 | the emitted events are the category results in order, up to the first fault |
| ValueLabel.ProduceCategoryLabels | src/bin/modules/produce_value_label.c:104-138 | the loop appends those events to the handler calls and returns the fault that stopped it |
| ValueLabel.ProduceValueLabel | src/bin/modules/produce_value_label.c:98-140 | no `categories` emits nothing; otherwise the categories' events are appended |
| ColumnHeader.HeaderOf | src/bin/modules/produce_csv_column_header.c:276-308 | STRING is left-aligned and DOUBLE and INT32 right-aligned, other types are fatal; a date format iff a date column on SAV or DTA; the storage width only for pass-2 strings; the index is the column; the name is the cell text truncated |
| ColumnHeader.TypeVariable | src/bin/modules/produce_csv_column_header.c:273-292 | the record is zeroed, then gets the type and alignment; the column's date flag is recorded |
| ColumnHeader.FillVariable | src/bin/modules/produce_csv_column_header.c:273-308 | the record holds exactly the resolved header, with an empty missing-value table |
| ColumnHeader.StoreHeader | src/bin/modules/produce_csv_column_header.c:294-308 | the format, storage width, index, label and name are stored in the record |
| ColumnHeader.ProduceAfterFill | src/bin/modules/produce_csv_column_header.c:310-317 | missingness first, then value labels only with a label handler, then the variable event only with a variable handler in pass 2 |
| ColumnHeader.ProduceColumnHeader | src/bin/modules/produce_csv_column_header.c:270-318 | `HeaderProduced`: the whole header cell, namely the resolved record, the date flag, the missing-value table, and the label and variable events, each stopped by the first fault; other date flags unchanged |
| CsvMetadata.Csv.constructor | src/bin/modules/mod_csv.c:266-270 | the zeroed state record: no rows, no columns, no variables, no events, no open row |
| CsvDriver.MaxWidthIsWidest | src/bin/modules/mod_csv.c:237-240 | the running width is at least every cell's width, and it equals some cell's width |
| CsvDriver.AppendVariable | src/bin/modules/mod_csv.c:229-231 | `variables` grows by one fresh record whose table has the shared capacity, and `is_date` by one false flag; nothing else changes |
| CsvDriver.HeaderCell | src/bin/modules/mod_csv.c:229-233 | a row-0 cell appends one fresh record and a date flag; without a variable handler nothing is emitted; with one, `HeaderProduced` holds: the resolved record, the date flag, the missing-value table, and the label and variable events, each stopped by the first fault, which is returned |
| CsvDriver.DataCell | src/bin/modules/mod_csv.c:234-240 | a later cell makes its value event only with a value handler, and raises the column's width to the cell length |
| CsvDriver.Cell | src/bin/modules/mod_csv.c:226-243 | the cell callback: in row 0 what `HeaderCell` promises, `HeaderProduced` included; in later rows the value event and the width update; `columns` advanced by one and the row open unless a fault stops it |
| CsvDriver.Advance | src/bin/modules/mod_csv.c:241-242 | the row is open and the cell position grows by one |
| CsvDriver.ParseRecord | src/bin/modules/mod_csv.c:226-243 | a record's cells in order: `columns` ends at the record's length and each width is the maximum of old width and cell width |
| CsvDriver.Row | src/bin/modules/mod_csv.c:245-256 | the row callback increments `rows`, resets `columns` and the open-row flag; the first row allocates one zero width per header cell and records `_columns` |
| CsvDriver.Finish | src/bin/modules/mod_csv.c:312-318 | without an open row `rows` is decremented; then `info_handler(rows, _columns)` if it is set |
| CsvDriver.Parse | src/bin/modules/mod_csv.c:303-318 | a whole file: the observation count is the record count minus one, one variable and one width per header cell, each width the widest data cell of its column, and the info event last |
| ExtractMetadata.FindSet | src/bin/extract_metadata.c:22-27 | the first set with an equal name, or none when no set has that name |
| ExtractMetadata.AddLabel | src/bin/extract_metadata.c:41-59 | nothing changes unless the value is DOUBLE and the name starts with `labels`; a new set is appended iff none has that name; other sets are unchanged |
| ExtractMetadata.AddLabelFind | src/bin/extract_metadata.c:41-59 | after a label is added, the named set holds its earlier labels followed by the new (key, label) entry |
| ExtractMetadata.ReplayLists | src/bin/extract_metadata.c:41-59 | after any sequence of label calls, a set of a name exists iff some labelled call named it, and its labels are those calls' entries in order |
| ExtractMetadata.ReplayNamesFit | src/bin/extract_metadata.c:48 | every registered set name fits the name buffer |
| ExtractMetadata.TypeName | src/bin/extract_metadata.c:66-89 | STRING and DOUBLE have type names; every other type is fatal |
| ExtractMetadata.TypeNameReadBack | src/bin/extract_metadata.c:66-70 | the written type name reads back as the same type through `column_type` |
| ExtractMetadata.MissingAsWritten | src/bin/extract_metadata.c:122-137 | the loop as written prints slot i for each of the count entries |
| ExtractMetadata.MissingValues | src/bin/extract_metadata.c:122-137 | one value per entry, the low bound of its pair |
| ExtractMetadata.MissingValuesAreLows | src/bin/extract_metadata.c:122-137 | after range additions, the k-th written value is the k-th range's low bound |
| ExtractMetadata.DiscreteRoundTrip | src/bin/extract_metadata.c:122-137 | discrete values stored as (v, v) pairs are written back exactly, in order |
| ExtractMetadata.DiscreteMisread | src/bin/extract_metadata.c:124-126 | for the values 1 and 2 the loop as written prints 1, 1, and the corrected loop prints 1, 2 |
| ExtractMetadata.MissingList | src/bin/extract_metadata.c:122-137 | missing values are written only for DOUBLE, one per entry, using the corrected slot-2i reading of the Findings row; any other type with entries is fatal |
| ExtractMetadata.WriteMissing | src/bin/extract_metadata.c:122-137 | the loop computes that list; it reads slot 2i, the corrected reading, where line 126 reads slot i (`MissingAsWritten`) |
| ExtractMetadata.Written | src/bin/extract_metadata.c:61-140 | the entry is written iff the type has a name, no label set is created, and the missing values are writable; a freshly created set is fatal; categories appear iff `val_labels` is given; the missing list is the corrected slot-2i reading |
| ExtractMetadata.CategoriesAreLabels | src/bin/extract_metadata.c:104-120 | after any label calls, a variable's categories are exactly the labels registered under its set name |
| ExtractMetadata.LongNameNeverFound | src/bin/extract_metadata.c:104-109 | a set name longer than the name buffer is never found, so `handle_variable` faults for it |
| ExtractMetadata.Context.constructor | src/bin/extract_metadata.c:147-148 | the zeroed context: no label sets, no entries, count 0 |
| ExtractMetadata.Context.GetLabelSet | src/bin/extract_metadata.c:18-39 | a hit returns the first equal set, `is_new` 0, nothing changed; a miss appends one zeroed set, `is_new` 1, and returns it |
| ExtractMetadata.Context.HandleValueLabel | src/bin/extract_metadata.c:41-59 | the registry becomes `AddLabel` of the old registry |
| ExtractMetadata.Context.HandleVariable | src/bin/extract_metadata.c:61-140 | the entry is appended iff `Written` succeeds, otherwise its fault; a missing label set is created; the first variable sets the count to 1; the entry carries the corrected missing list |

## Left out

- Reading the CSV file and the JSON file is not modelled. The CSV records (libcsv's cells per row) and the JSON text with its jsmn token array are given sequences; the tokenizers are not modelled.
- `get_json_metadata`, `realloc_it`, `free_json_metadata`, `ctx_init`, `finish_file`, `accept_file` and the clean-up of `readstat_parse_csv` are I/O and memory management, and are not modelled.
- The CSV writer `handle_variable` / `handle_value` in `src/bin/modules/mod_csv.c` writes text to a file and is not modelled.
- The JSON text that `handle_variable` in `extract_metadata.c` prints is modelled as an `Entry` record; `%lf` / `%g` float printing is not modelled.
- The `main` of `extract_metadata.c` (argument check, file handling, final free loop) is I/O and is not modelled.
- All stdout and stderr logging is left out.
- `strtod`, `readstat_sav_date_parse`, `is_date`, the three-argument `column_type` and `missing_string_idx` are not defined in the modelled code. They are function-valued parameters (`Types.Foreign`); a parse returns an option.
- The `i32_value` member read out of a union that holds a double or a string pointer depends on the platform's representation. It is the function-valued field `CsvMetadata.Csv.int32View`, which `ColumnValue.Int32Of` uses for every entry that is not INT32 or zero-filled.
- `readstat_variable_add_missing_double_value` and `_range` belong to the ReadStat library, which is not part of this model. They are modelled as writing the pair (v, v) or (lo, hi) to the next two slots and counting one entry.
- Numbers are exact `real` values; floating-point rounding is not modelled.
- C `int` overflow of the day counter is not modelled; integers are unbounded. The tag `'a' + i` is modelled with its eight-bit wrap-around.
- The capacity of `missing_ranges` is not checked in the code. The producers require that their plan fits the table.
- Data rows wider than the header would index `column_width` out of range. `CsvDriver.Parse` and `CsvDriver.Cell` require rows no wider than the header.
- Reads past the end of the token array are undefined in C. The model reads an empty UNDEFINED token there, so every navigation function is total.
- The older header and value producers in `src/bin/modules/mod_csv.c` (lines 126-224) and the copy in `src/bin/modules/produce_csv_column_header.c` (lines 13-268) are not modelled. The newer producers are modelled instead, with the `is_date`, `pass` and `output_format` fields the newer code uses; the older `csv_metadata` struct lacks them.
- The pass-1 width table that the second pass reads is a constructor parameter of `CsvMetadata.Csv`.
- `realloc` of `variables` is modelled as a fresh zeroed `Variables.Variable` per header cell; records are not copied or moved.
- Allocation failure (`realloc`, `malloc`, `strdup`) is not modelled.
- The size of the label-set name buffer comes from `readstat.h`, which is not part of this model; it is the context's `nameCapacity`.
- Output written before an `exit` is not modelled; a fault ends the run and the events recorded up to it are kept.
- DtaDays.DaysString: the inverse law is proved only for years 0 to 9999 and a buffer of at least 11 bytes, because `strptime`'s `%Y` reads at most four digits and a smaller buffer cuts the text. With a buffer of 0 bytes `snprintf` writes nothing, and the model returns the empty text rather than the buffer's earlier contents.
- ExtractMetadata.WriteMissing: reads entry i from slot 2i, the corrected reading named in the Findings row, so the `Entry` that `ExtractMetadata.Context.HandleVariable` appends holds the intended list. Line 126 as written reads slot i; that reading is `ExtractMetadata.MissingAsWritten`, and for more than one entry the two lists differ (`ExtractMetadata.DiscreteMisread`).
- DtaDays.ParseDate: models glibc's `strptime` for `%Y-%m-%d` (leading white space, at most four year digits and two month and day digits, ranges 1..12 and 1..31). Text after the date is ignored, and day-of-month validation against the month is not done, as in `strptime`.
- ExtractMetadata.KeyOf: a DOUBLE label value whose payload is the zero-filled union gets the key 0.0; the bits of a union read under another type are not modelled.

## Findings

| source | as written | input that shows it | evidently intended | confidence | as-written member | corrected member |
|---|---|---|---|---|---|---|
| src/bin/extract_metadata.c:122-137 | the loop prints `missing_ranges[i]` for i below the entry count, but each entry is a (lo, hi) pair in slots 2i and 2i+1 | a DOUBLE variable with discrete missing values 1 and 2, stored as the pairs (1, 1) and (2, 2): the table is [1, 1, 2, 2] and the loop prints 1, 1 | each missing value once, read from slot 2i: 1, 2 | not executed | ExtractMetadata.DiscreteMisread | ExtractMetadata.DiscreteRoundTrip |
