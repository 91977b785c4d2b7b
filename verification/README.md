# processData in Dafny

A model of `processData` in `src/dataWorker.js`. This web-worker routine
turns the rows of a marketplace settlement spreadsheet into one summary row
per group of consecutive settlement days. It works in four stages:

- **Cleaning.** Every header and every text cell is trimmed. The settlement
  date (`Data de início da liquidação`) goes through `convertDate`. The amount
  (`Contas a receber`) goes through the amount normaliser. Rows without a date
  are dropped.
- **Ordering.** The records are sorted by date, and the optional start date
  keeps the records on or after it.
- **Grouping.** A fold puts each record into the open group when it lies at
  most one day after that group's anchor date; otherwise it opens a new group.
  Each group sums income (`Renda`), expense (`Despesa`) and orders received
  (`Renda Count`).
- **Output.** Every group becomes a row with the seven columns of
  `columnOrder`: date, income, expense, net amount, expense percentage,
  orders received and average per order.

Modules, in pipeline order:

| file | module | what it holds |
|---|---|---|
| text.dfy | `Text` | JavaScript string operations: `toLowerCase`, `trim`, `includes`/`indexOf`, `replace` of the first occurrence, the global dot removal, digit strings |
| cells.dfy | `Cells` | a spreadsheet cell (`null` or a string) and its truthiness |
| calendar.dfy | `Calendar` | proleptic Gregorian dates, day numbers, the `dd`, `MM`, `yyyy` fields |
| dates.dfy | `DateNormalizer` | `convertDate`: month-name substitution, the pattern cascade, the loose fallback |
| date_properties.dfy | `DateProperties` | what `convertDate` does with formatted dates: round trips, the day-first reading of ambiguous slash dates, Portuguese month names |
| amount.dfy | `Amount` | the `Contas a receber` normaliser and the decimal form of `parseFloat` |
| cleaner.dfy | `Cleaner` | the per-row header/cell loop, the two converted columns, and the filter on the date |
| sequencer.dfy | `Sequencer` | the stable sort by day and the inclusive start-date filter |
| grouping.dfy | `Grouper` | the grouping fold as written (`Accumulate`) and the partition it computes (`Runs`) |
| report.dfy | `Output` | the derived metrics and the seven-column rows |
| pipeline.dfy | `Pipeline` | `processData` end to end |
| scenario.dfy | `Scenario` | a worked run on two rows, with and without a start date |

The grouping fold compares each record with the group's anchor, not with the
previous record, because `previousDate = groupDate` (line 154) stores the
anchor. Groups therefore never chain: of three records on consecutive days,
the third opens a new group (`Grouper.AnchorDoesNotChain`).

## Model

| member | source | states |
|---|---|---|
| Text.Lower | src/dataWorker.js:33 | `toLowerCase` keeps the length and maps each character to its lower-case form |
| Text.TrimSpec | src/dataWorker.js:33 | `trim` removes only white space from the two ends: the result is an infix whose cut-off parts are all white space, it neither starts nor ends with white space, and it is empty only when the text was all white space |
| Text.TrimIdempotent | src/dataWorker.js:85-87 | trimming an already trimmed text changes nothing |
| Text.TrimOfTrimmed | src/dataWorker.js:79-80 | a text with no white space at its ends is its own trim, so `trimmedKey !== key` fails for it |
| Text.IndexOf | src/dataWorker.js:36 | `includes`: a position is found exactly when the pattern occurs, and it is the first occurrence |
| Text.ReplaceFirst | src/dataWorker.js:37 | `replace` with a string pattern rewrites only the first occurrence and leaves a text without one unchanged |
| Text.RemoveAllCounts | src/dataWorker.js:93 | `replace(/\./g, '')` leaves no dot and keeps every other character as often as before |
| Cells.TrimCellIdempotent | src/dataWorker.js:85-87 | trimming a cell twice is trimming it once; `null` stays `null` |
| Calendar.DayNumberNext | src/dataWorker.js:133 | the day after a date has the next day number, so day-number differences count calendar days |
| Calendar.DayNumberOrder | src/dataWorker.js:104-108 | day numbers order dates chronologically and name each date once |
| DateNormalizer.SubstituteMonth | src/dataWorker.js:35-40 | the first Portuguese month name in table order that occurs is replaced, at its first occurrence, by the English name; with none the text is unchanged |
| DateNormalizer.ConvertDate | src/dataWorker.js:30-57 | a falsy cell gives no date; when no pattern matches the normalised text, the answer is the loose parser's on the original text, and only when it is a real date |
| DateNormalizer.ReadMonthName | src/dataWorker.js:42 | the `MMMM` token reads a month from 1 to 12 |
| DateNormalizer.Finish | src/dataWorker.js:43-51 | a pattern yields a date only if it is a valid calendar date with a positive year |
| DateProperties.NormalizeNumeric | src/dataWorker.js:33-40 | a numeric date text passes lower-casing, trimming and month substitution unchanged |
| DateProperties.DayFirstRoundTrip | src/dataWorker.js:47-51 | a date written `dd/MM/yyyy` converts back to itself |
| DateProperties.IsoRoundTrip | src/dataWorker.js:47-51 | a date written `yyyy-MM-dd` converts back to itself |
| DateProperties.AmbiguousSlashDateIsDayFirst | src/dataWorker.js:47-51 | a date written `MM/dd/yyyy` whose day is at most 12 is read day-first, with day and month swapped |
| DateProperties.MonthFirstWhenDayFirstInvalid | src/dataWorker.js:47-51 | a date written `MM/dd/yyyy` whose day is 13 or more is read correctly, through the last pattern |
| DateProperties.TwoDigitStartFails | src/dataWorker.js:42-51 | a text that starts with three or more digits matches none of the day-first or month-first patterns |
| DateProperties.NamedPatternNeedsSpace | src/dataWorker.js:42 | `d MMMM yyyy` rejects a day followed by anything but a space |
| DateProperties.PortugueseNamesApart | src/dataWorker.js:15-28 | no Portuguese month name occurs inside another one, except itself at position 0 |
| DateProperties.SubstitutePortugueseName | src/dataWorker.js:35-40 | in `day month year` with a Portuguese month name, exactly that name becomes the English one |
| DateProperties.MonthNameRead | src/dataWorker.js:42 | the `MMMM` token reads a full English month name as its month number |
| DateProperties.PortugueseDateConverts | src/dataWorker.js:30-45 | `15 março 2024`-style text converts to the date it names |
| Amount.ReadUnsigned | src/dataWorker.js:93 | a decimal literal read by `parseFloat` is never negative |
| Amount.FalsyAmountIsZero | src/dataWorker.js:92-94 | an empty or missing amount becomes 0 |
| Amount.DigitlessAmountIsZero | src/dataWorker.js:93-94 | a text without digits is NaN for `parseFloat`, which the fallback turns into 0 |
| Amount.GroupedDigitsValue | src/dataWorker.js:93 | deleting a thousands separator joins the digit groups into one number, the left group times ten to the length of the right group plus the right group |
| Amount.DigitsValueAppend | src/dataWorker.js:93 | two digit strings written one after the other denote the first value shifted by the length of the second, plus the second |
| Amount.ParseDecimal | src/dataWorker.js:93 | `parseFloat` of an optional minus, digits, a point and digits is the signed decimal value |
| Amount.CurrencyTextAmount | src/dataWorker.js:92-94 | `BRL ` + sign + grouped digits + `,` + fraction normalises to the signed decimal value divided by 100 |
| Amount.GroupedAmountExample | src/dataWorker.js:92-94 | `BRL 1.234,56` normalises to 12.3456, because the division by 100 is unconditional |
| Amount.NegativeAmountExample | src/dataWorker.js:92-94 | `BRL -500,00` normalises to -5 |
| Cleaner.LastPadded | src/dataWorker.js:78-83 | a padded spelling found for a trimmed header is one of the row's headers, trims to it and differs from it |
| Cleaner.TrimKeysFromSpec | src/dataWorker.js:78-88 | the header loop leaves the unvisited headers, the visited trimmed ones and the trimmed forms of the padded ones; each holds the trimmed cell of the last padded spelling visited, else its own cell |
| Cleaner.TrimRowSpec | src/dataWorker.js:76-88 | a row's headers become the set of its trimmed headers, each holding the trimmed cell of its source header |
| Cleaner.TrimRowTrimmed | src/dataWorker.js:78-88 | after the loop every header and every text cell is trimmed |
| Cleaner.CleanRowSpec | src/dataWorker.js:76-94 | a cleaned row has the trimmed headers plus the date and amount columns; the date is `convertDate` of the trimmed date cell, the amount the normalised trimmed amount cell, and every other column its trimmed cell |
| Cleaner.KeptRowKeys | src/dataWorker.js:90-102 | a row that keeps its date has exactly the trimmed headers plus the amount column |
| Cleaner.CleanedRowTrimmed | src/dataWorker.js:78-88 | the columns a cleaned row carries along are trimmed, header and text |
| Cleaner.EmptyDateDropped | src/dataWorker.js:30-31 | a row whose date cells are all missing or blank gets no date, as `convertDate` returns `null` for a falsy value |
| Cleaner.SourceKeyFound | src/dataWorker.js:78-83 | every trimmed header comes from a header of the row that trims to it |
| Cleaner.SelectDatedSpec | src/dataWorker.js:102 | the filter keeps exactly the dated rows, in their order, each as a record |
| Cleaner.CleanAllSpec | src/dataWorker.js:70-102 | the records are the cleaned rows whose date converted, in row order, and no dated row is lost |
| Sequencer.InsertCounts | src/dataWorker.js:104-108 | inserting a record adds exactly that record |
| Sequencer.InsertSorted | src/dataWorker.js:104-108 | inserting into a sorted sequence keeps it sorted |
| Sequencer.InsertOnDay | src/dataWorker.js:104-108 | an inserted record goes last among the records of its day and leaves other days alone |
| Sequencer.SortByDateSpec | src/dataWorker.js:104-108 | the sort orders by day, is a permutation, and is stable: each day's records keep their input order |
| Sequencer.KeepFromSpec | src/dataWorker.js:111-115 | the start-date filter keeps exactly the records on or after the start day, so the boundary is inclusive, and keeps a sorted sequence sorted; for each day from the start on it keeps that day's records with their multiplicity and order, and for each earlier day none |
| Sequencer.FilterFromSpec | src/dataWorker.js:110-116 | without a start date nothing is removed; with one, exactly the records before it are, while every later day keeps its records in number and order |
| Grouper.Add | src/dataWorker.js:145-152 | a positive amount adds to income and counts an order, leaving expense alone; any other amount adds its magnitude to expense, leaving income and the count alone; the net changes by the amount |
| Grouper.SumSpec | src/dataWorker.js:118-152 | a group's income is the sum of its positive amounts, its expense the negated sum of the others, its count the number of positive amounts, and income less expense the sum of all amounts |
| Grouper.SumSigns | src/dataWorker.js:118-152 | income and expense are never negative, and income is positive exactly when the count is |
| Grouper.SumAppend | src/dataWorker.js:145-152 | the sums of two record sequences in a row combine componentwise |
| Grouper.RunsAreRuns | src/dataWorker.js:125-155 | the groups split the records into consecutive groups; each group is opened by its anchor record, all its members join its anchor, and each group's first record does not join the group before |
| Grouper.RunsCharacterised | src/dataWorker.js:125-155 | a list of groups has that shape exactly when it is the grouping of the records |
| Grouper.RunsAnchorsAscend | src/dataWorker.js:133-141 | whatever the input order, later anchors lie more than a day after earlier ones, so no key repeats |
| Grouper.SortedRunsSpan | src/dataWorker.js:130-137 | for sorted input every member lies on its anchor's day or the next |
| Grouper.SortedGroupsSeparated | src/dataWorker.js:130-137 | for sorted input, members of later groups lie on later days than members of earlier groups, and members of one group differ by at most one day |
| Grouper.AnchorDoesNotChain | src/dataWorker.js:133-154 | three records on consecutive days form two groups, because the third is compared with the anchor |
| Grouper.GroupOf | src/dataWorker.js:130-137 | `groupDate` is the current date or the previous group date |
| Grouper.Step | src/dataWorker.js:139-154 | after one iteration `previousDate` is set and names an entry of the table, and no entry is removed |
| Grouper.AccumulateRuns | src/dataWorker.js:122-155 | the fold as written yields the groups' anchors as keys in order, each holding its group's sums, with `previousDate` the last anchor |
| Grouper.AccumulateSpec | src/dataWorker.js:122-155 | the table has one key per group, in ascending order more than a day apart, no other entries, and each key holds its group's sums |
| Grouper.RunsConserve | src/dataWorker.js:118-155 | each record lands in exactly one group, and the groups' income, expense and counts add up to those of all records |
| Grouper.GroupKeyNames | src/dataWorker.js:139 | the `yyyy-MM-dd` key names dates of four-digit years one to one, so keying by the date is faithful |
| Output.ExpensePercent | src/dataWorker.js:169 | the percentage times income is 100 times expense; it is 0 for a group without income |
| Output.AveragePerOrder | src/dataWorker.js:170 | the average times the order count is the net amount; it is 0 for a group without orders |
| Output.GroupRowColumns | src/dataWorker.js:186-202 | every row has the columns of `columnOrder`, in that order |
| Output.RowShares | src/dataWorker.js:178-184 | the percentage cell is a text ending in `%`, and `Pedidos recebidos` is the plain order count |
| Output.Report | src/dataWorker.js:157-202 | one row per table key, each with the columns of `columnOrder` |
| Pipeline.ProcessData | src/dataWorker.js:14-205 | every output row has the columns of `columnOrder` |
| Pipeline.PreparedSpec | src/dataWorker.js:102-116 | the records reaching the fold are sorted and are exactly the dated records on or after the start date; without a start date they are all the dated records, each as often as cleaned; for every day the start admits they are that day's cleaned records in cleaning order, and for earlier days none |
| Pipeline.ProcessDataRows | src/dataWorker.js:157-202 | the output holds one row per group, in group order, each showing its anchor and its group's sums |
| Pipeline.ProcessDataCells | src/dataWorker.js:157-184 | each output row shows its group's anchor as `dd-MM-yyyy`; as income, the sum of the group's positive amounts; as expense, the magnitude of the sum of its other amounts; as the fixed amount, the sum of all its amounts; and as orders received, the number of its positive amounts |
| Pipeline.ProcessDataGroups | src/dataWorker.js:110-155 | the groups cover the prepared records exactly, their sums add up to the records' sums, anchors ascend more than a day apart, none precedes the start date, and every member lies on its anchor's day or the next |
| Scenario.WholeRun | src/dataWorker.js:14-205 | rows dated 15 and 16 March 2024 for `BRL 10.000,00` and `BRL -500,00` give one group dated 15 March with income 100, expense 5 and one order |
| Scenario.RunFromSixteenth | src/dataWorker.js:110-116 | from 16 March on, only the second row remains, inclusively, and it forms a group with expense 5 and no order |
| Scenario.ShownDate | src/dataWorker.js:159 | the group of 15 March 2024 is shown as `15-03-2024` |

## Left out

- `src/App.js` is not part of this model. It holds the user interface, spreadsheet and ZIP reading, image and spreadsheet export, and the date picker.
- Worker messaging and progress reports (lines 4-12, 72, 127, 165-167) are left out. They are side effects; `ProcessData` is a pure function that returns the rows.
- The per-row `try`/`catch` (lines 75, 97-99) is left out. Every operation of the model is total, so nothing throws.
- Amounts are exact `real`s. IEEE-754 rounding in the sums and divisions is not modelled.
- `parseFloat` is modelled in its decimal form only: leading white space, an optional sign, digits, and an optional point with digits. Exponents, `Infinity` and hexadecimal forms are left out. A text such as `1e3` would read differently in the source.
- `toLowerCase` maps Basic Latin and Latin-1 capitals only. That covers every letter of the headers and month names the routine matches. Other scripts' case mappings are left out.
- The date-fns functions `parse`, `isValid` and `format` are replaced by the model's own strict pattern readers and formatters, which follow date-fns' token rules. Its locale data, time of day and reference date are not modelled.
- `differenceInDays` becomes a difference of day numbers of midnight dates. Daylight-saving shifts of the local clock are not modelled.
- The `new Date(date)` fallback (line 55) is the parameter `loose` of `ConvertDate`. The engine's loose date grammar is implementation-defined.
- `formatReal` (`Intl.NumberFormat`, lines 59-66) and `toFixed(2)` are the parameters `currency` and `fixed2` of `Formatting`. Only the `%` suffix of the percentage cell is stated.
- `Grouped Date` is the anchor written as `dd-MM-yyyy`. The shift at line 159 is not modelled: `new Date(key)` reads the key as UTC midnight, so at any negative UTC offset (the UTC−3 of Brazil, for one) every shown date is the day before the anchor.
- Grouper.AccumulateSpec: groups are keyed by the anchor date, not by its `yyyy-MM-dd` text (line 139). That text writes the era year, so an anchor in year 0 or earlier (which the loose fallback can produce) can share a key with an anchor in a year from 1 on, and line 141 would then merge the two groups; the model keeps them apart. `Grouper.GroupKeyNames` covers only years 1 to 9999, where the key and the date determine each other.
- Grouper.GroupKeyNames: stated for years 1 to 9999 only, as are the date round trips. Wider years have more digits, and date-fns reads and writes them differently.
- A group key is the anchor date itself rather than its `yyyy-MM-dd` text. `GroupKeyNames` shows the two are interchangeable for four-digit years.
- The order of `Object.keys` is modelled as insertion order. That holds for the group keys, which never look like array indices. Of the row headers, only the relative order of the padded spellings of one header matters, because the last one wins. A padded spelling has white space at an end, so it is never an array index, and its `Object.keys` position is its column position, the order of `RawRow`.
- Cells are `null` or strings, which is what the spreadsheet reader hands over. Numeric and boolean cells are left out.
