# Shift checklist report — a Dafny model

This project models the data-processing layer of a small web service. The service prints production checklists from a flat batch of checklist records. Each record is one answered checklist item and carries:

- the shift date, the shift name (`A`, `B`, `Γ`) and the station;
- the submission time (`donetime`);
- the item name and the raw result;
- the operator, the product and the production order.

The layer consists of the following:

- **Value and time helpers.**
  - `normalize_value` cleans a result for display.
  - `parse_hhmm` reads a `"%H:%M"` time, or gives nothing.
  - `minutes` gives the minute of the day.
  - `sort_donetime_list` orders submission times by how long after the shift's start they fall, so a night shift that crosses midnight still reads in order.
- **The shift index (`build_shift_index`).** One pass over the records collects the distinct (shift date, shift, station) groups, each with the latest parsed submission time. The groups are then sorted most recent first.
- **The report (`build_report`).** It keeps the records of one group whose item is on the checklist and pivots them into a matrix:
  - one row per checklist item, in checklist order;
  - one column per submission time, in shift order.
  A later record overwrites an earlier one in the same cell. Each column remembers the header (operator, product, order) of its first record. The report's header is that of the last column.
- **Configuration tables.** `ORDERED_ITEMS` and `SHIFT_START` are the Dafny constants `Records.OrderedItems` and `Records.ShiftStart`. `ALLOWED_ITEMS` is the function `Records.AllowedItems` applied to `OrderedItems`.

Layout, one module per file:

| file | module | contents |
|---|---|---|
| `wrappers.dfy` | `Wrappers` | `Option` |
| `seqs.dfy` | `Seqs` | `Map` over a sequence |
| `text.dfy` | `Text` | Python's `str.strip()` whitespace set, `Trim`, digits |
| `values.dfy` | `Values` | `normalize_value` |
| `sorting.dfy` | `Sorting` | Python's stable `sorted(key=...)` as an insertion sort, with permutation, sortedness and stability lemmas |
| `clock.dfy` | `Clock` | `parse_hhmm`, `minutes`, the shift key and `sort_donetime_list` |
| `calendar.dfy` | `Calendar` | `strptime(s, "%Y-%m-%d").date()` in the index's sort key |
| `records.dfy` | `Records` | the record datatype, field coercion, the configuration tables |
| `shift_index.dfy` | `ShiftIndex` | `build_shift_index` |
| `report.dfy` | `ShiftReport` | `build_report` |
| `scenarios.dfy` | `Scenarios` | worked cases on literal inputs |

The loops of `build_shift_index` and `build_report` are modelled as folds over per-record values:

- A `Sighting` is a record's group key and parsed time.
- An `Entry` is a record's donetime, item, value and header.

The lemmas are proved about the folds and then read back on the records. "Counted" means a record that belongs to the requested group, has a non-empty donetime and names a checklist item.

Some members are definitions, and their contracts only spell out the definition. The lemmas that state what they mean for a caller are these:

- `Records.AllowedItems` is the set of the items of a list.
- `ShiftIndex.Sight` turns a record into its sighting: its stripped key and its parsed donetime. A record gets no sighting when a key field or the donetime is empty. `ShiftIndex.ShiftIndexKeys` and `ShiftIndex.UnindexedRecordIgnored` state what this means for the index.
- `ShiftReport.EntryOf` and `ShiftReport.Entries` apply the report's filter to each record and give its entry. `ShiftReport.ReportColumns` and `ShiftReport.UncountedRecordIgnored` state what this means for the report.
- `ShiftReport.Matrix` builds the rows from the final dictionaries. `ShiftReport.ReportCell` and `ShiftReport.BuildReport` state what each cell and row holds.

## Model

| member | source | states |
|---|---|---|
| Text.TrimSpec | app.py:68 | `strip()` returns an infix of its argument. Everything it cuts off on either side is whitespace, and the result neither starts nor ends with whitespace. |
| Text.TrimIdempotent | app.py:68 | Stripping an already stripped string changes nothing. |
| Text.TrimOfTrimmed | app.py:68 | A string with no whitespace at either end is its own strip. |
| Values.ReplaceCommas | app.py:71 | `replace(",", ".")` keeps the length. Every comma becomes a period and every other character stays in place. |
| Values.NormalizeValue | app.py:65-71 | `None` gives `""`. Otherwise the result is `""` exactly when the stripped value is empty or one of `-`, `N/A`, `n/a`. Any other result is the stripped value, character for character, with commas turned into periods. The result never contains a comma. |
| Values.ReplaceCommasKeepsNonPlaceholder | app.py:69-71 | Replacing commas never turns a kept value into one of the placeholders. |
| Values.NormalizeIdempotent | app.py:65-71 | Normalizing an already normalized value gives it back unchanged. |
| Clock.ParseHHMM | app.py:74-78 | Every time `parse_hhmm` returns has hour below 24 and minute below 60. |
| Clock.ParseHHMMSpellings | app.py:74-78 | `parse_hhmm(s)` is the time `t` exactly when the stripped `s` is `H:M`. Here H and M are one- or two-digit spellings of the hour and the minute of `t` that `%H` and `%M` accept. Both directions are proved. |
| Clock.ParseFormatRoundTrip | app.py:74-78 | The zero-padded `HH:MM` spelling of any valid time parses back to that time. |
| Clock.ParseMidnight | app.py:87 | The fallback `"00:00"` parses to midnight. |
| Clock.Minutes | app.py:81-82 | The minute of the day of a valid time lies in [0, 1440). |
| Clock.MinutesInverse | app.py:81-82 | Hour and minute are the quotient and remainder of the minute of the day by 60, so no information is lost. |
| Clock.MinutesOrder | app.py:81-82 | Comparing minutes of the day is Python's comparison of `time` values: by hour first, then by minute. Equal minutes mean equal times. |
| Clock.ParseOrMidnight | app.py:91 | `parse_hhmm(s) or 00:00` is the parsed time when there is one and midnight otherwise. It is always a valid time. |
| Clock.StartMinute | app.py:86-88 | A shift listed in the table starts at the minute of the day of its parsed entry. A shift missing from the table, or one whose entry does not parse, starts at 0. The result lies in [0, 1440). |
| Scenarios.ShiftStartMinutes | app.py:34-38 | Shift A starts at minute 360, B at 840 and Γ at 1320. Any other shift name starts at 0. |
| Clock.Elapsed | app.py:93 | `(m - s) % 1440` lies in [0, 1440), and advancing a clock from `s` by it reaches `m`. It is `m - s`, or `m - s + 1440` when `m < s`. |
| Clock.ElapsedUnique | app.py:93 | No other delay in [0, 1440) takes the clock from `s` to `m`. |
| Clock.ShiftKey | app.py:90-93 | The sort key lies in [0, 1440), and advancing the shift's start by it reaches the donetime's minute. An unparsable donetime counts as 00:00. |
| Clock.ShiftKeyUnique | app.py:90-93 | The key is the only delay in [0, 1440) with that property. |
| Clock.SortDonetimes | app.py:85-95 | The result is a permutation of the input, nondecreasing by shift key. Every key class keeps the input order. |
| Clock.SortDonetimesStable | app.py:95 | Two donetimes with equal shift keys leave the sort in the order they entered it. |
| Sorting.SortBy | app.py:95 | The stable sort returns a sequence of the same length, nondecreasing by the key. |
| Sorting.SortByPermutes | app.py:95 | The sort neither drops nor adds an element: same multiset. |
| Sorting.SortByClasses | app.py:95 | The elements with one key come out in the order they went in. |
| Sorting.SortByUnique | app.py:95 | Any sorted rearrangement that keeps every key class in order equals the sort's result, so the contract determines the sort. |
| Sorting.SortByStable | app.py:183 | Two elements with equal keys keep their relative order. |
| Sorting.InsertKeepsSorted | app.py:95 | Inserting into a sorted sequence keeps it sorted. |
| Sorting.PermutationKeepsInjective | app.py:183 | A rearrangement of elements with distinct images keeps the images distinct. |
| Calendar.ParseDate | app.py:177 | Every date `strptime(s, "%Y-%m-%d")` accepts is a valid Gregorian date with a year from 1 to 9999. |
| Calendar.YearFieldSpelling | app.py:177 | `%Y` reads a string as a year exactly when the string is that year's four digits, zero padded. |
| Calendar.MonthFieldSpelling | app.py:177 | `%m` reads a string as a month exactly when the string is one of its one- or two-digit spellings. |
| Calendar.DayFieldSpelling | app.py:177 | `%d` reads a string as a day exactly when the string is one of its one- or two-digit spellings or, for a day below 10, a space followed by its digit. |
| Calendar.ParseDateSpellings | app.py:177 | `strptime(s, "%Y-%m-%d")` gives the date `d` exactly when `s` is four year digits, a dash, one or two month digits, a dash, and the day as `%d` writes it. Both directions are proved. |
| Calendar.DateOrMin | app.py:176-179 | The sort key's date is the parsed date, or `0001-01-01` when parsing fails. It is always valid. |
| Calendar.ParseFormatDateRoundTrip | app.py:177 | The zero-padded `YYYY-MM-DD` spelling of any valid date parses back to that date. |
| ShiftIndex.Find | app.py:164 | `key in idx`: a position whose group has the key, or no group has it. |
| ShiftIndex.Later | app.py:172-173 | The update keeps the old time or takes the new one. The result is `None` only when both are. It is not earlier than either present time, so `None` never overwrites a time. |
| ShiftIndex.CollectSightingsDistinct | app.py:164-170 | The loop's groups have pairwise distinct keys. |
| ShiftIndex.CollectSightingsKeys | app.py:152-170 | The loop has a group for a key exactly when some sighting carries that key. |
| ShiftIndex.CollectSightingsLatest | app.py:161-173 | Every group's time is the latest among its sightings. It is one of them, none is later, and it is `None` only when none parsed. |
| ShiftIndex.CollectSightingsOrder | app.py:164-170 | The groups are in the order their keys were first seen, the insertion order of a dictionary. |
| ShiftIndex.CollectSightingsSkip | app.py:158-159 | A skipped sighting anywhere in the batch changes nothing. |
| ShiftIndex.BuildShiftIndex | app.py:147-183 | The index is a permutation of the loop's groups. It is nonincreasing by sort key, and groups with equal keys keep their first-seen order. |
| ShiftIndex.IndexMembers | app.py:183 | The index holds exactly the loop's groups. |
| ShiftIndex.ShiftIndexKeys | app.py:152-170 | There is a group for a key exactly when some record with non-empty date, shift, station and donetime carries that key. |
| ShiftIndex.ShiftIndexDistinct | app.py:162-170 | No two groups of the index share a (date, shift, station) key. |
| ShiftIndex.ShiftIndexLatest | app.py:161-173 | A group's `last_time` is the parsed donetime of one of its records, and no parsed donetime of its records is later. It is `None` only when none of them parsed. |
| ShiftIndex.UnindexedRecordIgnored | app.py:158-159 | A record with an empty date, shift, station or donetime changes nothing, wherever it sits in the batch. |
| ShiftIndex.DateRankOrder | app.py:175-181 | The integer rank of a valid date orders dates as Python does: by year, then month, then day. Equal ranks mean equal dates. |
| ShiftIndex.RankOrder | app.py:181 | The folded `(date, minute)` key orders by date first and by minute within a date. |
| ShiftIndex.RecencyOrder | app.py:175-181 | A group's sort key is at most another's exactly when its date is earlier, or the dates are equal and its time is not later. |
| ShiftIndex.ShiftIndexTimesValid | app.py:161-173 | Every `last_time` in the index is a valid time of day. |
| ShiftIndex.ShiftIndexNewestFirst | app.py:175-183 | A group never precedes one with a later date, and within one date never one with a later time. An unparsable date counts as `0001-01-01` and a missing time as 00:00. |
| ShiftReport.TallyOrder | app.py:204 | The donetimes of `submissions` are distinct. They are exactly the keys of `meta`, and exactly the donetimes of the counted entries. |
| ShiftReport.TallyCells | app.py:204-205 | A cell is present exactly when some entry wrote it, and then it holds the value of the last such entry. |
| ShiftReport.TallyMeta | app.py:207-212 | The header recorded for a donetime is that of its first entry. |
| ShiftReport.TallyFirstSeen | app.py:204 | `submissions` keeps its donetimes in the order they were first seen. |
| ShiftReport.TallySkip | app.py:201-202 | A skipped entry anywhere in the batch changes nothing. |
| ShiftReport.BuildReport | app.py:186-234 | The report echoes the requested date, shift and station. It has exactly one row per checklist item, in order and labelled, each with one value per column. Its columns are nondecreasing by shift key. |
| ShiftReport.ReorderedDistinct | app.py:214 | Reordering distinct donetimes keeps them distinct, with the same members. |
| ShiftReport.ReportColumns | app.py:187-214 | The columns are distinct. A donetime is a column exactly when some counted record carries it. |
| ShiftReport.ReportCell | app.py:204-221 | A cell is `""` when no counted record writes it. Otherwise it is the normalized result of the last counted record with that donetime and item. |
| ShiftReport.ReportHeader | app.py:223-225 | The header is empty when there are no columns. Otherwise it is the header of the first counted record with the last column's donetime. |
| ShiftReport.ColumnsStableInTally | app.py:214 | Two donetimes with equal shift keys keep, among the columns, the order in which their entries were first seen. |
| ShiftReport.ReportColumnsStable | app.py:214 | Two columns with equal shift keys appear in the order in which their donetimes first occur among the counted records. |
| ShiftReport.UncountedRecordIgnored | app.py:187-202 | A record of another group, with an empty donetime, or with an item outside the checklist changes nothing, wherever it sits in the batch. |
| Scenarios.NormalizeDash | app.py:69-70 | `"-"` normalizes to `""`. |
| Scenarios.NormalizeNotAvailable | app.py:69-70 | `"N/A"` normalizes to `""`. |
| Scenarios.NormalizeDecimalComma | app.py:68-71 | `" 3,5 "` normalizes to `"3.5"`. |
| Scenarios.ParseOutOfRange | app.py:74-78 | `"25:99"` does not parse. |
| Scenarios.ParseHour24 | app.py:74-78 | `"24:00"` does not parse. |
| Scenarios.ParseOneDigitFields | app.py:74-78 | `"6:5"` parses as 06:05. |
| Scenarios.ParseThreeMinuteDigits | app.py:74-78 | `"06:005"` does not parse: the third minute digit is left over. |
| Scenarios.ParseNoLeapDay | app.py:177 | `2023-02-29` does not parse. |
| Scenarios.ParseCenturyNoLeapDay | app.py:177 | `1900-02-29` does not parse. |
| Scenarios.ParseLeapDay | app.py:177 | `2024-02-29` parses. |
| Scenarios.ParseYearZero | app.py:177 | `0000-01-01` does not parse. |
| Scenarios.NightShiftOrder | app.py:85-95 | In shift Γ (starts 22:00), `06:00, 23:00, 01:00` sorts as `23:00, 01:00, 06:00`. |
| Scenarios.IndexLatestTime | app.py:152-173 | Two records of one group at 08:00 and 09:30 give one group with time 09:30, and a record without a station is skipped. |
| Scenarios.IndexNewestFirstExample | app.py:175-183 | A later date comes first whatever the time, and within a date the later time comes first. |
| Scenarios.ReportExample | app.py:186-234 | A worked report with two submissions:<br>• the dash reads as empty;<br>• the columns are in shift order;<br>• the header comes from the last column's record, which names no operator. |
| Scenarios.ReportOfNothing | app.py:187-225 | With no counted record there are no columns, every row is empty and the header is empty. |

## Left out

- `fetch_checklists_json` and `basic_auth_header` (app.py:56-62, 101-141) are left out. They are HTTP requests, environment secrets, base64 and JSON decoding, all of them I/O and foreign calls. The model starts from the decoded list of records.
- The web routes (`/health`, `/`, `/print`, `/print/render`) and all of `main.py` are left out. They are routing, the current date, template rendering and serving a static file.
- `str()` of non-string API values is left out. Each record field holds the value's string form as given, with `None` standing for the values the source turns into `""` (see `Records.Record`).
- Clock.ParseHHMM: accepts only ASCII digits. Python's `\d` in the `strptime` patterns also matches other Unicode decimal digits, which this model rejects.
- Calendar.ParseDate: accepts only ASCII digits, for the same reason.
- Seconds and microseconds of `time` values are not modelled. After parsing `"%H:%M"` they are always zero, so the hour and the minute decide every comparison.
- The filter comprehension and the loop of `build_report` are modelled as one pass with both guards. Filtering first and then looping visits the counted records in the same order, so the dictionaries come out the same.
- The report is a datatype rather than a dictionary, and the header triple is a `Header` value. The key `label` of a matrix row is the field `name`, because `label` is a reserved word in Dafny.
- `datetime.min.date()` is modelled as the date `0001-01-01`. The sort key `(date, time)` is folded into one integer, and `ShiftIndex.RankOrder` proves this orders pairs as Python's tuple comparison does.
