# hp_4 date utilities and late-fee report, in Dafny

A model of `src/hp_4.py`, a small library of date helpers and a library
late-fee report:

- `reformat_dates(old_dates)` re-renders `yyyy-mm-dd` strings as `dd Mon yyyy`;
- `date_range(start, n)` lists `n` consecutive days from a `yyyy-mm-dd` start;
- `add_date_range(values, start_date)` pairs those days with `values`;
- `fees_report(infile, outfile)` reads a ledger of book returns, charges
  0.25 per day late, sums the charges per patron and writes one
  `patron_id,late_fees` line per patron.

Modules, one file each:

| file | module | what it holds |
|---|---|---|
| `runtime.dfy` | `Runtime` | `Option`, `Result`, the exceptions raised (`TypeError`, `ValueError`, `OverflowError`, `IndexError`), dynamically typed argument `Value`s, and `MapAll`, a list comprehension whose element call may raise |
| `decimal.dfy` | `Decimal` | digit characters, two-digit fields, `str(n)` for naturals |
| `calendar.dfy` | `Calendar` | the proleptic Gregorian calendar of years 1..9999, day ordinals numbered as `date.toordinal()` numbers them, `timedelta` shifts and differences |
| `date_text.dfy` | `DateText` | `strptime`/`strftime` for `%Y-%m-%d`, `%m/%d/%Y` and `%d %b %Y` |
| `date_utils.dfy` | `DateUtils` | `reformat_dates`, `date_range` (an imperative loop), `add_date_range` |
| `fees.dfy` | `Fees` | the parse, aggregate and format part of `fees_report` (an imperative loop over the rows with an insertion-ordered accumulator) |

Fees are counted in whole quarters. Every amount the source adds is a
multiple of 0.25, so its float sums are exact and this model is faithful
to them. A total of `q` quarters is rendered as `q / 4`, a point, and the
cents `q % 4 * 25` on two digits.

Two details of the code that the model keeps:

- `DictReader` is given explicit field names, so the file's own header
  line comes back as row 0. `rows.pop(0)` drops exactly that row, and
  every later row is charged.
- `date_range` with a negative `n` returns `[]`, because `range(n)` is
  empty. It does not fail.

## Model

| member | source | states |
|---|---|---|
| `Runtime.MapAllSucceeds` | src/hp_4.py:11 | a comprehension whose element call may raise succeeds exactly when every call succeeds, and then yields every call's result in order |
| `Runtime.MapAllFails` | src/hp_4.py:11 | a failed comprehension raises the exception of some call, and every earlier call succeeded |
| `Runtime.MapAllFirstFailure` | src/hp_4.py:45-48 | when every call before position `i` succeeds and the call at `i` raises, the traversal raises that exception |
| `Runtime.MapAllOfMapsTo` | src/hp_4.py:45-49 | results that match the calls one for one are exactly what the traversal yields |
| `Runtime.MapsToExtend` | src/hp_4.py:45-49 | one more successful call extends the matched results by its result |
| `Decimal.TwoRoundTrip` | src/hp_4.py:11 | a number below 100 written as two digits reads back unchanged |
| `Decimal.TwoCanonical` | src/hp_4.py:22 | any digit pair is the two-digit rendering of its own value |
| `Decimal.NatToStringValue` | src/hp_4.py:53 | `str(n)` denotes `n` and has no leading zero |
| `Calendar.DaysInMonth` | src/hp_4.py:22 | months have 28 to 31 days, and exactly February of a leap year has 29 |
| `Calendar.DaysFromCivil` | src/hp_4.py:49 | the ordinal of a valid date lies inside its year's block of days and within 1..3652059 |
| `Calendar.CivilFromDays` | src/hp_4.py:24 | every ordinal in 1..3652059 is the ordinal of a valid date |
| `Calendar.DaysFromCivilMonotone` | src/hp_4.py:49 | ordinals follow calendar order |
| `Calendar.DaysFromCivilInjective` | src/hp_4.py:49 | distinct valid dates have distinct ordinals |
| `Calendar.CivilDaysRoundTrip` | src/hp_4.py:24 | `fromordinal(toordinal(d)) == d` for every valid date |
| `Calendar.NextDayIsOneLater` | src/hp_4.py:24 | the calendar successor, with its month and year rollover, is one ordinal later |
| `Calendar.DaysBetweenSign` | src/hp_4.py:49 | `(b - a).days` is positive exactly when `b` is later than `a`, and zero exactly when they are the same date |
| `Calendar.AddDays` | src/hp_4.py:24 | `d + timedelta(days=k)` exists exactly when it stays within years 1..9999, and it then lies `k` days after `d` |
| `Calendar.AddDaysStep` | src/hp_4.py:23-24 | shifting by `k + 1` days gives the calendar successor of shifting by `k` |
| `Calendar.AddDaysBetween` | src/hp_4.py:49 | shifting `a` by `(b - a).days` lands on `b` |
| `DateText.MonthOfAbbr` | src/hp_4.py:11 | a recognised abbreviation names a month from 1 to 12, and that month abbreviates to it |
| `DateText.MonthAbbrRoundTrip` | src/hp_4.py:11 | every month is recovered from its `%b` abbreviation |
| `DateText.FormatDisplay` | src/hp_4.py:11 | `%d %b %Y` is eleven characters long |
| `DateText.IsoRoundTrip` | src/hp_4.py:22 | every valid date's `yyyy-mm-dd` rendering parses back to it |
| `DateText.IsoCanonical` | src/hp_4.py:22 | a string that parses as `yyyy-mm-dd` is the rendering of the date it parses to |
| `DateText.ParseIsoExact` | src/hp_4.py:11 | `strptime(s, '%Y-%m-%d')` yields `d` exactly when `d` is valid and `s` is its rendering |
| `DateText.UsRoundTrip` | src/hp_4.py:47-48 | every valid date's `mm/dd/yyyy` rendering parses back to it |
| `DateText.UsCanonical` | src/hp_4.py:47-48 | a string that parses as `mm/dd/yyyy` is the rendering of the date it parses to |
| `DateText.ParseUsExact` | src/hp_4.py:47-48 | `strptime(s, '%m/%d/%Y')` yields `d` exactly when `d` is valid and `s` is its rendering |
| `DateText.DisplayRoundTrip` | src/hp_4.py:11 | the `dd Mon yyyy` rendering loses nothing: it reads back to the same year, month and day |
| `DateUtils.ReformatOne` | src/hp_4.py:11 | one element succeeds exactly for a str that parses; a non-str raises TypeError and a bad date ValueError; the output reads back to the parsed date |
| `DateUtils.ReformatDates` | src/hp_4.py:8-11 | success exactly when every element parses; then the same length and order, element `i` being the `dd Mon yyyy` rendering of input `i`; otherwise the exception of the first failing element and no list |
| `DateUtils.ReformatPreservesDates` | src/hp_4.py:8-11 | each rendered element reads back to the (year, month, day) of its input |
| `DateUtils.DatesFrom` | src/hp_4.py:23-25 | the range overflows exactly when its last day would pass 9999-12-31; otherwise it has `max(n, 0)` elements |
| `DateUtils.DatesFromShifts` | src/hp_4.py:23-24 | element `i` of a range is the start shifted by `i` days |
| `DateUtils.DatesFromOverflow` | src/hp_4.py:24 | one shift inside `range(n)` that leaves the calendar makes the whole call raise OverflowError |
| `DateUtils.DatesFromExtend` | src/hp_4.py:23-24 | a range one day longer is the range followed by the next shift |
| `DateUtils.DatesFromConsecutive` | src/hp_4.py:21-25 | a range starts at its start date, holds only valid dates, and steps exactly one calendar day at a time |
| `DateUtils.DateRangeOf` | src/hp_4.py:14-25 | TypeError unless `start` is a str and `n` an int, before any parsing; then ValueError for a bad start; then OverflowError exactly when the last day would pass 9999-12-31; otherwise `max(n, 0)` dates, element `i` being the start plus `i` days |
| `DateUtils.DateRangeOfBool` | src/hp_4.py:18-23 | `True` passes `isinstance(n, int)`, so `date_range(start, True)` behaves as `date_range(start, 1)` and `False` as `0` |
| `DateUtils.DateRangeConsecutive` | src/hp_4.py:14-25 | a successful range is empty exactly when `n <= 0`, starts at the parsed start, and each element is the calendar successor of the one before |
| `DateUtils.DateRange` | src/hp_4.py:14-25 | the imperative `date_range` returns or raises exactly what `DateRangeOf` describes |
| `DateUtils.AppendDates` | src/hp_4.py:21-25 | the append loop returns exactly the range of `DatesFrom`, or its OverflowError |
| `DateUtils.AddDateRange` | src/hp_4.py:27-32 | succeeds exactly when `date_range(start_date, len(values))` does, whose exception otherwise propagates; on success there are `len(values)` pairs and pair `i` is (date `i`, `values[i]`) |
| `Fees.DaysLateMeaning` | src/hp_4.py:47-49 | lateness is defined exactly when both dates parse; it is the shift from the due date to the return date, and positive exactly when the return is later |
| `Fees.DaysLateOfRenderings` | src/hp_4.py:47-49 | a row whose dates are `mm/dd/yyyy` renderings is late by the days between them |
| `Fees.LedgerMeaning` | src/hp_4.py:45-49 | the rows are read exactly when every row's dates parse, giving one (patron, lateness) entry per row in order; otherwise reading raises ValueError |
| `Fees.PatronsListEachOnce` | src/hp_4.py:50-53 | the accumulator's keys are exactly the patrons that have a row (on-time patrons included), each listed once |
| `Fees.TotalNeverDecreases` | src/hp_4.py:50 | a patron's running total never decreases as rows are processed |
| `Fees.TotalZeroIffOnTime` | src/hp_4.py:49-50 | a patron owes nothing exactly when none of their returns was late |
| `Fees.FirstIndex` | src/hp_4.py:52-53 | the first row of a patron: that patron's row, with no earlier one |
| `Fees.PatronsInFirstAppearanceOrder` | src/hp_4.py:52-53 | the report lists patrons in the order of their first rows |
| `Fees.AccumulateStep` | src/hp_4.py:50 | one `fee_report_dict[patronID] += fee` on the insertion-ordered `defaultdict` keeps its keys equal to the patrons seen so far, in first-appearance order, and each value equal to that patron's total |
| `Fees.FormatFeeDenotes` | src/hp_4.py:53 | `f'{fee:0.2f}'` has exactly two decimals, no leading zero, and denotes the fee exactly (digits × 100 + cents = 25 × quarters) |
| `Fees.ReadRow` | src/hp_4.py:47-49 | the two `strptime` calls and the subtraction either extend the entries read so far by this row's entry, or make reading the ledger raise |
| `Fees.ChargeRows` | src/hp_4.py:45-50 | the loop stops exactly when the ledger raises; otherwise the accumulator's keys, in insertion order, are the patrons and each value is that patron's total |
| `Fees.FeesReport` | src/hp_4.py:38-54 | an empty input raises IndexError; otherwise the first row is dropped, and a date that does not parse raises ValueError before any output; otherwise there is one line per distinct patron, in first-appearance order, with that patron's total rendered with two decimals |
| `Fees.ExampleRenderings` | src/hp_4.py:47-48 | the dates of the worked example are `mm/dd/yyyy` renderings |
| `Fees.WorkedExample` | src/hp_4.py:38-49 | after the header line `book_uid,isbn_13,…` is dropped, the rows "1" 4 days late, "2" on time and "1" 2 days late give those entries |
| `Fees.WorkedExampleTotals` | src/hp_4.py:50-53 | those entries report "1,1.50" and then "2,0.00" |
| `Fees.WorkedExampleLines` | src/hp_4.py:52-54 | one line per patron of those entries, with its rendered total, is exactly "1,1.50" then "2,0.00" |
| `Fees.WorkedReport` | src/hp_4.py:35-54 | `fees_report` on the worked example's rows, header line included, yields the lines "1,1.50" and "2,0.00" |

## Left out

- File handling, `DictReader` and `DictWriter`: opening the files, CSV parsing and quoting, the `with` blocks, and writing the `patron_id,late_fees` header (src/hp_4.py:40-42, 55-58). These are I/O. Input is a sequence of `Row` records, and output is the sequence of `FeeLine` pairs that would be written.
- Rows with too few fields, where `DictReader` fills in `None` (so `strptime` would raise TypeError), and rows with extra fields. Every `Row` has all six string fields.
- The `__main__` block and `get_data_file_path`. `src/util` is not part of this model.
- `rows.pop(0)` mutates a local list. It is modelled as taking `rows[1..]`, since the list is not seen again.
- Floating point as such. Fees are whole quarters, which is exact for the multiples of 0.25 the source adds, up to totals of 2^53 quarters.
- `datetime` values carry a time of day. Every value here is parsed from a date-only pattern, so it is midnight, and the model keeps only the date.
- The ignored columns `book_uid`, `isbn_13` and `date_checkout` are carried in `Row` and read by nothing.
- `DateText.ParseIso`: `strptime`'s `%m` and `%d` also accept a single digit (and `%d` a space and a digit), and `\d` also matches non-ASCII digits. The model accepts only two ASCII digits for each field, so every accepted string is exactly ten characters long.
- `DateText.ParseUs`: the same restriction to two ASCII digits for `%m` and `%d`.
- `DateText.FormatDisplay`: `%Y` is rendered as four zero-padded digits. Some C libraries write years below 1000 without padding.
- `%b` is modelled for the English month names of the C locale only.
- `Calendar.CivilFromDays` finds the year and the month by a search. It does not use Python's 400-year-cycle arithmetic, which is not modelled. Both round trips with `DaysFromCivil` are proved: `CivilFromDays`'s own ensures and `CivilDaysRoundTrip`.
