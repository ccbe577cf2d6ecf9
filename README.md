# A verified model of a sales-ledger desktop tool

This project models the core of a small point-of-sale ledger for a shop that sells bedding sets.
Each sale or return is a JSON record with:

- a date, a quantity of sets, a unit price and a total;
- a note and a creation time;
- optionally a `type` ("sale" or "return"), line items and the id of the sale a return belongs to.

The model covers:

- **`Accounting`** (`accounting.py`, the command-line `AccountingTool`):
  - adding single-line records, with a strict `%Y-%m-%d` date check;
  - queries by date and date range;
  - daily and monthly totals;
  - deletion without renumbering;
  - the date-descending listing.
- **`AccountingGui`** (`accounting_gui.py`, the desktop `AccountingApp`):
  - multi-item sales and returns;
  - partial returns linked to a sale;
  - note and item editing;
  - deletion with renumbering;
  - the sale/return tree;
  - the day and month statistics;
  - the application's own version comparison.
- **`ImportCsv`** (`import_csv.py`) and **`ImportExcel`** (`import_excel.py`), the two spreadsheet importers:
  - date and number normalisation;
  - column detection;
  - the row-by-row validation loop, shared in `Importing`;
  - contiguous id assignment.
- **`ReceiptPrinting`** (`receipt_printer.py`):
  - display widths, with non-ASCII characters two columns wide;
  - centring, justification and greedy wrapping;
  - the content of the compact receipt;
  - the printer's shop settings.
- **`AutoUpdate`** (`auto_updater.py`): the version comparison and the update decision.

Supporting modules hold shared pieces:

- `Records`: the record and its item sums.
- `Stats`: the sale/return summaries and the per-day table.
- `Dates`: `strptime`/`strftime` for `%Y`, `%m`, `%d`, the calendar, and spreadsheet serial dates.
- `Strings`: Python's `strip`, `lower`, `split`, `replace`, `int()`, `float()` and string order.
- `Sorting`: Python's stable `sorted`.
- `Util`: list-comprehension filters.

State that the source mutates in place is modelled with classes:

- `AccountingTool`, `AccountingApp` and `ReceiptPrinter` hold their records or settings in fields.
- Their methods state the whole new state.
- A ghost field `persisted` records what the last save wrote to the records file.
- The loops in the source are methods with loop invariants. Each is proved equal to a specification function, and the properties are lemmas about those functions.

Behaviour the model follows as the code has it, which the documentation does not spell out:

- **Partial returns:**
  - The check compares each return on its own against the sale's quantity. Earlier returns against the same sale are not counted (`ReturnNotCumulative`).
  - A return is dated today, not on the sale's date.
- **Editing items:**
  - Saving the item dialog of a return negates the item sums.
  - The items of a return the application created are already negative, so saving it unchanged turns its quantity positive (`ResaveFlipsReturns`, `EditingNewReturnFlipsSign`).
  - The dialog writes the item list into the record as soon as it opens. Deleting or adding an item changes the record in memory at once, even if the dialog is then cancelled.
- **Deletion:** the command-line tool deletes without renumbering. The desktop application deletes every record with the id and then renumbers 1..N.
- **Receipt time:** the receipt shows the segment of `created_at` between the first and the second space.
- **Excel importer:**
  - It reads a numeric cell as no date at all.
  - It reads a text cell that no format parses as a serial number with no range check. The CSV importer accepts only serials 1..50000.
  - A column is assigned to at most one field, and the last matching column wins. The CSV importer takes the first matching header for each field independently, so one header can serve two fields.

## Model

| member | source | states |
|---|---|---|
| Accounting.AccountingTool.constructor | accounting.py:17-30 | the tool holds the records loaded from the file, which is also what the file contains |
| Accounting.AccountingTool.AddRecord | accounting.py:47-85 | a date that `strptime("%Y-%m-%d")` rejects is refused and nothing changes; otherwise exactly one record is appended and saved, with id `len(records) + 1`, total quantity × price, no type, no items and no link |
| Accounting.AccountingTool.QueryByDate | accounting.py:87-89 | the result holds exactly the records whose date string equals the argument, each as often as it is stored, in store order |
| Accounting.AccountingTool.QueryByDateRange | accounting.py:91-100 | an unparsable bound gives []; the call fails (None) exactly when both bounds parse and some stored date does not; otherwise the result holds exactly the records dated between the two bounds inclusive, each as often as it is stored, in store order |
| Accounting.NotInReversedRange | accounting.py:99-100 | no record lies in a range whose end is before its start |
| Accounting.AccountingTool.ReversedRangeIsEmpty | accounting.py:91-100 | a reversed date range selects nothing |
| Accounting.DailyTotalsOf | accounting.py:106-125 | the count is the number of records; the average price times the quantity gives back the amount when the quantity is positive, and is 0 otherwise; no records give the all-zero summary |
| Accounting.AccountingTool.DailySummary | accounting.py:102-125 | count and totals are those of `query_by_date` of the same date; a date without records gives the all-zero summary |
| Accounting.AccountingTool.MonthlySummary | accounting.py:127-153 | an error exactly when the argument is not two '-'-separated integers; otherwise count and signed sums of the records whose date starts with the argument |
| Accounting.RemoveFirst | accounting.py:155-162 | an unknown id leaves the list as it was; otherwise the list is one record shorter |
| Accounting.RemoveFirstKeepsOthers | accounting.py:157-159 | only the first record with the id is removed; every other record keeps its position order and its id, and the multiset loses exactly that record |
| Accounting.DeleteLeavesGap | accounting.py:155-162 | ids are not renumbered: deleting id 1 of records 1 and 2 leaves one record with id 2 |
| Accounting.AccountingTool.DeleteRecord | accounting.py:155-162 | reports true exactly when some record has the id; the records become `RemoveFirst` of the old ones, and the file is saved only on deletion |
| Accounting.AccountingTool.AppendImported | import_csv.py:271-279 | the imported rows are appended in order, row `i` with id `len(records) + 1 + i` and the `i`-th clock reading as its creation time, and the ledger is saved |
| Accounting.AccountingTool.GetAllRecords | accounting.py:164-166 | the result is sorted by date string, newest first; it is a permutation of the records; records with equal dates keep their store order |
| Records.SaleReturnDisjoint | accounting_gui.py:1204-1205 | no record is both a sale and a return; a record is neither exactly when its quantity is 0 and its type is not "return" |
| Records.Negated | accounting_gui.py:800-802 | the same items in the same order, each with its quantity negated and its price kept |
| Records.NegatedSums | accounting_gui.py:790-802 | negating the items negates both item sums, so the negated totals of a return are the sums of its negated items |
| Records.PositiveSums | accounting_gui.py:778-781 | a non-empty list of positive items has a quantity of at least its length and a positive amount |
| Records.FindById | accounting_gui.py:1359-1363 | the index of the first record with the id, and none when no record has it |
| Records.OnDate | accounting.py:89 | exactly the records of that date, each as often as it occurs, in store order |
| Records.WithDatePrefix | accounting.py:134-135 | exactly the records whose date string starts with the prefix, each as often as it occurs, in store order |
| Records.WithIds | import_csv.py:328-331 | the imported rows in order, row `i` numbered `start + i` and stamped with the `i`-th clock reading, as `datetime.now()` is called once per record |
| Records.ImportKeepsNumbering | import_csv.py:328-334 | appending imported rows numbered from `len(records) + 1` to records numbered 1..N keeps the numbering contiguous |
| Stats.SumAbsQuantity | accounting_gui.py:1212 | the returned quantity shown is never negative |
| Stats.SumAbsAmount | accounting_gui.py:1213 | the returned amount shown is never negative |
| Stats.SumsAppend | accounting_gui.py:1208-1213 | each of the four sums splits over a concatenation of record lists |
| Stats.Summarize | accounting_gui.py:1268-1282 | the record count; returns counted as absolute values and non-negative; the average price times the sold quantity is the sold amount when something was sold, and 0 otherwise |
| Stats.SummaryAppend | accounting_gui.py:2293-2306 | the sale, return and net figures of two record lists together are the sums of each list's figures |
| Stats.NetIsSignedSum | accounting_gui.py:1216-1218 | when every record's signs agree with its kind, the net quantity and amount are the plain signed sums, the figures `get_daily_summary` reports |
| Stats.DateSummary | accounting_gui.py:1259-1264 | nothing is shown exactly for a date without records; otherwise the summary counts at least one record |
| Stats.ZFill | accounting_gui.py:2289 | `str.zfill` gives a text of at least the width |
| Stats.YearMonth | accounting_gui.py:2288-2290 | the month key starts with the year and a dash and is at least three characters longer than the year |
| Stats.BreakdownByDate | accounting_gui.py:2312-2324 | the per-day table has a row exactly for each date that occurs, each row totals that date's records, and its keys in insertion order are those dates without repetition |
| Stats.DayOrder | accounting_gui.py:2340 | as many days are listed as there are distinct dates |
| Stats.DayOrderProperties | accounting_gui.py:2340 | the per-day rows are in ascending date order, a permutation of the table's keys, and cover exactly the dates in the table |
| Stats.DayTotalsAgreeWithSummary | accounting_gui.py:2312-2324 | with consistent signs, a day's row agrees with the sale and return figures of that day's summary |
| AccountingGui.FormItem | accounting_gui.py:770-783 | a row of the add form yields an item only with both quantity and price above 0 |
| AccountingGui.ReturnItem | accounting_gui.py:1841-1850 | a row of the return form yields an item only with both quantity and price above 0 |
| AccountingGui.ValidItems | accounting_gui.py:766-783 | the items a form yields are all positive, at most one per row |
| AccountingGui.CollectItems | accounting_gui.py:766-783 | the collection loop returns the valid items in row order with running totals equal to their quantity and amount sums |
| AccountingGui.NegateItems | accounting_gui.py:800-802 | the in-place negation loop yields the negated items |
| AccountingGui.ReturnNote | accounting_gui.py:795-799 | a return's note always starts with the "[退货]" tag |
| AccountingGui.AddDecisionProperties | accounting_gui.py:753-823 | a record is added exactly when the stripped date is non-empty and some row is valid; it gets the next id, the stripped date and the creation time; its totals are its item sums; a sale is positive with the items as entered, and a return is negative with negated items and a tagged note |
| AccountingGui.BuildEntry | accounting_gui.py:790-819 | negating the running totals and the items in place builds the same record as the item sums do |
| AccountingGui.ReturnsOf | accounting_gui.py:2605-2616 | for a sale, exactly the returns that point back to its id, each as often as it is stored, in store order; nothing for a return |
| AccountingGui.ReturnEntryShape | accounting_gui.py:1864-1875 | a return of positive items has the new id, today's date, the return type and the link to the sale; its items are negative and its totals match them with the signs of a return |
| AccountingGui.ReturnDecisionProperties | accounting_gui.py:1698-1878 | an unknown id and a return record are refused; an accepted return links to the sale, holds the negated valid items, returns at most the sale's quantity, and is listed last among the sale's returns |
| AccountingGui.ReturnNotCumulative | accounting_gui.py:1856-1858 | a return that was accepted is accepted again when repeated, so the returns against one sale can exceed what it sold |
| AccountingGui.FindIndex | accounting_gui.py:1359-1363 | the search loop finds the first record with the id |
| AccountingGui.ReturnForm | accounting_gui.py:1698-1875 | the checks of `convert_to_return` and `do_return`, in order, give the specified decision |
| AccountingGui.DialogItems | accounting_gui.py:1470-1477 | the dialog's list is never empty: the record's items, or one item of the record's absolute quantity at its unit price |
| AccountingGui.DialogAdd | accounting_gui.py:1606-1628 | the items the add dialog appends are all positive, at most one per row |
| AccountingGui.ReadDialogRows | accounting_gui.py:1606-1628 | the row loop appends the parsed positive items in order and stops at the first row whose numbers do not parse, keeping what came before |
| AccountingGui.ResaveFlipsReturns | accounting_gui.py:1661-1683 | saving an unchanged item list keeps a sale's totals but negates both totals of a return, so a negative return turns positive |
| AccountingGui.EditingNewReturnFlipsSign | accounting_gui.py:1667-1679 | every return the add form creates turns positive when its item dialog is saved unchanged |
| AccountingGui.LegacyReturnKeepsSign | accounting_gui.py:1470-1477 | a return without items gets a positive single item, so saving its dialog keeps its negative quantity |
| AccountingGui.Renumbered | accounting_gui.py:1908-1910 | the records keep their order and every field except the id, which becomes the position plus one |
| AccountingGui.DeleteKeepsOrderAndLinks | accounting_gui.py:1893-1914 | deletion removes every record with the id; the survivors are numbered 1..N, keep their order and all other fields, `original_record_id` included |
| AccountingGui.TreeTopLevel | accounting_gui.py:921-963 | the top level of the tree shows exactly the non-returns and the returns without a parent id |
| AccountingGui.TreeShowsRecord | accounting_gui.py:932-958 | every non-return and every return without a parent id has a top-level row |
| AccountingGui.TreeRowRecord | accounting_gui.py:945-958 | every top-level row shows a stored non-return or a stored return without a parent id |
| AccountingGui.TreeOrder | accounting_gui.py:944-958 | the non-returns come first, newest first by the view's key, then the orphan returns, newest first; every child row is a return linked to its parent row's id |
| AccountingGui.LinkedReturnShownIff | accounting_gui.py:932-954 | a return with a parent id is shown under some row exactly when a non-return with that id exists; otherwise it is not shown at all |
| AccountingGui.PartitionRecords | accounting_gui.py:928-942 | the loop splits the records into the non-returns, the returns grouped by their non-zero parent id, and the orphan returns, each in store order |
| AccountingGui.VersionParts | accounting_gui.py:2476-2477 | `parse_version` keeps at most one number per '.'-separated component |
| AccountingGui.DigitParts | accounting_gui.py:2477 | the all-digit components are kept and the others dropped, so there are never more numbers than components |
| AccountingGui.ZeroExtended | accounting_gui.py:2483-2485 | padding keeps the original components and appends zeros up to the common length |
| AccountingGui.CompareParts | accounting_gui.py:2487-2492 | the pairwise comparison answers 1, 0 or -1 |
| AccountingGui.VersionOrder | accounting_gui.py:2474-2492 | `compare_versions` answers 1, 0 or -1 |
| AccountingGui.VersionOrderProperties | accounting_gui.py:2474-2492 | swapping the versions negates the answer, a version equals itself, and the answer is 0 exactly when the zero-padded component lists are equal |
| AccountingGui.TrailingComponentIgnored | accounting_gui.py:2476-2485 | appending ".0", or a component that is not all digits, gives an equal version |
| AccountingGui.CompareVersions | accounting_gui.py:2474-2492 | the padding and the comparison loop compute the specified order |
| AccountingGui.DailyBreakdown | accounting_gui.py:2312-2324 | the `daily_stats` loop builds the per-day table and records its keys in first-appearance order |
| AccountingGui.AccountingApp.constructor | accounting_gui.py:133-141 | the application holds the loaded records, which is also what the file contains |
| AccountingGui.AccountingApp.AddRecord | accounting_gui.py:753-823 | the outcome is the specified add decision; an accepted form appends that one record and saves, and a refused one changes and saves nothing |
| AccountingGui.AccountingApp.ConvertToReturn | accounting_gui.py:1698-1878 | the outcome is the specified return decision; an accepted return is appended and saved, and a refusal changes nothing |
| AccountingGui.AccountingApp.EditNote | accounting_gui.py:1347-1402 | an unknown id changes nothing; otherwise the stripped text replaces the note of the first record with the id, nothing else changes, and the file is saved |
| AccountingGui.AccountingApp.BeginItemEdit | accounting_gui.py:1412-1477 | opening the dialog stores its item list into the first record with the id, in memory only |
| AccountingGui.AccountingApp.DeleteEditedItem | accounting_gui.py:1501-1510 | the selected item leaves the record's list at once, in memory only |
| AccountingGui.AccountingApp.AddEditedItems | accounting_gui.py:1606-1628 | the accepted rows are appended to the record's list; the result reports a parse error, the number added, or that nothing valid was entered |
| AccountingGui.AccountingApp.SaveItemEdit | accounting_gui.py:1661-1685 | an empty list is refused with nothing changed; otherwise the record gets the item sums, negated for a return, and the first item's price, and the file is saved |
| AccountingGui.AccountingApp.DeleteSelected | accounting_gui.py:1893-1914 | the records become the survivors renumbered 1..N, and the file is saved |
| AccountingGui.AccountingApp.MonthlyStats | accounting_gui.py:2287-2341 | the summary, per-day table and listed days are those of the records whose date starts with "year-month" |
| ImportCsv.ReadDate | import_csv.py:16-51 | blank text is no date; every date read is a valid calendar date |
| ImportCsv.SerialText | import_csv.py:43-49 | a serial is read only when `float` succeeds and `int(float(text))` is in 1..50000 |
| ImportCsv.ParseDate | import_csv.py:16-51 | a result exactly when a date is read, written as `%Y-%m-%d` |
| ImportCsv.BlankIsNoDate | import_csv.py:18-19 | empty and whitespace-only text is not a date |
| ImportCsv.FirstFormatWins | import_csv.py:35-40 | the first format that parses the stripped text decides the date |
| ImportCsv.SerialFallbackRange | import_csv.py:43-49 | text no format parses is read only as a serial number in 1..50000, as that serial's date |
| ImportCsv.ParseDateReadsBack | import_csv.py:37-38 | the output read back with "%Y-%m-%d" is the date that was read |
| ImportCsv.ParseDateIdempotent | import_csv.py:16-51 | normalising an imported date again gives the same text |
| ImportCsv.SlashDatesDayFirst | import_csv.py:24-40 | whenever the day-first reading of "dd/mm/yyyy" is a valid date it is the one imported, even when the month-first reading is valid too |
| ImportCsv.ReadDayFirst | import_csv.py:27 | "03/04/2026" read with "%d/%m/%Y" is 3 April 2026 |
| ImportCsv.ReadMonthFirst | import_csv.py:29 | "03/04/2026" read with "%m/%d/%Y" is 4 March 2026 |
| ImportCsv.YearFirstFails | import_csv.py:25-26 | the year-first formats reject "03/04/2026" |
| ImportCsv.YearFirstRejects | import_csv.py:25-26 | the year-first formats need a first run of exactly four digits |
| ImportCsv.ParseNumber | import_csv.py:54-65 | empty text and text that is not a number after the marks are removed give 0.0; otherwise the number `float` reads |
| ImportCsv.ParseNumberIgnoresMarks | import_csv.py:60 | a currency mark, comma or space anywhere does not change the number |
| ImportCsv.ParseNumberPlain | import_csv.py:62-63 | plain decimal text without marks is read as `float` reads it |
| ImportCsv.FirstMention | import_csv.py:78-81 | the first header mentioning a keyword after lower-casing and stripping, and none when no header does |
| ImportCsv.FirstMentionAt | import_csv.py:78-81 | a mentioning header with none before it is the one found |
| ImportCsv.FindColumn | import_csv.py:78-81 | the `enumerate`/`break` loop finds the first mention |
| ImportCsv.DetectColumns | import_csv.py:68-104 | each field gets the first header that mentions one of its keywords, looked up independently of the other fields |
| ImportCsv.SharedHeader | import_csv.py:77-88 | a "date/qty" header is found for both the date and the quantity |
| ImportCsv.MentionsIgnoresCase | import_csv.py:74 | header matching ignores letter case |
| ImportCsv.MaxColumn | import_csv.py:207 | `max(column_mapping.values())` is one of the columns and bounds them all |
| ImportCsv.CheckRowAccepts | import_csv.py:205-260 | a row is accepted exactly when it has enough cells, a readable date, and a quantity and a price above 0 |
| ImportCsv.CheckRowReasons | import_csv.py:207-234 | the first failing check names the rejection: too few columns, then the date, then the quantity |
| ImportCsv.AcceptedRecord | import_csv.py:252-258 | an accepted row stores the ISO date, the truncated quantity, the price and a positive total from the untruncated quantity |
| ImportCsv.ImportData | import_csv.py:204-279 | the accepted and failed rows are those the row check gives; accepted rows are numbered from `len(records) + 1` and appended, and the ledger is saved only when some row was imported |
| ImportCsv.MergeImported | import_csv.py:308-345 | the imported records are numbered after the existing ones and appended, so numbered records stay numbered 1..N |
| ImportExcel.ParseCellDate | import_excel.py:58-101 | every date the cell parser returns passes the "%Y-%m-%d" check |
| ImportExcel.SerialCell | import_excel.py:85-91 | the serial fallback returns only ISO dates |
| ImportExcel.CellNumber | import_excel.py:104-120 | a numeric cell gives its value; missing, timestamp and other cells give 0.0 |
| ImportExcel.TextNumberAsCsv | import_excel.py:112-118 | on text the two importers read the same number |
| ImportExcel.TextDateExtendsCsv | import_excel.py:64-91 | every text the CSV importer reads as a date is read the same way here |
| ImportExcel.SerialWithoutRange | import_excel.py:85-89 | any serial whose date exists is accepted, with no 1..50000 range check |
| ImportExcel.NumberIsNoDate | import_excel.py:58-101 | a numeric cell is never read as a date |
| ImportExcel.FirstMatchPriority | import_excel.py:35-53 | a column goes to a field exactly when it matches that field and none checked before it, and to no field when it matches none |
| ImportExcel.LastLabelled | import_excel.py:32-53 | the last column given a field, and none when no column is |
| ImportExcel.LastLabelledAt | import_excel.py:32-53 | the last column given the field is the one found |
| ImportExcel.LabelPositions | import_excel.py:32-53 | the loop maps each field to the last column classified as that field, and maps no other field |
| ImportExcel.DetectColumns | import_excel.py:15-55 | each field maps to the last column classified as it, a field with no such column is absent, and two fields never share a column |
| ImportExcel.DateNamedColumn | import_excel.py:36-37 | a column whose lower-cased name starts with "date" is a date column only |
| ImportExcel.Unmapped | import_excel.py:175-176 | the missing required fields are exactly those of date, quantity and unit price that detection did not map |
| ImportExcel.FillMissing | import_excel.py:182-192 | the prompts add exactly the missing fields with the picked columns and keep the detected ones |
| ImportExcel.ResolveColumns | import_excel.py:166-192 | the columns used are the detected ones, or the picked ones for required fields detection missed |
| ImportExcel.CheckCellsAccepts | import_excel.py:207-250 | a row is accepted exactly when its date cell is read and both numbers are above 0 |
| ImportExcel.CheckCellsReasons | import_excel.py:210-230 | a rejected row names the failed check and the values it saw |
| ImportExcel.AcceptedCells | import_excel.py:232-248 | an accepted row stores an ISO date, the truncated quantity, the price, a positive untruncated total and the stripped note |
| ImportExcel.Unnumbered | import_excel.py:240-248 | without a ledger the accepted records keep id 0, record `i` with the `i`-th clock reading taken in the row loop |
| ImportExcel.ImportFromExcel | import_excel.py:123-287 | any confirmation other than "y" cancels; otherwise the failures are those the row check gives, and the accepted rows go into the ledger exactly when there is a ledger and some row was accepted, numbered from `len(records) + 1`; otherwise the ledger is unchanged |
| Importing.ImportPartition | import_csv.py:204-267 | every data row is either imported or logged as failed |
| Importing.FailuresNameTheirRows | import_csv.py:204-267 | each failure names the spreadsheet row (data row + 2) that was rejected for that reason, in increasing row order |
| Importing.ImportedComeFromRows | import_excel.py:207-256 | every imported record comes from an accepted data row |
| Importing.ImportAppend | import_excel.py:207-256 | rows are judged independently: importing two blocks of rows imports each block |
| Importing.JudgeRows | import_csv.py:204-267 | the row loop with its `try/except` yields the specified accepted and failed rows |
| ReceiptPrinting.TextWidth | receipt_printer.py:233-241 | a text is between its length and twice its length wide |
| ReceiptPrinting.TextWidthAppend | receipt_printer.py:233-241 | widths add up over a concatenation |
| ReceiptPrinting.TextWidthExtremes | receipt_printer.py:237-240 | the width is the length exactly for ASCII text, and twice the length exactly for text of non-ASCII characters |
| ReceiptPrinting.SpacesWidth | receipt_printer.py:231 | spaces are one column each |
| Strings.Spaces | receipt_printer.py:231 | `" " * n` is `n` spaces, and no text at all for a negative `n` |
| ReceiptPrinting.GetTextWidth | receipt_printer.py:233-241 | the accumulator loop computes the display width |
| ReceiptPrinting.CenterTextProperties | receipt_printer.py:226-231 | the text is kept after `max(0, (width - text_width) // 2)` spaces; when it fits, the line stays within the width with a right margin equal to the left one or one column more; a text too wide is left alone |
| ReceiptPrinting.FormatLineWidth | receipt_printer.py:243-250 | the line starts with the left text and is exactly `width` wide when the texts leave room for a space, else one column wider than the texts |
| ReceiptPrinting.WrapLines | receipt_printer.py:252-272 | there is always at least one line |
| ReceiptPrinting.WrapLinesLast | receipt_printer.py:258-270 | the line being filled is empty only before the first character |
| ReceiptPrinting.WrapLinesConcat | receipt_printer.py:258-270 | the lines joined together give back the text |
| ReceiptPrinting.WrapLinesGreedy | receipt_printer.py:258-270 | only the first line may be empty; a line is wider than the width only when it is one character; the next line's first character would not have fitted on each line |
| ReceiptPrinting.WrapLinesFirst | receipt_printer.py:261-264 | the first line is empty only when the first character is wider than the width on its own |
| ReceiptPrinting.GreedyNarrow | receipt_printer.py:252-272 | with a width of at least 2, greedy lines whose first line is not empty are all non-empty and within the width |
| ReceiptPrinting.WrapText | receipt_printer.py:252-272 | the wrapping loop returns at least one line; the lines joined give the text; the lines are greedy; empty text gives one empty line; with a width of at least 2 every line is non-empty and within the width |
| ReceiptPrinting.Truncated | receipt_printer.py:59 | `s[:n]` is a prefix of length `min(len, n)` |
| ReceiptPrinting.TimeOfTimestamp | receipt_printer.py:69-74 | a "date time" value shows its time, and a value without a space is shown whole |
| ReceiptPrinting.TimeStopsAtSecondSpace | receipt_printer.py:71-72 | only the segment up to a second space is shown |
| ReceiptPrinting.ShortNote | receipt_printer.py:121-124 | a note of at most 10 characters is shown whole; a longer one is cut to 10 and marked with "..", 12 characters in all |
| ReceiptPrinting.ShortFooter | receipt_printer.py:131 | the footer is cut to 12 characters |
| ReceiptPrinting.GoodsOf | receipt_printer.py:81-94 | one unnumbered line from the record's own figures when it has no items, else one numbered line per item with its absolute quantity |
| ReceiptPrinting.ReturnTotals | receipt_printer.py:103-118 | the return loop lists each return with its number and absolute figures and totals their absolute quantities and amounts |
| ReceiptPrinting.ReturnLines | receipt_printer.py:108-113 | one line per linked return, numbered from 1, with the return's absolute quantity and amount |
| ReceiptPrinting.GoodsLines | receipt_printer.py:89-94 | the goods loop yields the specified lines |
| ReceiptPrinting.ReturnLabel | receipt_printer.py:62-63 | the receipt is labelled a return exactly when the record's type is "return" or its quantity is negative |
| ReceiptPrinting.NetOfReturns | receipt_printer.py:103-118 | with linked returns the net due is the absolute amount less the returned amounts, which is the signed sum of the sale and its returns when their signs agree with their kind |
| ReceiptPrinting.NoReturnsNoBlock | receipt_printer.py:103 | without linked returns there is no return block |
| ReceiptPrinting.ReceiptPrinter.constructor | receipt_printer.py:17-24 | the printer starts with width 32, the default shop name, and the default footer |
| ReceiptPrinting.ReceiptPrinter.SetShopInfo | receipt_printer.py:26-33 | each empty argument leaves its setting as it was, and each non-empty one replaces it; the other settings are unchanged |
| ReceiptPrinting.ReceiptPrinter.FormatCompactReceipt | receipt_printer.py:52-134 | the content of the compact receipt for the record and its returns with this printer's settings |
| AutoUpdate.Components | auto_updater.py:53-54 | one integer per '.'-separated component when all parse |
| AutoUpdate.IntParts | auto_updater.py:53-54 | the list comprehension succeeds exactly when every component parses, with each component's value in order |
| AutoUpdate.Padded | auto_updater.py:57-60 | the components are kept and zeros appended up to length 3 |
| AutoUpdate.PadToThree | auto_updater.py:57-60 | the padding loop yields the padded list |
| AutoUpdate.FirstThreeLater | auto_updater.py:62-67 | the loop answers whether the second list is later in the first three components |
| AutoUpdate.CompareVersions | auto_updater.py:50-69 | True exactly when both versions parse and the second's first three padded components are later |
| AutoUpdate.NotNewerThanItself | auto_updater.py:50-69 | a version is never newer than itself |
| AutoUpdate.NewerAsymmetric | auto_updater.py:50-69 | of two versions at most one is newer than the other |
| AutoUpdate.NewerTransitive | auto_updater.py:50-69 | newer than newer is newer |
| AutoUpdate.NewerTrichotomy | auto_updater.py:62-67 | two well-formed versions are equal in their first three padded components, or exactly one is newer |
| AutoUpdate.MalformedNeverNewer | auto_updater.py:68-69 | a component that is not an integer makes both comparisons False |
| AutoUpdate.NewerByFirstThree | auto_updater.py:62-67 | the answer depends only on the first three padded components |
| AutoUpdate.FourthComponentIgnored | auto_updater.py:62-67 | a component after the third never changes the answer |
| AutoUpdate.ZeroComponentOptional | auto_updater.py:57-60 | appending a zero component to a version of fewer than three components never changes the answer |
| AutoUpdate.SingleDigitVersion | auto_updater.py:53-54 | a one-digit version has that digit as its only component |
| AutoUpdate.ShortVersionPadded | auto_updater.py:57-60 | "1.2" and "1.2.0" compare alike against any version |
| AutoUpdate.CheckForUpdates | auto_updater.py:153-165 | the current version is always reported; an unreachable server gives no update and the connection message only when not silent; otherwise an update exactly when the remote version is newer |
| AutoUpdate.UpdateOnlyWhenNewer | auto_updater.py:158-165 | an update is reported exactly when the server answered with a version whose padded components are later than the local one's; the same version is never an update |
| Dates.Strptime | accounting.py:58-61 | a date is read only when it is a valid calendar date |
| Dates.DaysInMonth | accounting.py:58-61 | a month has between 28 and 31 days |
| Dates.FirstFormat | import_csv.py:35-40 | the first format that parses gives a valid date |
| Dates.FirstFormatFirstSuccess | import_csv.py:35-40 | a date is read exactly when some format parses, and it is the reading of the first such format |
| Dates.FormatIso | import_csv.py:38 | `strftime("%Y-%m-%d")` gives ten characters, digits with dashes at positions 4 and 7 |
| Dates.Padded | import_csv.py:38 | the zero-padded field is all digits and at least as wide as asked |
| Dates.PaddedValue | import_csv.py:38 | the zero-padded digits read back as the number |
| Dates.IsoRoundTrip | import_csv.py:37-38 | formatting a valid date and reading it back with "%Y-%m-%d" gives the same date |
| Dates.FormatIsoIsIsoDate | import_csv.py:38 | every normalised date passes the ledger's "%Y-%m-%d" check |
| Dates.NextDay | import_csv.py:46 | the next day is a later valid date, missing only after 9999-12-31 |
| Dates.PrevDay | import_csv.py:46 | the previous day is an earlier valid date, missing only before 0001-01-01 |
| Dates.NextPrev | import_csv.py:46 | stepping a day forward and back returns to the same date |
| Dates.AddDays | import_csv.py:46 | adding days gives a valid date, later for a positive count and earlier for a negative one |
| Dates.SerialDate | import_csv.py:46 | a spreadsheet serial gives a valid date, after 1899-12-30 for a positive serial |
| Dates.SerialOne | import_csv.py:46 | serial 1 is 1899-12-31 and serial 2 is 1900-01-01 |
| Strings.Strip | import_csv.py:21 | `strip()` never lengthens a text |
| Strings.StripSpec | import_csv.py:21 | the stripped text is a slice of the input with no whitespace at either end |
| Strings.StripNoEdgeSpace | import_csv.py:21 | text without whitespace at either end strips to itself |
| Strings.StripIdempotent | import_csv.py:21 | stripping twice is stripping once |
| Strings.Lower | import_csv.py:74 | `lower()` maps each character on its own and keeps the length |
| Strings.LowerIdempotent | import_csv.py:74 | lower-casing twice is lower-casing once |
| Strings.LowerNoUpper | import_csv.py:74 | text without capitals is its own lower-case form |
| Strings.ContainsIffOccurs | import_csv.py:79 | `kw in h` holds exactly when `kw` occurs at some position of `h` |
| Strings.Unmarked | import_csv.py:60 | the cleaned text keeps exactly the characters that are not `¥`, `元`, ',' or ' ' |
| Strings.UnmarkedIgnoresMark | import_csv.py:60 | a mark anywhere makes no difference to the cleaned text |
| Strings.UnmarkedNoMarks | import_csv.py:60 | text without marks is left as it is |
| Strings.Split | auto_updater.py:53 | `split` gives at least one part, none holding the separator |
| Strings.JoinSplit | auto_updater.py:53 | joining the parts with the separator gives back the text |
| Strings.SplitWithoutSep | auto_updater.py:53 | text without the separator is a single part |
| Strings.SplitAppend | auto_updater.py:53 | splitting `a + sep + b` splits `a` and `b` apart |
| Strings.NatToString | accounting_gui.py:1869 | `str(n)` of a natural number is all digits |
| Strings.NatToStringValue | accounting_gui.py:1869 | the digits of `str(n)` read back as `n` |
| Strings.IntRoundTrip | accounting_gui.py:1707 | an id shown as text reads back with `int()` as the same id |
| Strings.ParseInt | auto_updater.py:53 | `int()` reads nothing from blank text |
| Strings.ParseDecimal | import_csv.py:63 | `float()` reads nothing from blank text |
| Strings.Trunc | import_csv.py:254 | `int()` of a float truncates toward zero |
| Strings.AbsReal | accounting_gui.py:1213 | `abs()` is non-negative and is the value or its negation |
| Strings.LexLeTotal | accounting.py:166 | any two date strings are ordered one way or the other |
| Strings.LexLeAntisymmetric | accounting.py:166 | two strings ordered both ways are equal |
| Strings.LexLeTransitive | accounting.py:166 | string order is transitive |
| Sorting.SortBy | accounting.py:166 | sorting keeps the length |
| Sorting.SortBySorted | accounting.py:166 | the output is ordered by the key, ascending or descending |
| Sorting.SortByPermutation | accounting.py:166 | the output is a permutation of the input |
| Sorting.SortByStable | accounting.py:166 | elements with the same key keep their input order |
| Sorting.SortByStableAll | accounting.py:166 | stability holds for every key at once |
| Sorting.SortByMembers | accounting.py:166 | sorting neither adds nor loses an element |
| Util.Filter | accounting.py:89 | a filtered list is no longer than its input and holds only matching elements of it |
| Util.FilterExact | accounting.py:89 | the filter keeps exactly the matching elements, each as often as it occurs in the input, in their original order |
| Util.FilterAppend | accounting_gui.py:1201-1205 | filtering commutes with concatenation |

## Left out

- File I/O and JSON are not modelled. Loading is the constructors' argument and saving is the ghost field `persisted`.
- Not modelled:
  - the CSV and Excel file readers (`read_csv_file`, pandas `read_csv`/`read_excel`);
  - encodings;
  - the import log (`save_failed_log`);
  - the standalone `imported_data.json` written when `import_data` has no ledger.
- The Tkinter user interface is not modelled:
  - widgets, message boxes, the selection and the refresh of the displays;
  - the success dialogs;
  - the settings, printer and export windows.
- The selected record is given by its id, and the texts typed into forms and prompts are parameters.
- The clock is a parameter. For a single record, `now` is the creation timestamp and `today` the date of a partial return. An import reads the clock once per record, so the importers take a `Clock`: the sequence of readings, with the `i`-th imported record stamped with reading `i`.
- `get_current_version` and `get_remote_version` are not modelled. They read a file and the network, so they become the parameters of `CheckForUpdates`.
- Also not modelled: the update download and installation, the threads, and the operating-system printing (`print_to_windows_printer`, `print_to_pos_printer`, `get_printer_list`).
- `_format_standard_receipt` and `get_receipt_html` are not modelled. The compact receipt is the one the application formats.
- ReceiptPrinting.ReceiptPrinter.FormatCompactReceipt: gives the receipt's content line group by line group. It does not produce the joined text or the `:.0f` rendering of the figures.
- Floating point:
  - `real` stands for Python `float`, with no rounding, infinities or NaN.
  - `ParseDecimal` reads plain decimal text only: no exponents, no "inf" or "nan", no underscores.
  - `ParseInt` does not accept underscores or non-ASCII digits.
  - `IsDigits` (for `str.isdigit`) and `Lower` are ASCII-only.
- Dates.Strptime: `%Y`, `%m` and `%d` read ASCII digits only. Python's `strptime` also accepts the other Unicode decimal digits there, such as full-width "２０２６-02-06". The ledger's date check (`AccountingTool.AddRecord`, `Dates.IsIsoDate`) and both importers' date formats (`Dates.FirstFormat`) therefore reject such dates, where the source accepts them.
- ImportCsv.ImportData: does not model the column-number prompts or the confirmation prompt. The chosen columns are its argument, and a cancelled import is not represented. It always has a ledger.
- ImportExcel.ImportFromExcel: the DataFrame is given as column names and rows of typed cells. Columns are identified by position, not by name, and pandas' own duplicate-name handling is not modelled.
- AutoUpdate.CompareVersions: the `except` branch for a version that is not a string is not modelled, because versions are strings here.
- The command-line menu and `main` functions, `export_to_csv` and `install_excel.py` are not modelled. They are I/O wrappers around the modelled operations.
