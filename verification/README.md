# Convertible-bond screener: a Dafny model

The system scrapes a page that lists convertible bonds. Each table row
becomes one bond record of 33 fields. A row is read in two stages. The first
stage reads the row's attributes and cells: trimmed texts, percentages
without their last character, a tooltip label match, and a scan for the blue
"may revise downwards" marker. The second stage converts the numbers and
builds the record. The records are then written to a day's workbook as the
full table plus three screened sheets. A run may also upsert them into a
database table through a generated `INSERT … ON DUPLICATE KEY UPDATE`
statement.

The model is split into these modules:

- `Wrappers` holds `Option` and `Result`.
- `Text` covers Python's `strip`, the slices, `replace` of one character and `in`.
- `Label` covers the tooltip regular expression.
- `Seqs` covers the first-match scan, the order-preserving filter and the stop-at-first-failure loop.
- `Dom` models the parsed row.
- `Dates` formats `%y-%m-%d`.
- `Extract` reads one row.
- `Screen` holds the three screens.
- `Sql` models `generate_insert_sql`.
- `Store` covers the binding of a record to the statement's columns.
- `Run` models the loop of `main` and what follows it.

Every operation is a function or method with a contract. The lemmas relate
operations to their partners:

- Split is the inverse of Join.
- Parsing reads back a formatted date.
- Two filters compose into one.
- A record ties back to the cells of its row.

Three behaviours of the code that a reader might not expect:

- A row that cannot be read stops the whole run. The loop re-raises at
  main.py:277-279; no row is skipped.
- `filter_profit_due` drops a record when either disclaimer phrase appears
  anywhere in the remark.
- The sentinel `<-100` is matched anywhere in the yield text.

## Model

| member | source | states |
|---|---|---|
| Text.Strip | main.py:165-166 | `str.strip()`: the result is a slice of the input with only whitespace cut from each end, and neither end of the result is whitespace |
| Text.StripIdempotent | main.py:174 | stripping a stripped text changes nothing |
| Text.RemoveChar | main.py:260 | `replace(",", "")` removes every comma, keeps the count of every other character, and leaves a comma-free text unchanged |
| Text.RemoveCharConcat | main.py:268-269 | removing a character distributes over concatenation |
| Text.TakeDropSplit | main.py:160-161 | `s[:2] + s[2:]` gives back `s`, so market and stock code lose nothing |
| Text.Contains | main.py:265 | `sub in s` holds exactly when `sub` occurs at some index |
| Label.AfterLabel | main.py:214-215 | the regex finds nothing exactly when no occurrence of the label is followed by a character other than a line break; otherwise the value is the rest of the line after the leftmost occurrence of the label that is followed by a character other than a line break |
| Label.AfterLabelValue | main.py:214-215 | a tooltip of prefix, label and a one-line value yields exactly that value, when the prefix holds no earlier occurrence of the label |
| Seqs.FirstWhere | main.py:171-175 | the scan stops at the first element that passes, and finds none exactly when no element passes |
| Seqs.Keep | main.py:315-320 | a boolean-mask selection keeps, in order, exactly the rows that pass, and as many as pass |
| Seqs.KeepKeep | main.py:297-310 | a post-filter applied to a mask's output equals one filter by the conjunction |
| Seqs.CollectAll | main.py:153-279 | the loop yields every result in order, or stops at the first failure with every earlier step a success |
| Dates.FormatYYMMDD | main.py:254 | `dt.strftime('%y-%m-%d')`: eight characters with dashes at positions 2 and 5 |
| Dates.FormatRoundTrip | main.py:254 | the `%y-%m-%d` text of the run date reads back as its two-digit year, month and day |
| Dates.FormatInjective | main.py:254 | within one century, different dates give different texts |
| Text.DropLast | main.py:165-166 | `s[0:-1]`: an empty text stays empty; otherwise the result followed by the text's last character gives back the text |
| Text.Take | main.py:161 | `s[0:2]`: the first `min(2, len(s))` characters of `s` |
| Text.Drop | main.py:160 | `s[2:]`: the characters of `s` from index 2 on, none when `s` is shorter |
| Dom.Get | main.py:157-164 | `row.get(name)`: present exactly when the attribute is, carrying its value |
| Dom.CellsOf | main.py:165-166 | `find_all('td', {'class': cls})`: the row's cells of that class, none when the class does not occur |
| Extract.TextAt | main.py:182-183 | `find_all(...)[i].get_text().strip()`: succeeds exactly when the cell exists, giving its trimmed text |
| Extract.ParseAttr | main.py:240 | `float(row.get(name))`: succeeds exactly when the attribute is present and parses, giving the parsed number |
| Extract.CellAt | main.py:165-166 | `find_all(...)[i]` succeeds exactly when the row has more than `i` such cells |
| Extract.StringAt | main.py:178-179 | `.string.strip()` fails exactly when the cell is missing or has no single string |
| Extract.TitleAt | main.py:190-191 | `['title'].strip()` fails exactly when the cell is missing or has no title |
| Extract.RepairScan | main.py:169-175 | no marker span gives flag off with an empty remark, and only then; on success the flag is on exactly when some span is a marker; with the flag on, the remark is the trimmed title of the first marker; a first marker without a title is an error |
| Extract.ReadIdentity | main.py:157-164 | succeeds exactly when the combined stock code exists; market and code concatenate back to it, and the market is at most two characters; the id, codes, names, price and rating are the row's attributes, absent where the row lacks them |
| Extract.ReadQuotes | main.py:165-186 | on success the percentages are the trimmed cell texts minus their last character, and the marker outcome is the scan of the name cell's spans |
| Extract.ReadQuotesTotal | main.py:165-186 | a row with the needed cells, strings and marker title is read |
| Extract.ReadTerms | main.py:188-202 | the after-tax residual drops the first two characters of the tooltip, and the issue date is read only when `data-unlist` is `N` |
| Extract.ReadTermsTotal | main.py:188-202 | a row with the needed cells is read |
| Extract.ReadValuation | main.py:204-226 | the ratio to book value is the label match in the tooltip, the yields drop their last character, and the remaining amount is the row's `data-remain_amount` attribute |
| Extract.ReadValuationTotal | main.py:204-226 | a row with the needed cells and a matching tooltip is read |
| Extract.ReadRow | main.py:157-226 | stage one succeeds exactly when the row is readable, with each part equal to its reader's result |
| Extract.RateExpire | main.py:265 | the sentinel anywhere gives -100; otherwise the parsed number, failing exactly when parsing fails |
| Extract.IssueDate | main.py:254 | an unlisted bond has no issue date; "今日上市" becomes the run date; any other text is kept |
| Extract.BoolText | main.py:271 | `str(bool)` is "True" exactly for true, and "False" otherwise |
| Extract.BuildRecord | main.py:231-273 | stage two succeeds exactly when every conversion succeeds; unconverted texts are copied; each of the 17 numbers is what the parser gives for its text, after the commas are removed where the source removes them |
| Extract.ExtractRow | main.py:157-273 | a record exists exactly when the row is readable and convertible; it carries the given id and the split stock code |
| Extract.ExtractRateExpire | main.py:219-220 | the record's yield to maturity is -100 when the trimmed, shortened cell text holds the sentinel, and the parsed text otherwise |
| Extract.ExtractIdentity | main.py:157-164 | the record's id, code, name, stock name and rating are the row's attributes |
| Extract.ExtractPercents | main.py:165-251 | the three percentages are the parsed cell texts minus their last character, and the after-tax residual is the parsed tooltip minus its first two characters |
| Extract.ExtractIssueDate | main.py:192-196 | in terms of the row: no date unless listed; the run date for "lists today"; else the trimmed cell text |
| Extract.ExtractRepairFlag | main.py:167-175 | the flag is "True" exactly when some span has the marker style; its remark is the first marker's trimmed title, and empty when the flag is off |
| Extract.ExtractCbToPb | main.py:211-215 | a tooltip in which no occurrence of the label is followed by a character other than a line break yields no record; otherwise the ratio is the parsed rest of the line after the leftmost occurrence of the label that is followed by a character other than a line break |
| Screen.FilterProfitDue | main.py:296-311 | the sheet is the subsequence of exactly the records passing all six tests and carrying neither disclaimer |
| Screen.FilterReturnLucky | main.py:314-321 | the sheet is the subsequence of exactly the records passing the five tests |
| Screen.FilterDoubleLow | main.py:324-331 | the sheet is the subsequence of exactly the records passing the five tests |
| Screen.DisclaimerExcludes | main.py:306-309 | a record whose remark declines the revision is never on the profit-due sheet |
| Screen.ProfitDueOrderIrrelevant | main.py:297-310 | masking then post-filtering equals post-filtering then masking, and equals one filter by both |
| Sql.SplitJoin | main.py:117 | splitting a non-empty comma-joined list of comma-free names gives the list back |
| Sql.AssignmentsMembers | main.py:120-123 | a key is assigned exactly when it is a key and not ignored |
| Sql.TerminatedIsJoinPlusSep | main.py:119-129 | building with a trailing comma and cutting the last character gives the comma-joined list |
| Sql.GenerateInsertSql | main.py:116-131 | the loop-built statement has the joined keys, one placeholder per key, and the joined assignments without a trailing comma |
| Sql.ColumnsReadBack | main.py:117 | the column list reads back as the keys |
| Sql.PlaceholdersReadBack | main.py:118 | the values list is one `%s` per key, `3n - 1` characters long |
| Sql.UpdateClauseReadBack | main.py:119-129 | the update clause splits into its assignments; a key is assigned exactly when not ignored; the clause is empty exactly when every key is ignored |
| Store.Item | main.py:231-273 | the `item` dictionary: 33 pairs, or 32 without the id, holding the item's keys in insertion order, each paired with its own field's value |
| Store.SameColumnsOtherOrder | main.py:28-69 | the column list of `rename_map` is the item's key order with code and name exchanged twice |
| Store.SameColumns | main.py:28-69 | both orders name the same columns |
| Store.NameCommaFree | main.py:28-69 | no column name holds a comma |
| Store.StoredRowAsWritten | main.py:108-113 | as written, the columns come in `rename_map` order |
| Store.AsWrittenSwapsCodesAndNames | main.py:108-113 | as written, the bond code goes to `cb_name` and the name to `cb_code`, and the same for the stock; the stored row is wrong whenever code and name differ |
| Store.AsWrittenCounterexample | main.py:108-113 | a concrete bond whose `cb_name` column receives "113001" |
| Store.StoredRow | main.py:108-113 | corrected: every value is bound to the column of its own key |
| Store.CorrectionKeepsValues | main.py:108-113 | corrected: the correction changes only the column list, not the values handed to the database nor their order |
| Store.StoreStatement | main.py:108-113 | corrected: the statement's columns read back as the item's keys, and the update assigns every column except `id` and `cb_code` |
| Store.UpdatedColumns | main.py:110 | the ignore list exempts exactly `id` and `cb_code` |
| Run.IdFor | main.py:274-275 | the id is kept unless the run writes the workbook without storing |
| Run.ExtractAll | main.py:153-279 | records for all rows in row order, each the extraction of its row with its drawn id, or the first row that fails with every earlier row extracting |
| Run.RecordIds | main.py:231-276 | increasing drawn ids give increasing record ids when kept, and no ids when deleted |
| Run.StoredRows | main.py:289-291 | corrected: every stored row binds each value to its own column, as the corrected store does |
| Run.Publish | main.py:281-291 | corrected store: the full table is written first; over no records the run then stops; otherwise the three screened sheets follow as subsequences; rows are stored only when the run stores and nothing failed, one per record, each holding the record's item keys bound to the record's own values |
| Run.ScreenedSheets | main.py:284-288 | each screened sheet is exactly the full table filtered by its rule |
| Run.RunOnce | main.py:136-291 | the run completes exactly when every row extracts and the table is not empty for a workbook run; a failed row leaves no sheets and no stored rows; otherwise the sheets and stored rows are the publication of exactly the records extracted from the rows, in row order |

## Left out

- Fetching and caching the page (`get_bs_source`) is out of scope: it is network and file I/O. The model starts from the parsed rows, with each cell's text, `.string` availability, attributes and spans.
- Parsing HTML is out of scope. `Dom.Row` is the result of BeautifulSoup's parse. `row.find` is modelled as the first `find_all` match.
- `float()` and `int()` are supplied as the `Parsers` parameter, because the model does not define Python's number grammar. NaN, infinities and float rounding are not modelled.
- The clock (`datetime.now()`) is the `runDate` parameter.
- The id generator (`IdWorker`) is the `ids` parameter, one id per row in order.
- Writing the workbook (`output_excel`, `update_xlsx_file`) is modelled only as the named sheets and their records. Header renaming, file paths and cell formatting are left out.
- The database connection, `executemany` and `commit` are modelled only as the rows the statement would bind.
- Printing and the console messages are left out.
- Python exceptions all become `ExtractError` values. The source raises a bare `Exception` after printing the row, so the model's error kinds are only finer detail.
- Run.StoredRows and Run.Publish store the corrected binding (`Store.StoredRow`), not the swapped one main.py:289-291 writes, because the swap is a defect of the source (see Findings). The source's binding is `Store.StoredRowAsWritten`, and `Store.CorrectionKeepsValues` shows that the two differ only in the column list.
- Regex semantics: the label is matched literally, and `(.+)` is taken as one or more characters other than a line break, greedy.
- The pandas data frame is modelled as the sequence of records in row order. Its column dtypes and index are not modelled.

## Findings

| source | as written | input that shows it | evidently intended | confidence | as-written member | corrected member |
|---|---|---|---|---|---|---|
| main.py:108-113 | the statement lists its columns in `rename_map` order (`cb_name` before `cb_code`, `stock_name` before `stock_code`, main.py:28-69), but the values come from the data frame in item order (`cb_code` before `cb_name`, `stock_code` before `stock_name`, main.py:231-237) | any bond whose code and name differ, e.g. code "113001" and name "中行转债": `cb_name` receives "113001" | each value stored in the column of its own key, as the comment at main.py:27 asks | medium, not executed | Store.AsWrittenSwapsCodesAndNames | Store.StoredRow |
