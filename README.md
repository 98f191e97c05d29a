# ynai reconciliation core in Dafny

ynai copies Venmo transactions into a YNAB (You Need A Budget) account. This project models its reconciliation core.

- **Both sources into one record.** A Venmo statement (CSV rows) and the transaction records of the YNAB API are both read into one canonical `Transaction`: date, payee, memo, amount.
- **Fuzzy equality.** Transactions compare equal when their amounts are identical and their dates are less than two days apart.
- **Upload.** The upload command reads a statement and fetches the account's existing transactions. It keeps the statement lines that have no match. If any are left, it posts them, unless the run is a dry run.
- **Posted format.** Posted transactions are converted to the dictionaries the YNAB API accepts: amount in milliunits, date as `YYYY-MM-DD`, and `payee_name`.

The files follow the program's modules:

| file | module | models |
|---|---|---|
| `wrappers.dfy` | `Wrappers` | `Option`, `Result`, and the exceptions the program raises, as `Error` values |
| `numerals.dfy` | `Numerals` | Python's `int()` on decimal text and `str()` of an integer, plus zero-padded fields |
| `civil.dfy` | `Civil` | The part of Python's `datetime` the program uses: valid proleptic Gregorian date-times, `toordinal`, subtracting hours (with the `OverflowError` before 0001-01-01), and `strptime`/`strftime` for `%Y-%m-%d` and `%Y-%m-%dT%H:%M:%S` |
| `transactions.dfy` | `Transactions` | `ynai/transactions.py`: `Transaction.__eq__`, the 22-column Venmo row layout, the Venmo and YNAB field readers, `list_from` and `from_list` |
| `conversions.dfy` | `Conversions` | `ynab_conversions.py`: `to_ynab`, as a loop that edits each dictionary in place |
| `ynab_api.dfy` | `YnabClient` | `ynab_api.py`: endpoint paths and `url`, query parameters, `resolve_budget`/`resolve_account`, the `budget` property and setter, and `TransactionsEndpoint.get`/`post` |
| `ynai.dfy` | `Ynai` | `ynai/ynai.py`: deduplication, `UploadCommand.execute`, `resolve_source`, and the listing commands |

The environment is represented as follows:

- **The YNAB server.** It is given by the answers it returns: the budget list, each budget's account list (keyed by budget id), and the transaction records for each (URL, query parameters) pair. These are `const` fields of class `YnabApi`.
- **Requests.** Every request the client sends is appended to a ghost `log`. Properties such as "a dry run never posts" are stated over that log.
- **The selected budget** is the mutable field `current`.
- **The filesystem.** It is a map from path to the rows its CSV reader yields. A path that is absent does not exist.

Three points of the code that the model keeps as written:

- **Payee of a `+ ... Charge` row.** The payee is `from_` when "the total starts with `+`" XOR "the type is `Charge`" holds. So a row with a `+` total and type `Charge` takes the payee `to` (ynai/transactions.py:85). `Transactions.VenmoPayeeCases` states all four cases.
- **Refusing an empty batch.** `to_ynab([])` is `[]`, with no error; `Conversions.WireBatch` states this through `|ds| == |ts|`. The refusal of an empty batch is in `TransactionsEndpoint.post` (ynab_api.py:123-124), modelled by `YnabClient.YnabApi.PostTransactions`.
- **Wrong field count.** A row with the wrong number of fields makes the dataclass constructor raise a `TypeError`. The model's error for this is `ArgumentCount`.

## Model

| member | source | states |
|---|---|---|
| Transactions.FuzzyEqual | ynai/transactions.py:15-19 | `__eq__`: the amounts are identical and the dates are strictly less than two days (172800 s) apart. Its properties are stated by the lemmas below. |
| Transactions.FuzzyEqualReflexive | ynai/transactions.py:15-19 | Every transaction equals itself. |
| Transactions.FuzzyEqualSymmetric | ynai/transactions.py:15-19 | Equality does not depend on which side is compared first. |
| Transactions.FuzzyEqualIgnoresText | ynai/transactions.py:15-19 | Changing payee or memo never changes a comparison. |
| Transactions.FuzzyEqualNotTransitive | ynai/transactions.py:15-19 | Equal amounts dated day 0, day 1.5 and day 3 (from 2023-03-01) give a≈b and b≈c, but not a≈c. |
| Transactions.SameDayMatches | ynai/transactions.py:15-19 | Two transactions on the same calendar day with the same amount always match. |
| Transactions.DistantDaysDiffer | ynai/transactions.py:15-19 | Transactions whose calendar days are three or more days apart never match. |
| Transactions.VenmoRowOf | ynai/transactions.py:50-74 | The Venmo layout has exactly 22 columns. The repeated `amount_total` is one column. |
| Transactions.VenmoDataOf | ynai/transactions.py:22-26 | Construction succeeds iff the row has exactly 22 fields, and otherwise fails naming the count. Each field is taken from its position: id 1, datetime 2, type 3, note 5, from 6, to 7, amount_total 8. |
| Transactions.VenmoLayoutRoundTrip | ynai/transactions.py:50-74 | Writing a Venmo record as a row and reading it back gives the record. |
| Transactions.VenmoDate | ynai/transactions.py:79-82 | Text that is not a `%Y-%m-%dT%H:%M:%S` timestamp is a ValueError. Otherwise the result is a valid date-time exactly four hours earlier, or an OverflowError when that lies before 0001-01-01. |
| Transactions.VenmoDateSameDay | ynai/transactions.py:79-82 | From 04:00 on, the calendar day is kept and the hour drops by four. |
| Transactions.VenmoDateCrossesMidnight | ynai/transactions.py:79-82 | Before 04:00, the date is the previous calendar day at hour + 20. On 0001-01-01 the shift overflows. |
| Transactions.PrevDayExamples | ynai/transactions.py:79-82 | Crossing midnight gives the right day before a March 1st in a non-leap year, in a leap year, and before January 1st. |
| Transactions.VenmoPayee | ynai/transactions.py:84-88 | The sender when "total starts with `+`" XOR "type is `Charge`", otherwise the recipient; its cases are stated by `VenmoPayeeCases`. |
| Transactions.VenmoPayeeCases | ynai/transactions.py:84-88 | +Payment → from, +Charge → to, −Charge → from, −Payment → to. |
| Transactions.StripAmountPunctuation | ynai/transactions.py:95 | No `$`, space, `,` or `.` is left, and the text never grows. |
| Transactions.StripAmountPunctuationAppend | ynai/transactions.py:95 | Deleting characters works piecewise, so the remaining characters keep their order. |
| Transactions.StripAmountPunctuationKeeps | ynai/transactions.py:95 | Text with no deletable character is unchanged. |
| Transactions.VenmoAmount | ynai/transactions.py:93-95 | `int()` of the total with every `$`, space, `,` and `.` deleted, or a ValueError naming the remaining text; its values are stated by the lemmas below. |
| Transactions.StripDollarFigure | ynai/transactions.py:95 | Deleting the commas of a comma-grouped dollar figure leaves a non-empty digit string. |
| Transactions.VenmoAmountOfDisplay | ynai/transactions.py:93-95 | A total of the form `<sign> $<dollars>.<cents>`, with the dollar digits grouped by any commas, reads as ±(100·dollars + cents) where dollars is the value of the digits without their commas. A leading `-` gives the negated value, which is never positive (`- $0.00` reads as 0, as `int("-000")` does). |
| Transactions.VenmoAmountExample | ynai/transactions.py:93-95 | "+ $150.00" reads as 15000. |
| Transactions.VenmoAmountThousands | ynai/transactions.py:93-95 | "- $1,234.56" reads as -123456. |
| Transactions.ThousandsFigure | ynai/transactions.py:95 | Deleting the comma of "1,234" gives "1234", whose value is 1234. |
| Transactions.VenmoAmountBlank | ynai/transactions.py:95 | A total with nothing left after the deletions is a ValueError on the empty literal. |
| Transactions.VenmoTransaction | ynai/transactions.py:22-26 | A row with the wrong field count fails with that count. A 22-field row reads iff both its date and its amount read; it fails with the date's error first, else the amount's. A successful read has the shifted date (`VenmoDate`), the payee `VenmoPayee` picks, the note as memo and the amount `VenmoAmount` reads, and its date is valid. |
| Transactions.IsDataRow | ynai/transactions.py:102 | The filter of `list_from`: field 1 is non-empty and is not "ID". |
| Transactions.ReadKept | ynai/transactions.py:101-103 | The comprehension of `list_from` for any row reader: stop with IndexError at a row too short for `row[1]`, skip filtered rows, read kept ones in order and stop at the first error. It is characterised by the four lemmas below. |
| Transactions.ListFrom | ynai/transactions.py:97-103 | `list_from` is that comprehension with the Venmo row reader; it is characterised by `ListFromCharacterised`. |
| Transactions.ReadKeptLength | ynai/transactions.py:97-103 | A successful scan means every row had an id field, and there is one transaction per kept row. |
| Transactions.ReadKeptOk | ynai/transactions.py:101-103 | Transaction k is the reading of the k-th kept row, in file order. |
| Transactions.ReadKeptErr | ynai/transactions.py:101-103 | The scan fails iff some row raises: either it is too short to index `row[1]`, or a kept row does not read. It then fails with the first such row's error. |
| Transactions.ReadKeptAppend | ynai/transactions.py:101-103 | Scanning a concatenation concatenates the results, and the first error in file order wins. |
| Transactions.HeaderOnly | ynai/transactions.py:102 | A file with only the header row (id column "ID") gives no transactions. |
| Transactions.ListFromCharacterised | ynai/transactions.py:97-103 | `list_from` fails iff a row raises, with the first such row's error. Otherwise it holds one Venmo transaction per kept row (id neither empty nor "ID"), in file order. |
| Transactions.ListFromValid | ynai/transactions.py:97-103 | Every transaction read from a statement has a valid date. |
| Transactions.TruncDiv10 | ynai/transactions.py:145 | Division by ten rounds toward zero: the remainder has the sign of the dividend and is less than 10 in size. |
| Transactions.TruncDiv10Example | ynai/transactions.py:145 | −15 → −1, 15 → 1, −10 → −1. |
| Transactions.YnabTransaction | ynai/transactions.py:132-145 | A record reads iff its date is `%Y-%m-%d`, and otherwise fails with a ValueError. The result is at midnight, with no time-zone shift, and formats back to the record's date text. Its amount is the record's divided by ten toward zero, its payee is `payee_name`, and its memo is `memo`. |
| Transactions.YnabFromList | ynai/transactions.py:147-149 | `from_list`: each record read in order, stopping at the first failure; characterised by the three lemmas below. |
| Transactions.YnabFromListOk | ynai/transactions.py:147-149 | `from_list` succeeds iff every record reads. |
| Transactions.YnabFromListValues | ynai/transactions.py:147-149 | On success there is one transaction per record, in order. |
| Transactions.YnabFromListErr | ynai/transactions.py:147-149 | On failure, the error is that of the first record that does not read. |
| Transactions.AmountIngestEgress | ynai/transactions.py:145 | Reading a milliunit amount, then multiplying by ten on upload, restores it iff it is a multiple of ten. |
| Civil.Seconds | ynai/transactions.py:17 | A date-time as a count of seconds: its `toordinal()` day times 86400 plus the time of day; the difference of two of these is `self.date - other.date`, which `__eq__` compares. Its use is stated by `SameDayMatches`, `DistantDaysDiffer` and `MinusHours`. |
| Civil.MinusHours | ynai/transactions.py:80-82 | Subtracting hours succeeds iff the instant stays on or after 0001-01-01 00:00, and the result is then valid and exactly that many hours earlier. |
| Civil.MinusHoursAcrossMidnight | ynai/transactions.py:80-82 | The previous day at hour + 24 − h is a valid date-time exactly h hours earlier. |
| Civil.YearLength | ynai/transactions.py:80-82 | A year has 366 days iff it is a leap year. |
| Civil.PrevDayOrdinal | ynai/transactions.py:80-82 | The previous calendar day is valid and has an ordinal exactly one less. |
| Civil.OrdinalLowerBound | ynai/transactions.py:80-82 | Every valid date is on or after 0001-01-01, and only that date has ordinal 1. |
| Civil.FieldAt | ynai/transactions.py:80-81 | A `w`-digit field read by `strptime` is below 10ʷ. |
| Civil.ParseDate | ynai/transactions.py:136 | A parsed `%Y-%m-%d` date is valid and at midnight. Text parses iff it is ten characters of the form `YYYY-MM-DD` with year at least 1, month 1-12 and a day that exists in that month; a four-digit year can never exceed 9999. |
| Civil.ParseTimestamp | ynai/transactions.py:80-81 | A parsed `%Y-%m-%dT%H:%M:%S` timestamp is valid. |
| Civil.FormatDate | ynab_conversions.py:11 | `strftime("%Y-%m-%d")` gives ten characters. |
| Civil.FormatDateShape | ynab_conversions.py:11 | The formatted date has digits and dashes in the `YYYY-MM-DD` positions. |
| Civil.ParseFormatDate | ynab_conversions.py:11 | Parsing a formatted date gives the date at midnight, so the time of day is lost. |
| Civil.FormatParseDate | ynai/transactions.py:136 | Only canonical text parses: formatting a parsed date gives the text back. |
| Civil.ParseFormatTimestamp | ynai/transactions.py:80-81 | Parsing a written timestamp gives the date-time back. |
| Civil.FormatParseTimestamp | ynai/transactions.py:80-81 | Writing a parsed timestamp gives the text back. |
| Numerals.PaddedValue | ynab_conversions.py:11 | A zero-padded field reads back as its number when the number fits the width. |
| Numerals.PaddedOfDigits | ynai/transactions.py:80-81 | Padding a digit field's value to the field's width gives the field back. |
| Numerals.DigitsValueBound | ynai/transactions.py:80-81 | An n-digit field's value is below 10ⁿ; this bounds every `strptime` field (`Civil.FieldAt`). |
| Numerals.ParseInt | ynai/transactions.py:95 | Python's `int()` on base-10 text: surrounding whitespace, an optional sign, and digits with single underscores between them, or a ValueError; its values are stated by the lemmas below. |
| Numerals.UnsignedDigitsParse | ynai/transactions.py:95 | `int()` of a digit string is its value. |
| Numerals.SignedDigitsParse | ynai/transactions.py:95 | `int()` of `-` or `+` followed by digits is the negated or plain value. |
| Numerals.ParseIntToString | ynai/transactions.py:95 | `int(str(n)) == n` for every integer. |
| Numerals.ParseIntBlank | ynai/transactions.py:95 | Empty or all-blank text is not an integer literal. |
| Conversions.AsDict | ynab_conversions.py:9 | `asdict` has exactly the keys date, payee, memo and amount. |
| Conversions.WireBatch | ynab_conversions.py:6-16 | One dictionary per transaction, in input order. The empty batch gives the empty list. |
| Conversions.ToYnab | ynab_conversions.py:6-16 | The loop that edits each `asdict` in place produces exactly `WireBatch`. |
| Conversions.WireOf | ynab_conversions.py:9-13 | The dictionary one transaction becomes after the in-place edits; its keys and values are stated by `WireKeys` and `WireFields`, and `ToYnab` is proved to build it. |
| Conversions.WireKeys | ynab_conversions.py:9-12 | Each dictionary has exactly the keys account_id, date, memo, amount and payee_name, with no `payee` key. |
| Conversions.WireFields | ynab_conversions.py:9-13 | The dictionary's `account_id` is the argument, `payee_name` is the payee, the memo is unchanged and the amount is ×10. The date text parses back to the transaction's day at midnight. |
| Conversions.WireDropsTime | ynab_conversions.py:11 | Transactions differing only in time of day give identical dictionaries. |
| Conversions.EgressThenIngest | ynab_conversions.py:6-16 | Reading an uploaded dictionary back as a YNAB record gives the transaction at midnight of its day, with its amount intact. |
| YnabClient.LookupId | ynab_api.py:179-191 | The scan shared by `resolve_budget` and `resolve_account`: the id of the first entry whose name equals the argument, or none; characterised by `LookupIdFirst`. |
| YnabClient.LookupIdFirst | ynab_api.py:179-191 | The lookup finds a match iff some entry has the name exactly, and then returns the id of the earliest such entry. |
| YnabClient.FindId | ynab_api.py:180-184 | The loop with early return computes `LookupId`. |
| YnabClient.Url | ynab_api.py:24-30 | `url` raises iff the endpoint is empty or does not begin with `/`. Otherwise the result is the base URL followed by the endpoint. |
| YnabClient.AccountsPath | ynab_api.py:76-78 | `AccountsEndpoint.endpoint`: `/budgets/<selected budget id>/accounts`; `EndpointUrlsSucceed` states it begins with `/`. |
| YnabClient.EndpointUrlsSucceed | ynab_api.py:68-91 | The budgets, accounts and transactions endpoints all begin with `/`, so their URLs build. |
| YnabClient.TransactionsPath | ynab_api.py:84-91 | `TransactionsEndpoint.endpoint`: the account-scoped path when the account id is truthy, the budget-wide path otherwise; stated by `TransactionsPathScope`. |
| YnabClient.TransactionsPathScope | ynab_api.py:85-91 | A non-empty account id gives an account-scoped path that contains the id and differs from the budget-wide path. An empty id gives the budget-wide path. |
| YnabClient.QueryParams | ynab_api.py:105-114 | Each of since_date, type and last_knowledge_of_server is present iff its argument is truthy, and then holds that argument. |
| YnabClient.QueryParamsNone | ynab_api.py:105-114 | With no optional argument there are no parameters. |
| YnabClient.YnabApi.constructor | ynab_api.py:162-163 | The default budget is the first one listed, read with one GET of `/budgets`. |
| YnabClient.YnabApi.Connect | ynab_api.py:140-163 | Opening a client fails with an IndexError iff the server lists no budgets. Otherwise the client selects the first budget. |
| YnabClient.YnabApi.ResolveBudget | ynab_api.py:179-184 | It sends one GET of `/budgets` and returns `BudgetLookup`. |
| YnabClient.YnabApi.ResolveAccount | ynab_api.py:186-191 | It sends one GET of the selected budget's accounts and returns `AccountLookup`. |
| YnabClient.YnabApi.Budget | ynab_api.py:165-167 | The `budget` getter: the selected budget's name; `SetBudget` states what it returns after each kind of assignment. |
| YnabClient.YnabApi.BudgetLookup | ynab_api.py:179-184 | The outcome of `resolve_budget`: the first match's id or `UnknownBudget(name)`; stated by `BudgetLookupFirstMatch`. |
| YnabClient.YnabApi.AccountLookup | ynab_api.py:186-191 | The outcome of `resolve_account` for the selected budget: a failed accounts GET, the first match's id, or `UnknownAccount(name)`; stated by `AccountLookupFirstMatch`. |
| YnabClient.YnabApi.SetBudget | ynab_api.py:165-174 | A pair is stored unchanged. A name is stored with its resolved id, and a failed resolution leaves the selection as it was. Afterwards the getter returns the name. |
| YnabClient.YnabApi.GetOutcome | ynab_api.py:93-120 | The result of `get`: a truthy account name is resolved first and its failure is the result; then the server's answer for the scoped or budget-wide path, read by `from_list`. Stated by `GetWithoutAccount` and `GetUnknownAccount`. |
| YnabClient.YnabApi.GetTransactions | ynab_api.py:93-120 | The account is resolved only when its name is truthy. The result is the server's answer for that path and parameters, and the log gains exactly those requests. |
| YnabClient.YnabApi.PostOutcome | ynab_api.py:122-134 | The result of `post`: an empty batch is refused, otherwise the account lookup's failure or success. Stated by `PostEmptyBatch` and `PostSendsBatch`. |
| YnabClient.YnabApi.PostTransactions | ynab_api.py:122-134 | An empty batch is refused before anything is sent. Otherwise the account is resolved, and the converted batch is posted to the budget-wide path. |
| YnabClient.AccountLookupFirstMatch | ynab_api.py:186-191 | `resolve_account` fails naming the account iff no entry has the name. Otherwise it returns the earliest match's id. |
| YnabClient.BudgetLookupFirstMatch | ynab_api.py:179-184 | `resolve_budget` behaves the same way over the budgets. |
| YnabClient.GetWithoutAccount | ynab_api.py:100-103 | Without a truthy account name, exactly one GET goes to the budget-wide path. |
| YnabClient.GetUnknownAccount | ynab_api.py:100-101 | A failed account lookup stops `get` before the transactions query. |
| YnabClient.PostEmptyBatch | ynab_api.py:123-124 | The empty batch fails with no request sent. |
| YnabClient.PostSendsBatch | ynab_api.py:122-134 | A post succeeds iff the batch is non-empty and the account resolves. Its last request then carries every transaction converted with the resolved id, in order. |
| Ynai.Matches | ynai/ynai.py:112 | `t in existing`: some existing transaction compares equal to `t` under `__eq__`. |
| Ynai.NewTransactions | ynai/ynai.py:111-113 | A transaction is kept iff it is a candidate with no fuzzy match among the existing ones. |
| Ynai.NewTransactionsAppend | ynai/ynai.py:111-113 | Filtering works line by line, so kept transactions stay in statement order. |
| Ynai.NewTransactionsCount | ynai/ynai.py:111-113 | An unmatched candidate is kept as often as it occurs (no deduplication within the statement), and a matched one is dropped. |
| Ynai.NewTransactionsNoExisting | ynai/ynai.py:111-113 | Against an empty account, every candidate is kept unchanged and in order. |
| Ynai.NewTransactionsAllMatched | ynai/ynai.py:111-113 | When every candidate has a match, nothing is new. |
| Ynai.NewTransactionsTwice | ynai/ynai.py:111-113 | Deduplicating against two lists at once is the same as deduplicating against each in turn. |
| Ynai.DeduplicationScenario | ynai/ynai.py:111-113 | Two statement lines three days apart are both dropped by one YNAB entry between them. A repeated line with no match is kept twice. |
| Ynai.UploadedAreNew | ynai/ynai.py:111-113 | No uploaded transaction equals one already in the account, in either order. |
| Ynai.ListLines | ynai/ynai.py:76-80 | One line per entry. |
| Ynai.ListLinesAt | ynai/ynai.py:76-80 | Line i is entry i's name, or when verbose its id, a space and the name. |
| Ynai.BudgetsCommand | ynai/ynai.py:82-83 | `list budgets` sends one GET and lists the budgets. |
| Ynai.AccountsCommand | ynai/ynai.py:85-86 | `list accounts` sends one GET and lists the selected budget's accounts. It fails if the server has no answer. |
| Ynai.ResolveSource | ynai/ynai.py:11-22 | An existing file is read as a Venmo statement without contacting YNAB, and its errors propagate. Otherwise the source is passed to `get` as an account name; the empty source is falsy, so `get` skips resolution and fetches the whole budget (ynab_api.py:100-103), which the contract states through `GetOutcome`. Any failure there becomes "Could not detect source". |
| Ynai.Statement | ynai/ynai.py:104-107 | A missing file is reported by name; a present file reads as `ListFrom` of its rows. A statement that reads has valid dates. |
| Ynai.Unseen | ynai/ynai.py:104-113 | The new transactions have valid dates, so they can be converted. |
| Ynai.DeliverResult | ynai/ynai.py:115-123 | The tail of `execute`: nothing to upload, a dry-run report, or the post's failure or the report after it. Stated by `UploadNothingNew` and `UploadReportsNewTransactions`. |
| Ynai.UploadResult | ynai/ynai.py:103-123 | The result of `execute`: the statement's error, the fetch's error, or `DeliverResult` of the new transactions. Stated by `UploadMissingFile`, `UploadReportsNewTransactions`, `UploadNothingNew` and `UploadPostsOnce`. |
| Ynai.Upload | ynai/ynai.py:103-123 | `execute` returns `UploadResult`, and its requests are exactly `UploadRequests`. |
| Ynai.Deliver | ynai/ynai.py:115-123 | Nothing to do when nothing is new. A dry run reports without posting. Otherwise it posts, then reports. |
| Ynai.PostCountAppend | ynai/ynai.py:103-123 | Posts in a concatenation of request logs add up. |
| Ynai.GetPostsNothing | ynab_api.py:93-120 | Fetching transactions never posts. |
| Ynai.UploadMissingFile | ynai/ynai.py:104-107 | A missing statement fails naming the file, and nothing is fetched or posted. |
| Ynai.UploadReportsNewTransactions | ynai/ynai.py:109-123 | What is reported is exactly the new part of the statement, in statement order, and is not empty. The same list is reported whether or not the run is dry. |
| Ynai.UploadNothingNew | ynai/ynai.py:115-117 | With nothing new, upload reports that and posts nothing. |
| Ynai.UploadDryRunPostsNothing | ynai/ynai.py:119-120 | A dry run never posts. |
| Ynai.DeliverPostsOnce | ynai/ynai.py:119-120 | A non-empty batch for a resolvable account is posted exactly once, as the last request. |
| Ynai.UploadPostsOnce | ynai/ynai.py:119-123 | A successful upload that is not a dry run posts exactly once. The posted batch is the reported list, converted for the account. |

## Left out

- HTTP, the `requests` session, `raise_for_status` and JSON: these are I/O. The server is represented by fixed answers. A GET the server has no answer for fails like `raise_for_status`. A POST is always accepted, and its response is not modelled.
- The token check (ynab_api.py:158-160): it is a network call.
- The `setattr` endpoint registration (ynab_api.py:154-156): it is reflection. The endpoints are plain functions here.
- `UserEndpoint` (ynab_api.py:60-65): it is used only by the token check.
- The second `.format(**url_params)` in `Endpoint.url` (ynab_api.py:25): a budget or account id containing `{` or `}` would be re-formatted. Ids are treated as plain text.
- argparse, the `Command` classes, logging, printing and the token file read in `main` (ynai/ynai.py:25-68, 126-157): these are CLI glue and I/O. The printed lines of `ListCommand.execute` and `UploadCommand.execute` are returned as values instead.
- `transactions_cmd` (ynai/ynai.py:88-89) is exactly `resolve_source`, modelled as `Ynai.ResolveSource`.
- Opening the file and the `csv` tokeniser in `list_from` (ynai/transactions.py:99-100): a file is the sequence of its rows. `open()` errors other than a missing file are not modelled.
- The reflective construction through `dataclasses.fields`/`getattr` (ynai/transactions.py:22-26): it is an explicit field-by-field read, in field order.
- The positional unpacking of `raw.values()` for YNAB records (ynai/transactions.py:133): this is written as a record keyed by field name, `YnabRecord`. The check that the record has the expected number of fields is not modelled.
- The `__main__` demo (ynai/transactions.py:152-154): it passes a whole string where a row is expected.
- `ynab_defs` is not part of this model. Its `Transaction` and `YnabTransaction` are taken to be the ones in `ynai/transactions.py`.
- Civil.ParseDate and Civil.ParseTimestamp accept only zero-padded, fixed-width, ASCII text with an upper-case `T`. `strptime` also accepts single-digit fields such as `2023-3-1`, a space-padded day such as `2023-03- 3`, a lower-case `t` (its pattern is matched ignoring case) and non-ASCII decimal digits; these reject all four. The same holds for the dates `Transactions.VenmoDate` and `Transactions.YnabTransaction` read.
- Civil.FormatDate always writes four year digits. The C library's `%Y` may write fewer for years before 1000.
- Numerals.ParseInt accepts only ASCII digits and ASCII whitespace. Python's `int()` also accepts other Unicode digits and spaces.
- Transactions.TruncDiv10: `int(a / 10)` divides in floating point. The model uses exact integer division truncated toward zero, which agrees for every amount below 2⁵³.
- Conversions.ToYnab requires valid dates. This holds for Python `datetime` values and is guaranteed here by `Transactions.ListFromValid` and `Ynai.Statement`.
- YnabClient.YnabApi.constructor requires a non-empty budget list. The `IndexError` for an empty list (ynab_api.py:162) is modelled by `YnabClient.YnabApi.Connect`.
