# Broker position normaliser, modelled in Dafny

The normaliser reads two brokers' open-position exports, each with its own
column names. It turns each one into a fragment of one canonical position
table, then appends Broker B's fragment to Broker A's. This project models
that engine (`src/normalize_trades.py`) in three layers:

- **Scalar normalisers.**
  - `norm_one` / `normalize_delivery_month` turn a raw delivery-month token
    into `"YYYY-MM"` or null. They first strip, nullify the tokens `""`,
    `"nan"` and `"NaT"`, and rewrite separators. Then they try `YYYY-MM`,
    `YYYYMM`, `YYMM` (century pivot at 80) and `MM-YYYY`, in that order.
    Last comes a general date parser.
  - `map_side` and `map_put_call` strip and upper-case each value and fold a
    few synonyms onto one canonical word.
- **Source adapters.** `normalize_broker_a` and `normalize_broker_b` choose
  a source column for every canonical field. The first candidate column
  the export has wins. Each adapter also has its own account-id rule, and
  Broker B infers the instrument type per row.
- **Union.** The two fragments are concatenated in order.

Modules, one file each:

- `Wrappers`: `Option`.
- `Text`: `str.strip`, `str.upper`, `int()` of digits, and the `f"{n:0Wd}"`
  format, over ASCII.
- `RawTable`: cells, tables, `col` and the fallback chains.
- `DeliveryMonth`: the delivery-month normaliser.
- `Categorical`: the side and put/call mappers.
- `Canonical`: the canonical row, the date parsers handed in, and the
  account id.
- `BrokerA`, `BrokerB`: the two adapters.
- `Pipeline`: the concatenation.

A raw cell is `Option<string>`, where `None` is pandas' NaN. A table is a
row count plus a map from column name to a column of cells, and every
column has one cell per row. The source builds each output column with
column-wide operations. Here each column operation is a function over
whole columns, and `Row` reads row *i* of each column. Broker B's
`is_option |=` accumulation is a method, proved against a per-row
definition.

Three behaviours of the code are easy to miss:

- A null Client Code cell in a present column gives `"A:nan"`, not
  `"A:UNKNOWN"`, because `astype(str)` reads NaN as `"nan"`. A null side or
  put/call cell likewise becomes `"NAN"`.
- Broker A's `fx_spot_rate` is assigned `None` when the column is absent,
  so the column exists and is null on every row. It is not absent.
- The month of the four fixed shapes is not range-checked, so
  `"2023-13"` stays `"2023-13"`. Only the general parser's months lie in
  1..12.

## Model

| member | source | states |
|---|---|---|
| `Text.Trim` | src/normalize_trades.py:13 | `str.strip()` leaves no whitespace at either end and never lengthens the text |
| `Text.TrimCutsOnlySpace` | src/normalize_trades.py:13 | the stripped text is a contiguous piece of the input, and everything cut off on either side is whitespace |
| `Text.TrimOfTrimmed` | src/normalize_trades.py:13 | stripping a text that has no whitespace at either end returns it unchanged |
| `Text.UpperChar` | src/normalize_trades.py:51 | an upper-cased character is never a lower-case letter; 'a'..'z' move down by 32 and every other character is kept |
| `Text.Upper` | src/normalize_trades.py:51 | `str.upper()` keeps the length and upper-cases each character on its own, position by position |
| `Text.UpperOfTrimmed` | src/normalize_trades.py:51 | upper-casing a stripped text keeps it stripped, and upper-casing twice is upper-casing once |
| `Text.DigitsValue` | src/normalize_trades.py:22 | `int()` of k ASCII digits is below 10^k |
| `Text.ZeroPadded` | src/normalize_trades.py:22 | `f"{n:0Wd}"` is all digits and at least W characters long |
| `Text.FixedWidthOfDigits` | src/normalize_trades.py:22 | reading a digit run and writing the number back at the run's width gives the run back |
| `Text.DigitsOfFixedWidth` | src/normalize_trades.py:22 | writing n at a width that holds it and reading it back gives n |
| `Text.FixedWidthOfDecimal` | src/normalize_trades.py:30 | at a width that holds n, the fixed-width digits are `str(n)` behind leading zeros |
| `Text.ZeroPaddedFits` | src/normalize_trades.py:30 | when n fits in W digits, `f"{n:0Wd}"` is exactly W digits |
| `Text.PaddedDigits` | src/normalize_trades.py:22-25 | `f"{int(s):0{len(s)}d}"` is s for every non-empty digit run s |
| `Text.FixedWidthSplit` | src/normalize_trades.py:29-30 | the digits of hi·10^k + lo are the digits of hi followed by the k digits of lo |
| `RawTable.AsText` | src/normalize_trades.py:13 | `astype(str)`: a cell with a value reads as that text, a NaN cell as "nan" |
| `RawTable.HasNonNull` | src/normalize_trades.py:116 | `notna().any()` is false exactly when every cell of the column is null |
| `RawTable.Col` | src/normalize_trades.py:65-66 | `col(name)` is the column exactly when the table has it, otherwise nothing |
| `RawTable.FirstPresent` | src/normalize_trades.py:79-84 | picks a candidate the table has, and no earlier candidate is present; none only when no candidate is present |
| `RawTable.Resolve` | src/normalize_trades.py:79-84 | a fallback chain yields nothing exactly when no candidate column is present, and otherwise a column of the table's length |
| `RawTable.ResolvePicksFirst` | src/normalize_trades.py:79-84 | the chain yields the column of the first candidate the table has |
| `RawTable.ResolveAt` | src/normalize_trades.py:79-84 | resolving a chain and reading row i equals the nested `a if a in df.columns else ...` conditional at row i |
| `RawTable.ResolveTwo` | src/normalize_trades.py:88 | a two-column chain reads the first column when present, else the second |
| `RawTable.ResolveThree` | src/normalize_trades.py:79-84 | a three-column chain reads the first present of its three columns |
| `DeliveryMonth.DashChar` | src/normalize_trades.py:15 | a separator becomes '-', any other character is kept, and the result is never a separator |
| `DeliveryMonth.Dashify` | src/normalize_trades.py:15 | the separator rewrite keeps the length and rewrites each character on its own: '/', '.' and whitespace become '-', all else stays |
| `DeliveryMonth.IsSeparator` | src/normalize_trades.py:15 | the class `[\/\.\s]`: '/', '.' or an ASCII whitespace character |
| `DeliveryMonth.DashifyClears` | src/normalize_trades.py:15 | after the rewrite no '/', '.' or whitespace is left; a text without them is unchanged; rewriting twice is rewriting once |
| `DeliveryMonth.DashifyAround` | src/normalize_trades.py:15 | digits around one separator keep their places, and the separator becomes '-' |
| `DeliveryMonth.PrepareAround` | src/normalize_trades.py:13-15 | two digit runs around one separator ('-', '/', '.' or whitespace) prepare to the same runs around '-' |
| `DeliveryMonth.Prepare` | src/normalize_trades.py:13-15 | a cell is nullified exactly when its stripped text (NaN reads "nan") is "", "nan" or "NaT"; otherwise the token is the stripped text with its separators rewritten to '-', non-empty and of the stripped length |
| `DeliveryMonth.YearDashMonth` | src/normalize_trades.py:21 | `re.fullmatch(r"\d{4}-\d{2}", x)`: seven characters, four ASCII digits, '-', two ASCII digits |
| `DeliveryMonth.SixDigits` | src/normalize_trades.py:24 | `re.fullmatch(r"\d{6}", x)`: exactly six ASCII digits |
| `DeliveryMonth.FourDigits` | src/normalize_trades.py:27 | `re.fullmatch(r"\d{4}", x)`: exactly four ASCII digits |
| `DeliveryMonth.MonthDashYear` | src/normalize_trades.py:32 | `re.fullmatch(r"(\d{2})-(\d{4})", x)`: two ASCII digits, '-', four ASCII digits |
| `DeliveryMonth.MatchesNoShape` | src/normalize_trades.py:21-33 | none of the four `re.fullmatch` tests succeeds, so `norm_one` reaches the general parser |
| `DeliveryMonth.Century` | src/normalize_trades.py:29 | a two-digit year below 80 is 2000+yy, any other is 1900+yy |
| `DeliveryMonth.MonthKey` | src/normalize_trades.py:22-38 | each `f"{y:04d}-{m:02d}"` key, for a year below 10000 and a month below 100, is the four year digits with leading zeros, '-', and the two month digits |
| `DeliveryMonth.NormOne` | src/normalize_trades.py:17-40 | `norm_one` gives null exactly for a null or empty token, or for one that matches none of the four shapes and that the general parser rejects |
| `DeliveryMonth.MonthOf` | src/normalize_trades.py:13-40 | one raw cell's month is null whenever its prepared token is null, and any month it does give is four digits, '-', two digits; exactly when it is null, and the parser branch's value, are stated by `RawNullExactly` and `RawParsedFallback` |
| `DeliveryMonth.NormalizeDeliveryMonth` | src/normalize_trades.py:9-42 | one result per row, in row order, each computed from its own row alone |
| `DeliveryMonth.MonthKeyShape` | src/normalize_trades.py:22 | `f"{y:04d}-{m:02d}"` with y < 10000 and m < 100 is four digits, '-', two digits |
| `DeliveryMonth.NormOneShape` | src/normalize_trades.py:21-38 | every month key `norm_one` returns is four digits, '-', two digits |
| `DeliveryMonth.DeliveryMonthShape` | src/normalize_trades.py:9-42 | every non-null value of a normalised delivery-month column is four digits, '-', two digits |
| `DeliveryMonth.PrepareFramed` | src/normalize_trades.py:13-14 | a token with a digit at both ends is not stripped and not a null token |
| `DeliveryMonth.MonthKeyOfDigits` | src/normalize_trades.py:22 | formatting the numbers read from a 4-digit and a 2-digit run gives the runs back, joined by '-' |
| `DeliveryMonth.YearDashMonthFixed` | src/normalize_trades.py:21-22 | a prepared `YYYY-MM` token is its own result |
| `DeliveryMonth.SixDigitsKey` | src/normalize_trades.py:24-25 | a prepared `YYYYMM` token becomes `YYYY-MM` |
| `DeliveryMonth.CenturyDigits` | src/normalize_trades.py:28-30 | the year of `YYMM` is "20" or "19" by the pivot, followed by the two digits as given |
| `DeliveryMonth.FourDigitsKey` | src/normalize_trades.py:27-30 | a prepared `YYMM` token becomes "20YY-MM" below the pivot and "19YY-MM" from it on |
| `DeliveryMonth.MonthDashYearKey` | src/normalize_trades.py:32-34 | a prepared `MM-YYYY` token becomes `YYYY-MM` |
| `DeliveryMonth.ParsedFallback` | src/normalize_trades.py:35-38 | a token that matches no fixed shape and that the general parser accepts gives that date's year in four digits, '-', and its month in two |
| `DeliveryMonth.YearMonthKept` | src/normalize_trades.py:13-22 | four year digits, any one separator and two month digits come back as the same year and month joined by '-', with no 1..12 check |
| `DeliveryMonth.SixDigitsSplit` | src/normalize_trades.py:24-25 | a raw `YYYYMM` comes back as `YYYY-MM`, with no 1..12 check |
| `DeliveryMonth.CenturyPivot` | src/normalize_trades.py:27-30 | a raw `YYMM` becomes "20YY-MM" when YY < 80 and "19YY-MM" otherwise |
| `DeliveryMonth.MonthYearSwapped` | src/normalize_trades.py:32-34 | two month digits, any one separator and four year digits become the year and month joined by '-' |
| `DeliveryMonth.RawNullExactly` | src/normalize_trades.py:13-40 | a raw cell gives no month exactly when its stripped text is a null token, or its prepared token matches none of the four shapes and the general parser rejects it |
| `DeliveryMonth.RawParsedFallback` | src/normalize_trades.py:13-40 | a raw cell whose prepared token matches no shape and that the general parser accepts gives the parsed year in four digits, '-', and the month in two |
| `DeliveryMonth.NullTokensGiveNull` | src/normalize_trades.py:13-14 | a null cell, or one whose stripped text is "", "nan" or "NaT", gives no month |
| `DeliveryMonth.MonthKeyFixed` | src/normalize_trades.py:21-22 | a month key fed back in as a raw cell comes back unchanged |
| `DeliveryMonth.MonthIdempotent` | src/normalize_trades.py:13-42 | normalising a normalised value again returns it unchanged, null included |
| `DeliveryMonth.DeliveryMonthIdempotent` | src/normalize_trades.py:9-42 | normalising a normalised delivery-month column again changes nothing |
| `DeliveryMonth.PivotBelow` | src/normalize_trades.py:27-30 | "7912" gives "2079-12" |
| `DeliveryMonth.PivotAt` | src/normalize_trades.py:27-30 | "8012" gives "1980-12" |
| `DeliveryMonth.PivotZero` | src/normalize_trades.py:27-30 | "0005" gives "2000-05" |
| `DeliveryMonth.SlashSeparated` | src/normalize_trades.py:32-34 | "05/2023" gives "2023-05" |
| `DeliveryMonth.MonthThirteenKept` | src/normalize_trades.py:21-22 | "2023-13" stays "2023-13" |
| `Categorical.SideWord` | src/normalize_trades.py:52-53 | the result is BUY exactly for B/BUY/BOUGHT, SELL exactly for S/SELL/SOLD, and the folded value itself otherwise |
| `Categorical.PutCallWord` | src/normalize_trades.py:59 | the result is PUT exactly for P/PUT, CALL exactly for C/CALL, and the folded value itself otherwise |
| `Categorical.Folded` | src/normalize_trades.py:51 | one cell's text is stripped and then upper-cased (NaN reads "nan"); the result has no whitespace at either end and no lower-case letter, so upper-casing it again changes nothing |
| `Categorical.SideOf` | src/normalize_trades.py:51-53 | one cell of `map_side` is BUY exactly when its folded text is B, BUY or BOUGHT, SELL exactly when it is S, SELL or SOLD, and the folded text otherwise |
| `Categorical.PutCallOf` | src/normalize_trades.py:58-59 | one cell of `map_put_call` is PUT exactly when its folded text is P or PUT, CALL exactly when it is C or CALL, and the folded text otherwise |
| `Categorical.MapSide` | src/normalize_trades.py:48-53 | an absent column stays absent; a present one keeps its length and maps every cell, nulls included, to its side word |
| `Categorical.MapPutCall` | src/normalize_trades.py:55-59 | an absent column stays absent; a present one keeps its length and maps every cell to its put/call word |
| `Categorical.FoldedIdempotent` | src/normalize_trades.py:51 | strip-and-upper applied to its own output changes nothing |
| `Categorical.CapitalWord` | src/normalize_trades.py:51 | a word of capital letters folds to itself |
| `Categorical.FoldedWord` | src/normalize_trades.py:51 | BUY, SELL, PUT and CALL fold to themselves |
| `Categorical.SideIdempotent` | src/normalize_trades.py:48-53 | the side mapping applied to its own output changes nothing |
| `Categorical.PutCallIdempotent` | src/normalize_trades.py:55-59 | the put/call mapping applied to its own output changes nothing |
| `Categorical.MapSideIdempotent` | src/normalize_trades.py:48-53 | `map_side(map_side(c)) == map_side(c)` for every column, absent included |
| `Categorical.MapPutCallIdempotent` | src/normalize_trades.py:55-59 | `map_put_call(map_put_call(c)) == map_put_call(c)` for every column, absent included |
| `Categorical.FoldedOfNull` | src/normalize_trades.py:51 | a null cell folds to "NAN" |
| `Categorical.NotASideToken` | src/normalize_trades.py:52-53 | a folded value starting with neither 'B' nor 'S' passes through unchanged |
| `Categorical.NullSideIsNan` | src/normalize_trades.py:51-53 | a null cell in a present side column becomes "NAN", not null |
| `Categorical.FoldedOfTrimmed` | src/normalize_trades.py:51 | folding a text with no whitespace at its ends is upper-casing it |
| `Categorical.LowerBIsBuy` | src/normalize_trades.py:51-52 | "b" maps to BUY |
| `Categorical.PaddedLowerBIsBuy` | src/normalize_trades.py:51-52 | " b " is stripped and upper-cased before the lookup, so it maps to BUY |
| `Categorical.SoldIsSell` | src/normalize_trades.py:51-53 | "Sold" maps to SELL |
| `Categorical.UnknownSidePassesThrough` | src/normalize_trades.py:51-53 | the unknown "X" passes through as "X" |
| `Canonical.NormalizeTradeDate` | src/normalize_trades.py:44-46 | one parsed date per row, in row order, each from its own row alone |
| `Canonical.AccountId` | src/normalize_trades.py:74 | the id always starts with the prefix; with no source column it is the prefix and "UNKNOWN", otherwise the prefix and the stripped cell text (a null reads "nan") |
| `BrokerA.Readable` | src/normalize_trades.py:91-98 | the export has the delivery-month and trade-date columns the source reads unconditionally |
| `BrokerA.Row` | src/normalize_trades.py:69-104 | row i of the fragment is tagged "Broker A" and its account id starts with "A:" |
| `BrokerA.Normalize` | src/normalize_trades.py:63-106 | one position per input row; every row is tagged "Broker A" and its account id starts with "A:" |
| `BrokerA.UnknownAccount` | src/normalize_trades.py:73-74 | with no Client Code column, every row's account id is exactly "A:UNKNOWN" |
| `BrokerA.ClientCodeAccount` | src/normalize_trades.py:73-74 | with a Client Code column, row i's account id is "A:" and that row's stripped Client Code, "A:nan" for a null |
| `BrokerA.ScalarFields` | src/normalize_trades.py:86-98 | row i's delivery month, trade date and instrument type come from that row; side and put/call are the mapped words when the columns are present, null when absent |
| `BrokerA.FallbackChains` | src/normalize_trades.py:79-103 | product name, strike, trade price, market price, variation margin and lot size each read the first present of their candidate columns |
| `BrokerA.DirectColumns` | src/normalize_trades.py:76-104 | product code, quantity, currency and FX spot rate read their one column, null when it is absent |
| `BrokerB.Readable` | src/normalize_trades.py:136-144 | the export has the delivery-month column and at least one of the two trade-date columns |
| `BrokerB.AccountSource` | src/normalize_trades.py:116-121 | no account column is chosen exactly when Ledger Code is absent and Client Account is absent or entirely null |
| `BrokerB.OrNotNull` | src/normalize_trades.py:128-129 | or-ing the flags with `column.notna()` raises exactly the flags whose cell holds a value, and keeps the others |
| `BrokerB.IsOption` | src/normalize_trades.py:127-129 | a row can be an option only when the export has a Strike or an Option Type column |
| `BrokerB.InstrumentTypeAt` | src/normalize_trades.py:127-130 | a row's type is OPTION or FUTURE, and OPTION exactly when its Strike or Option Type cell holds a value |
| `BrokerB.InstrumentTypes` | src/normalize_trades.py:127-130 | one type per row, each OPTION or FUTURE; OPTION exactly where Strike or Option Type is present and non-null |
| `BrokerB.Row` | src/normalize_trades.py:112-150 | row i of the fragment is tagged "Broker B" and its account id starts with "B:" |
| `BrokerB.Normalize` | src/normalize_trades.py:108-152 | one position per input row; every row is tagged "Broker B" and its account id starts with "B:" |
| `BrokerB.AccountRule` | src/normalize_trades.py:116-121 | the account id is "B:" with the stripped Client Account when that column exists and has a value somewhere, else with the stripped Ledger Code when present, else "B:UNKNOWN" |
| `BrokerB.NullClientAccountFallsBack` | src/normalize_trades.py:116-119 | a present but wholly null Client Account gives way to Ledger Code |
| `BrokerB.InstrumentTypeRule` | src/normalize_trades.py:127-130 | a row's instrument type is OPTION exactly when Strike or Option Type holds a value there, and FUTURE exactly when neither does |
| `BrokerB.ScalarFields` | src/normalize_trades.py:132-144 | row i's delivery month and trade date (Trade Date before Last Traded date) come from that row; side and put/call (read from Option Type) are the mapped words or null |
| `BrokerB.FallbackChains` | src/normalize_trades.py:123-148 | product name prefers Instrument Long Name over Commodity Name; currency prefers Currency Code over Transaction Currency |
| `BrokerB.DirectColumns` | src/normalize_trades.py:123-150 | the single-source fields read their one column, null when it is absent |
| `Pipeline.Concat` | src/normalize_trades.py:173 | the union has both fragments' rows, A's first and then B's, each in its own order |
| `Pipeline.NormalizeAll` | src/normalize_trades.py:169-173 | the combined table is Broker A's fragment followed by Broker B's, with length the sum of the two |
| `Pipeline.BrokerTags` | src/normalize_trades.py:169-173 | the first rows, one per Broker A row, are tagged "Broker A" with "A:" ids, the rest "Broker B" with "B:" ids |
| `Pipeline.DeliveryMonthsCanonical` | src/normalize_trades.py:169-173 | every non-null delivery month of the combined table is four digits, '-', two digits |

## Left out

- `main` (argument parsing, `read_csv`, directory creation, CSV and SQLite
  output, printing) is I/O. Only the concatenation at line 173 is modelled.
- `pd.to_numeric(..., errors="coerce")` is a library float coercion. The
  numeric fields carry the raw cell unchanged, so "a numeric field is a
  finite decimal or null" is not modelled.
- `pd.to_datetime` is a library date parser. It is a function parameter
  (`Canonical.Parsers`): `month` for the fallback in `norm_one`, `date` for
  one value of `normalize_trade_date`.
  - `month` returns dates in year 0..9999 and month 1..12.
  - `date` is any function from a cell to a cell, so the model does not
    promise that a trade date is `"YYYY-MM-DD"` or null, as `strftime`
    would give.
  - `Canonical.NormalizeTradeDate`: `normalize_trade_date` parses the whole
    column at once, and pandas may infer one format for all values. The
    model parses each value on its own.
- Characters are ASCII. Python's `\d`, `\s`, `str.strip()` and
  `str.upper()` also act on other Unicode digits, spaces and letters
  (`"ß".upper()` is `"SS"`). The model covers digits '0'..'9', whitespace
  code points 9..13 and 28..32, and upper-casing of 'a'..'z' only.
- The dtypes `read_csv` infers are not modelled. For example, a numeric
  column with nulls reads back as `"2305.0"`. Cells are the text the
  adapters would see after `astype(str)`.
- pandas index alignment is not modelled. Every column is taken to share
  the row order of the export, including the fresh RangeIndex of
  `is_option`.
- An export without its delivery-month column, or without any trade-date
  column, makes the source raise. `BrokerA.Readable` and `BrokerB.Readable`
  require those columns instead of modelling the exception.
- `BrokerA.Normalize`: its own contract states only the row count, the
  broker tag and the account prefix. Each field is stated by the lemmas
  beside it (`UnknownAccount`, `ClientCodeAccount`, `ScalarFields`,
  `FallbackChains`, `DirectColumns`).
- `BrokerB.Normalize`: likewise. Its fields are stated by `AccountRule`,
  `InstrumentTypeRule`, `ScalarFields`, `FallbackChains` and
  `DirectColumns`.
