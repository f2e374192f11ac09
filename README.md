# investment-book-on-view, modelled in Dafny

This project models the bookkeeping core of *investment-book-on-view*. That program records
trade confirmations (broker notes) from a Brazilian stock broker. For each note it:

- checks the note's figures: the date format, the per-line and total operations value, and the settlement amount;
- spreads the note's fees over its operations in proportion to their value;
- stores fees, spent values and one portfolio row per operation in per-table CSV stores, replacing any rows that came from the same note;
- derives the consolidated portfolio, per-symbol annual amounts, day-by-day position stories and dividend stories.

It also models the small helpers that turn scraped dividend and bonus records into rows.

Modules:

| module | models |
|---|---|
| `Errors` | the failure kinds raised by the program, as `Result`/`Outcome` values, and first-failure collection |
| `Money` | two-decimal rounding (`round(x, 2)`), finite division, and column sums over tables |
| `Calendar` | the calendar behind `strptime`/`strftime` for `%Y-%m-%d` and `%d/%m/%Y`, and `timedelta(days=±1)` |
| `Seqs`, `Text`, `Grouping` | sequence, string-order and `groupby`/`cumsum` machinery the tables need |
| `Validation` | `trade_confirmation/utils.py`: the date, operations-value and settlement checks, and the fee sum |
| `TradeConfirmations` | `trade_confirmation.py`: loading a note, including the in-place fee allocation |
| `Papers` | `read_trade_confirmation`: reading the notes and grouping them by date |
| `Ledger` | `get_dataframe` and `save_to_file`: the table store and replace-by-note upsert |
| `Positions` | `create_portfolio`: positions per symbol and their percentage of the investment |
| `Histories` | `create_anual_amounts` and `create_story` |
| `DividendStories` | `create_dividends_story`: matching earnings to the holding on the day before the ex-date |
| `Dividends` | `utils/dividends.py`: date reformatting, the earning-type tax rule, and the dividend and bonus rows |
| `Companies`, `Brokers` | checking that every traded symbol and every broker of a note is registered |
| `InvestmentPortfolios` | `investment_portfolio.py`: the `InvestmentPortfolio` object that ingests notes and writes every derived file |

Modelling choices:

- Money is exact `real` arithmetic. `round(x, 2)` is `Money.Round2`.
- A division the program performs on floats is `Money.Ratio`. It gives `None` where Python would produce `inf` or `NaN`.
- Dates stay strings, as in the CSV files. `Calendar` states which strings the parser accepts, for dates written in ASCII digits (see "## Left out").
- Each CSV file is one entry of a `map<TableId, seq<Row>>` held by the `Ledger.TableStore` object.
- Directory listings and the dividend feeds are parameters.
- pandas sorting is a stable insertion sort (`Seqs.Sort`), specified by "sorted" and "permutation".

Behaviour worth noting:

- **Earliest holding date.** An earning whose day before the ex-date falls on or before the first day the symbol was held is not rejected. `bisect_left` then yields 0, and index −1 picks the **last** story date (`DividendStories.AttributionAtFirst`).
- **Zero position.** A zero position or zero total investment is not reported as an error. The average price or percentage becomes non-finite (`Money.Ratio` is `None`; `Positions.Perc` has `PlusInf`, `MinusInf` and `NotANumber`).
- **Declared operations value.** Only the computed total is rounded before comparison; the declared value is compared as given.
- **Empty fees object.** `add_fees` raises when it names the columns of the frame built from no fees (`src/investment_portfolio/investment_portfolio.py:48-49`), so none of the note is saved. The model writes no fee rows and fails on the empty batch with `EmptyTable`, which stops the note at the same point.
- **Empty dividend feed.** A symbol whose dividend page lists no earnings gets a `dividends-<symbol>.csv` with no header (`src/utils/dividends.py:36,60`), and reading it back raises (`src/investment_portfolio/investment_portfolio.py:208`). The model fails with `EmptyDividendFeed` there.

## Model

| member | source | states |
|---|---|---|
| `Money.Round2` | src/trade_confirmation/utils.py:35 | `round(x, 2)` lies within half a cent of x and is a whole number of cents |
| `Money.Round2Idempotent` | src/trade_confirmation/utils.py:65 | rounding an already rounded amount changes nothing |
| `Validation.ValidateDate` | src/trade_confirmation/utils.py:4-12 | the date is returned unchanged exactly when it parses as `%Y-%m-%d`; otherwise `InvalidDateFormat` naming it |
| `Validation.ValidateFormattedDate` | src/trade_confirmation/utils.py:4-12 | every date the program itself writes with `%Y-%m-%d` is accepted |
| `Validation.ValidateLeapDay` | src/trade_confirmation/utils.py:9 | 29 February of a leap year is accepted |
| `Validation.ValidateUnpadded` | src/trade_confirmation/utils.py:9 | month and day without zero padding are accepted |
| `Validation.ValidateRejectsMissingLeapDay` | src/trade_confirmation/utils.py:9-11 | 29 February of a common year is rejected |
| `Validation.ValidateRejectsMonth13` | src/trade_confirmation/utils.py:9-11 | a thirteenth month is rejected |
| `Validation.ValidateRejectsSlashes` | src/trade_confirmation/utils.py:9-11 | a `dd/mm/yyyy` date is rejected |
| `Validation.CalculateFees` | src/trade_confirmation/utils.py:14-21 | the loop returns the sum of every fee value (0 for no fees) |
| `Validation.FeesCostOrderIndependent` | src/trade_confirmation/utils.py:14-21 | the fee sum does not depend on the order of the fee labels |
| `Validation.FirstLineMismatch` | src/trade_confirmation/utils.py:43-53 | the position of the first operation whose rounded `price * amount` differs from its value; all earlier ones match |
| `Validation.CheckOperationsValue` | src/trade_confirmation/utils.py:23-53 | passes iff the declared value equals the rounded sum of the operations' values and every line matches; otherwise reports the total mismatch, or else the first mismatching line with its symbol, price, amount and value |
| `Validation.ValidateOperationsValue` | src/trade_confirmation/utils.py:31-53 | the summing loop followed by the scanning loop with early exit gives exactly `CheckOperationsValue` |
| `Validation.TotalCheckedFirst` | src/trade_confirmation/utils.py:35-53 | when the total and some line both mismatch, the total mismatch is the one reported |
| `Validation.OperationsValueTolerance` | src/trade_confirmation/utils.py:35-41 | a passing note declares an operations value within half a cent of the sum of its lines |
| `Validation.CheckSettlement` | src/trade_confirmation/utils.py:56-72 | passes iff the settlement equals the rounded sum of fees and operations value; the error carries the three figures |
| `Validation.SettlementInCents` | src/trade_confirmation/utils.py:65-72 | a whole-cent settlement within half a cent of fees plus operations passes |
| `TradeConfirmations.FirstDivisionByZero` | src/trade_confirmation/trade_confirmation.py:49-58 | the first operation whose share of the operations value or whose price-with-fees divides by zero; none before it does |
| `TradeConfirmations.AllocateUpTo` | src/trade_confirmation/trade_confirmation.py:49-60 | the first n operations carry their fees and the rest are untouched |
| `TradeConfirmations.AllocateFees` | src/trade_confirmation/trade_confirmation.py:43-60 | succeeds iff no division by zero happens (no operations or a non-zero operations value, and every amount non-zero); otherwise `DivisionByZero` naming the operation reached |
| `TradeConfirmations.AllocatedOperation` | src/trade_confirmation/trade_confirmation.py:48-60 | each operation keeps symbol and amount; cost of fees = fees × value / operations value; value and price gain the cost (per share for price); the old value and price are kept; the counter is its 1-based position |
| `TradeConfirmations.FeeConservation` | src/trade_confirmation/trade_confirmation.py:48-60 | summed costs × operations value = fees × summed values, and the new values sum to the old values plus the costs |
| `TradeConfirmations.ExactFeeConservation` | src/trade_confirmation/trade_confirmation.py:48-60 | when the lines sum exactly to the operations value, the costs sum to the fees and the values to operations value plus fees |
| `TradeConfirmations.CountersDistinct` | src/trade_confirmation/trade_confirmation.py:48-60 | the counters given to the operations are pairwise distinct |
| `TradeConfirmations.RoundingResidualKept` | src/trade_confirmation/trade_confirmation.py:53-58 | `value - price * amount` is the same before and after the fees are added |
| `TradeConfirmations.Confirm` | src/trade_confirmation/trade_confirmation.py:12-41 | a note is accepted iff its date parses, its operations value and settlement check out and the allocation succeeds; the result holds the allocated operations |
| `TradeConfirmations.ConfirmReportsFirstFailure` | src/trade_confirmation/trade_confirmation.py:22-41 | the checks run in order (date, operations value, settlement, allocation) and the first failing one is reported |
| `TradeConfirmations.ConfirmedBalances` | src/trade_confirmation/trade_confirmation.py:29-39 | an accepted note has matching lines, a total within half a cent and a settlement within half a cent |
| `TradeConfirmations.TradeConfirmation.CalculatePriceWithFees` | src/trade_confirmation/trade_confirmation.py:43-60 | rewrites the operations in place, stopping before the operation whose amount is zero; its outcome and final operations are those of `AllocateFees` |
| `TradeConfirmations.Open` | src/trade_confirmation/trade_confirmation.py:12-41 | building the object runs the checks in order and returns exactly `Confirm` |
| `Errors.CollectReportsFirstFailure` | src/utils/utils.py:16-17 | reading stops at, and reports, the first note that fails |
| `Papers.GroupIndex` | src/utils/utils.py:18 | the position of the group with the given date, or the end when there is none |
| `Papers.GroupKeysAreDates` | src/utils/utils.py:15-21 | a date has a group iff some note carries that date |
| `Papers.GroupKeysDistinct` | src/utils/utils.py:15-21 | no date has two groups |
| `Papers.GroupsInFirstSeenOrder` | src/utils/utils.py:15-21 | the dates come in the order each was first read, which decides which note's symbol or broker is checked first |
| `Papers.GroupContents` | src/utils/utils.py:15-21 | each group holds exactly the notes of that date, in reading order |
| `Papers.AllConfirmationsMembers` | src/companies/companies.py:13-14 | iterating over the groups visits exactly the notes of some group |
| `Papers.ReadTradeConfirmation` | src/utils/utils.py:7-21 | the reading loop returns `ReadAll`: the first failing note's error, or the notes grouped by date |
| `Ledger.RowLeTotalPreorder` | src/utils/utils.py:44 | ordering rows by (date, tc_name) is a total preorder |
| `Ledger.RemovedIsFilter` | src/utils/utils.py:37-42 | dropping a note's rows only when it is present equals always filtering them out |
| `Ledger.UpsertContents` | src/utils/utils.py:35-43 | the new table holds, as a multiset, the old rows of other notes plus the batch |
| `Ledger.UpsertMembers` | src/utils/utils.py:36-43 | a row is in the new table iff it is in the batch or is an old row of another note |
| `Ledger.UpsertCount` | src/utils/utils.py:37-43 | the new length is the old length minus the note's old rows plus the batch |
| `Ledger.UpsertSorted` | src/utils/utils.py:44 | the new table is sorted by (date, tc_name) |
| `Ledger.SameKeys` | src/utils/utils.py:44 | two sorted tables with the same rows list the same (date, tc_name) keys in order |
| `Ledger.UpsertIdempotent` | src/utils/utils.py:34-45 | saving the same note twice leaves the same rows and key order as saving it once |
| `Ledger.UpsertIntoEmpty` | src/utils/utils.py:28-32 | saving into a missing table stores the batch sorted |
| `Ledger.TableStore.Table` | src/utils/utils.py:23-32 | a missing table reads as empty; otherwise its stored rows |
| `Ledger.TableStore.SaveToFile` | src/utils/utils.py:34-45 | a non-empty batch replaces the table by its upsert and leaves other tables alone; an empty batch fails and changes nothing |
| `Positions.PositionsOf` | src/investment_portfolio/investment_portfolio.py:133-140 | one position per symbol present in the table |
| `Positions.PositionSums` | src/investment_portfolio/investment_portfolio.py:134-139 | a position's amount and investment are the sums over its rows; its average price is investment / amount, undefined for a zero amount |
| `Positions.PositionsInvestment` | src/investment_portfolio/investment_portfolio.py:136-138 | the positions' investments sum to the table's total value |
| `Positions.SingleSymbolTable` | src/investment_portfolio/investment_portfolio.py:133-140 | a portfolio table yields exactly one position, carrying its sums |
| `Positions.AllPositionsInvestment` | src/investment_portfolio/investment_portfolio.py:132-141 | the concatenated positions invest the total over all tables |
| `Positions.Share` | src/investment_portfolio/investment_portfolio.py:143-145 | the rounded percentage is within half a hundredth of the exact one; a zero total gives +inf, −inf or NaN by the sign of the investment |
| `Positions.HoldingLeTotalPreorder` | src/investment_portfolio/investment_portfolio.py:146-148 | the order by (perc, investment) descending is a total preorder |
| `Positions.Consolidate` | src/investment_portfolio/investment_portfolio.py:125-149 | fails with `NoPortfolio` iff there are no portfolio tables; otherwise one holding per position |
| `Positions.ConsolidateHoldings` | src/investment_portfolio/investment_portfolio.py:141-145 | the holdings are, as a multiset, the positions each with its share of the total |
| `Positions.ConsolidateSorted` | src/investment_portfolio/investment_portfolio.py:146-148 | the holdings are sorted by percentage then investment, descending |
| `Positions.ExactSharesSumTo100` | src/investment_portfolio/investment_portfolio.py:142-145 | the unrounded shares sum to 100 |
| `Positions.RoundedNearExact` | src/investment_portfolio/investment_portfolio.py:143-145 | rounding moves the sum of shares by at most half a hundredth per position |
| `Positions.ConsolidatedPercTotal` | src/investment_portfolio/investment_portfolio.py:142-148 | the stored percentage column sums to the rounded shares of the positions |
| `Positions.RoundedSharesNear100` | src/investment_portfolio/investment_portfolio.py:142-148 | the stored percentages sum to 100 within half a hundredth per holding |
| `Histories.YearTotals` | src/investment_portfolio/investment_portfolio.py:154-162 | one row per traded year, carrying the symbol |
| `Histories.YearsAscend` | src/investment_portfolio/investment_portfolio.py:159-161 | the grouped years strictly increase |
| `Histories.YearTotalAt` | src/investment_portfolio/investment_portfolio.py:159-161 | a year's amount and investment are the sums over that year's rows |
| `Histories.ZeroOf` | src/investment_portfolio/investment_portfolio.py:163-171 | the zero row's year precedes every traded year |
| `Histories.MinYearIsFirst` | src/investment_portfolio/investment_portfolio.py:165 | the minimum year is the first of the ascending years |
| `Histories.AnnualAmounts` | src/investment_portfolio/investment_portfolio.py:151-178 | fails (`EmptyTable`, as `min` of an empty column) iff the table is empty; otherwise one row more than the traded years |
| `Histories.AnnualIsZeroThenYears` | src/investment_portfolio/investment_portfolio.py:163-173 | the annual table is the zero row followed by the yearly totals, accumulated |
| `Histories.AnnualZeroRow` | src/investment_portfolio/investment_portfolio.py:163-171 | the first row is the year before the first trade with zero amount, investment and accumulated |
| `Histories.AnnualYearRows` | src/investment_portfolio/investment_portfolio.py:159-173 | row i + 1 is the i-th traded year with its summed amount and investment |
| `Histories.AnnualAscending` | src/investment_portfolio/investment_portfolio.py:172 | the years of the annual table strictly increase |
| `Histories.AnnualAccumulated` | src/investment_portfolio/investment_portfolio.py:173 | a year's accumulated value is the investment of every row up to that year |
| `Histories.AnnualTotal` | src/investment_portfolio/investment_portfolio.py:173 | the last accumulated value is the table's total investment |
| `Histories.Story` | src/investment_portfolio/investment_portfolio.py:180-200 | one story row per trading date, carrying the symbol |
| `Histories.StoryAscends` | src/investment_portfolio/investment_portfolio.py:186-191 | story dates strictly increase |
| `Histories.StoryCoversRows` | src/investment_portfolio/investment_portfolio.py:186-189 | every trading date has a story row |
| `Histories.StoryFromRows` | src/investment_portfolio/investment_portfolio.py:186-189 | every story row is a trading date |
| `Histories.StoryHoldings` | src/investment_portfolio/investment_portfolio.py:190-195 | a story row's amount and value are the totals of every row up to its date; its price is value / amount |
| `DividendStories.BisectLeftSplits` | src/investment_portfolio/investment_portfolio.py:215 | the bisection returns the first position whose date is not before the searched one |
| `DividendStories.BisectSplits` | src/investment_portfolio/investment_portfolio.py:215 | on a sorted list, everything before the result is earlier and everything from it on is not |
| `DividendStories.AttributedDate` | src/investment_portfolio/investment_portfolio.py:213-216 | the date an earning is matched on is one of the story dates |
| `DividendStories.AttributionBefore` | src/investment_portfolio/investment_portfolio.py:213-216 | after the first holding date, the match is the latest story date strictly before the earning's date |
| `DividendStories.AttributionAtFirst` | src/investment_portfolio/investment_portfolio.py:213-216 | on or before the first holding date, index −1 matches the last story date |
| `DividendStories.AttributionMonotone` | src/investment_portfolio/investment_portfolio.py:213-216 | a later earning is matched on a date no earlier |
| `DividendStories.JoinRowsShape` | src/investment_portfolio/investment_portfolio.py:217-229 | each joined row keeps the earning's columns; it has an amount iff a story row of that date and symbol exists |
| `DividendStories.MatchedColumns` | src/investment_portfolio/investment_portfolio.py:220-233 | a matched row takes the holding's amount, value and price and the earning's figures |
| `DividendStories.JoinedReceived` | src/investment_portfolio/investment_portfolio.py:230-233 | the dividend received is dividend per share × amount, and missing for unmatched rows |
| `DividendStories.MergeMembers` | src/investment_portfolio/investment_portfolio.py:217-219 | the merge holds exactly the joined rows of the given earnings |
| `DividendStories.MinDateIsFirstIntake` | src/investment_portfolio/investment_portfolio.py:207-213 | the minimum story date is the first of the sorted intake dates |
| `DividendStories.KeptEarningsMembers` | src/investment_portfolio/investment_portfolio.py:209-211 | an earning is kept iff its day before the ex-date is not before the first holding date |
| `DividendStories.DividendsStory` | src/investment_portfolio/investment_portfolio.py:202-241 | fails (`EmptyTable`, as `min` of an empty column) iff the story is empty |
| `DividendStories.DividendsStoryRows` | src/investment_portfolio/investment_portfolio.py:207-229 | the rows are exactly the joins of the kept earnings |
| `DividendStories.DividendReceived` | src/investment_portfolio/investment_portfolio.py:230-233 | every stored row's dividend received is dividend per share × amount, or missing |
| `DividendStories.LatestFirstTotalPreorder` | src/investment_portfolio/investment_portfolio.py:234-236 | the order by (payment day, prev date) descending is a total preorder |
| `DividendStories.DividendsStorySorted` | src/investment_portfolio/investment_portfolio.py:234-236 | the result is sorted by payment day then prev date, descending |
| `Calendar.ParseFormatIso` | src/utils/dividends.py:18-20 | parsing a date written with `%Y-%m-%d` gives the date back |
| `Calendar.FormatIsoOrder` | src/investment_portfolio/investment_portfolio.py:207-215 | the string order of written dates is the chronological order |
| `Calendar.NextDay` | src/utils/dividends.py:19 | the next calendar day is a later valid date; only 9999-12-31 has none |
| `Calendar.PrevDay` | src/utils/dividends.py:19 | the previous calendar day is an earlier valid date; only 0001-01-01 has none |
| `Calendar.NextThenPrev` | src/utils/dividends.py:17-21 | one day forward then one back returns the date |
| `Calendar.PrevThenNext` | src/utils/dividends.py:17-21 | one day back then one forward returns the date |
| `Dividends.ParseFormatDayMonthYear` | src/utils/dividends.py:10 | a date written as `dd/mm/yyyy` parses back to itself |
| `Dividends.ValidateDate` | src/utils/dividends.py:8-15 | the result is empty iff the text is not a `dd/mm/yyyy` date; otherwise it is the same date written `%Y-%m-%d` |
| `Dividends.ValidateDateReformats` | src/utils/dividends.py:8-11 | a `dd/mm/yyyy` date comes back as its `%Y-%m-%d` form |
| `Dividends.TimedeltaDay` | src/utils/dividends.py:17-21 | an unparsable date fails with `InvalidDateFormat`; otherwise the date n days later, written `%Y-%m-%d` |
| `Dividends.TimedeltaRoundTrip` | src/utils/dividends.py:17-21 | one day forward then one back gives the zero-padded form of the date |
| `Dividends.TimedeltaRoundTripFormatted` | src/utils/dividends.py:17-21 | for a written date, one day forward then back gives the same text |
| `Dividends.EarningValue` | src/utils/dividends.py:43-50 | JCP and "Rend. Tributado" keep 85 %, "Dividendo" and "Amortização" are kept whole, any other type fails naming it |
| `Dividends.EarningValueBounds` | src/utils/dividends.py:43-46 | the net value of a non-negative earning lies between 0 and the gross value |
| `Dividends.DividendRowOf` | src/utils/dividends.py:37-59 | a row carries the symbol, the reformatted dates, the gross value and the net value of its type |
| `Dividends.ExDateFollowsPrevDate` | src/utils/dividends.py:38-39 | the ex-date is the day after the prev date |
| `Dividends.DownloadDividends` | src/utils/dividends.py:37-59 | the loop returns `DividendTable`: every earning's row in order, or the first failure |
| `Dividends.ParseDecimalDigits` | src/utils/dividends.py:102-107 | `float` of digits, a point and digits is their decimal value |
| `Dividends.ParseDecimalSurrounded` | src/utils/dividends.py:102-107 | whitespace of any kind around a number does not change what `float` reads |
| `Dividends.ParseDecimalExponent` | src/utils/dividends.py:102-107 | digits followed by `e`, an optional sign and digits read as the first digits' value scaled up, or down after `-`, by that power of ten |
| `Dividends.ParseDecimalUnderscore` | src/utils/dividends.py:102-107 | two runs of digits joined by one underscore read as the digits joined |
| `Dividends.DecimalWithTrailingSpace` | src/utils/dividends.py:102-107 | digits, a point, digits and trailing whitespace read as the decimal value |
| `Dividends.ParseCardNumber` | src/utils/dividends.py:102-107 | a card number succeeds iff `float` accepts the text with its unit removed and commas turned into points, and then it is that number; otherwise it fails naming the cleaned text |
| `Dividends.CommaBecomesPoint` | src/utils/dividends.py:104-107 | replacing the decimal comma gives the point form, whitespace after the number kept |
| `Dividends.BonusValueOfCurrencyText` | src/utils/dividends.py:102-104 | "R$ 1,23"-style text, with or without whitespace after it, parses to its value |
| `Dividends.ProportionOfPercentText` | src/utils/dividends.py:105-107 | "1,23%"-style text, with or without whitespace before the sign, parses to its value |
| `Text.StripKeepsCore` | src/utils/dividends.py:108-110 | `strip()` leaves a text that neither starts nor ends with whitespace unchanged |
| `Text.StripSurrounding` | src/utils/dividends.py:108-110 | `strip()` removes whitespace of any kind around a text and keeps the text |
| `Dividends.BonusRowOf` | src/utils/dividends.py:93-119 | a bonus row carries the symbol, the reformatted dates and the stripped new ticker |
| `Dividends.BonusRowNumbers` | src/utils/dividends.py:102-107 | the value and proportion are the numbers parsed from the cleaned text |
| `Dividends.BonusPrevDatePrecedes` | src/utils/dividends.py:95-98 | the prev date is the day before the ex-date |
| `Dividends.DownloadBonus` | src/utils/dividends.py:93-119 | the loop returns `BonusTable`: every card's row in order, or the first failure |
| `Companies.FirstUnknown` | src/companies/companies.py:25-26 | the first traded symbol missing from the registry; all before it are registered |
| `Companies.KnownSymbols` | src/companies/companies.py:24 | a symbol is in the registry's symbol list iff a registered company has it |
| `Companies.ValidateCompanies` | src/companies/companies.py:22-30 | passes iff every symbol is registered; otherwise names the first unknown one |
| `Companies.ValidateNoCompanies` | src/companies/companies.py:25 | a note without operations always passes |
| `Companies.ValidateConfirmation` | src/companies/companies.py:15-19 | a note passes iff every operation's symbol is registered |
| `Companies.FirstUnlisted` | src/companies/companies.py:13-19 | the first note with an unregistered symbol; all before it pass |
| `Companies.ValidateAll` | src/companies/companies.py:13-19 | passes iff every note passes; otherwise fails on the first failing note |
| `Companies.GetCompanies` | src/companies/companies.py:4-20 | returns the registry unchanged iff every traded symbol is registered; otherwise fails naming an unregistered symbol |
| `Companies.GetCompaniesEmpty` | src/companies/companies.py:13-20 | with no notes the registry is returned |
| `Brokers.ValidateBroker` | src/brokers/brokers.py:18-24 | passes iff the broker is registered; otherwise `UnknownBroker` naming it |
| `Brokers.FirstUnlisted` | src/brokers/brokers.py:13-15 | the first note whose broker is unregistered; all before it pass |
| `Brokers.GetBrokers` | src/brokers/brokers.py:4-16 | returns the registry unchanged iff every note's broker is registered; otherwise fails on the first note that is not |
| `Brokers.GetBrokersEmpty` | src/brokers/brokers.py:13-16 | with no notes the registry is returned |
| `InvestmentPortfolios.FeeRows` | src/investment_portfolio/investment_portfolio.py:46-53 | one fee row per fee label, with date, broker, label, value and note name |
| `InvestmentPortfolios.FeeRowsRecordFees` | src/investment_portfolio/investment_portfolio.py:46-53 | the fee rows fit the fees table and their values sum to the note's fee cost |
| `InvestmentPortfolios.SpentRowOf` | src/investment_portfolio/investment_portfolio.py:63-75 | the spent-values row carries the note's date, name, operations value and settlement |
| `InvestmentPortfolios.OperationRowOf` | src/investment_portfolio/investment_portfolio.py:78-101 | fails with a missing `counter` iff fees were not allocated; otherwise the portfolio row with every column of the operation and name `<note>-<counter>` |
| `InvestmentPortfolios.OperationRowOfAllocated` | src/investment_portfolio/investment_portfolio.py:85-101 | an allocated operation gives the row built from its allocation |
| `InvestmentPortfolios.AllocatedOperationRow` | src/investment_portfolio/investment_portfolio.py:78-101 | the i-th operation of an accepted note is stored with its fee share, original value and price, and name `<note>-<i+1>` |
| `InvestmentPortfolios.StepRun` | src/utils/utils.py:34-45 | one save passes iff its batch can be saved; a failing save changes nothing |
| `InvestmentPortfolios.ReplayWith` | src/investment_portfolio/investment_portfolio.py:17-26 | a sequence of saves passes iff every save passes |
| `InvestmentPortfolios.ReplayAppend` | src/investment_portfolio/investment_portfolio.py:17-26 | saves in a row compose: the second part starts from where the first left off, unless the first failed |
| `InvestmentPortfolios.FailedPrefix` | src/investment_portfolio/investment_portfolio.py:17-26 | after a failure nothing more is saved |
| `InvestmentPortfolios.ReplayReportsFirstFailure` | src/investment_portfolio/investment_portfolio.py:17-26 | the first failing save is the one reported, with the tables as the earlier saves left them |
| `InvestmentPortfolios.ReplayConforms` | src/investment_portfolio/investment_portfolio.py:17-26 | saving well-formed batches keeps every table holding only rows of its own kind |
| `InvestmentPortfolios.ReplayFrame` | src/investment_portfolio/investment_portfolio.py:17-26 | a table no save writes to is unchanged |
| `InvestmentPortfolios.ReplayKeepsTables` | src/investment_portfolio/investment_portfolio.py:17-26 | no table disappears or becomes empty |
| `InvestmentPortfolios.ConfirmationSteps` | src/investment_portfolio/investment_portfolio.py:19-26 | a note is saved as its fees, then its spent values, then each operation in order |
| `InvestmentPortfolios.ConfirmationStepsFit` | src/investment_portfolio/investment_portfolio.py:19-26 | every batch of a note fits the table it is written to |
| `InvestmentPortfolios.ConfirmedSavesSucceed` | src/investment_portfolio/investment_portfolio.py:19-26 | every save of an accepted note succeeds iff the note lists at least one fee (an empty fee batch fails) |
| `InvestmentPortfolios.RecordedFees` | src/investment_portfolio/investment_portfolio.py:40-54 | after a note is saved, the fees table's rows under its name are exactly its fee rows (as a multiset) |
| `InvestmentPortfolios.FeesSavedFirst` | src/investment_portfolio/investment_portfolio.py:19-26 | the fees table after a note is the upsert of its fee rows |
| `InvestmentPortfolios.LaterStepsSkipFees` | src/investment_portfolio/investment_portfolio.py:20-26 | no save after the first writes to the fees table |
| `InvestmentPortfolios.UpsertReplaces` | src/utils/utils.py:36-43 | after an upsert the rows of that note are exactly the batch |
| `InvestmentPortfolios.DateGroupLeTotalPreorder` | src/investment_portfolio/investment_portfolio.py:17 | ordering the date groups by date is a total preorder |
| `InvestmentPortfolios.Chronological` | src/investment_portfolio/investment_portfolio.py:17 | the notes' dates are visited as a permutation of the groups |
| `InvestmentPortfolios.ChronologicalSorted` | src/investment_portfolio/investment_portfolio.py:17 | the groups are visited in ascending date order |
| `InvestmentPortfolios.ConfirmationReplay` | src/investment_portfolio/investment_portfolio.py:19-26 | saving a note is its fee save, then its spent save, then its operation saves, stopping at the first failure |
| `InvestmentPortfolios.WriteEachFiles` | src/investment_portfolio/investment_portfolio.py:151-178 | writing per-symbol files passes iff every symbol's file can be built; the files written are those of the symbols reached |
| `InvestmentPortfolios.WriteEachStops` | src/investment_portfolio/investment_portfolio.py:151-178 | once a symbol fails, no later file is written |
| `InvestmentPortfolios.WriteEachReportsFirstFailure` | src/investment_portfolio/investment_portfolio.py:202-241 | the first symbol that fails is reported and only the symbols before it have files |
| `InvestmentPortfolios.ListedTables` | src/investment_portfolio/investment_portfolio.py:131-133 | the tables read are those of the listed symbols, in listing order |
| `InvestmentPortfolios.DividendFile` | src/investment_portfolio/investment_portfolio.py:202-208 | a dividend story fails iff the symbol has no story, an empty one, or no usable dividend feed (missing, or written from no earnings); the error names which; otherwise it is `DividendsStory` of the two |
| `InvestmentPortfolios.FirstMissing` | src/investment_portfolio/investment_portfolio.py:205-208 | the first listed symbol without a usable dividend feed |
| `InvestmentPortfolios.NoEarningsFeedRaises` | src/investment_portfolio/investment_portfolio.py:208 | a feed written from no earnings makes the dividend story of that symbol fail with `EmptyDividendFeed` |
| `InvestmentPortfolios.AnnualFilesWritten` | src/investment_portfolio/investment_portfolio.py:151-178 | for non-empty portfolio tables every annual file is written |
| `InvestmentPortfolios.DividendFilesFailOnMissingFeed` | src/investment_portfolio/investment_portfolio.py:202-208 | dividend stories pass iff every listed symbol has a usable feed; otherwise the error names a listed symbol whose feed is missing or empty |
| `InvestmentPortfolios.ListDirectory` | src/investment_portfolio/investment_portfolio.py:104-123 | the listing names every file of the directory exactly once |
| `InvestmentPortfolios.DeriveOutcome` | src/investment_portfolio/investment_portfolio.py:28-31 | deriving passes iff some portfolio table exists and every symbol has a usable dividend feed; without tables it fails with `NoPortfolio`, otherwise with `MissingDividendFeed` or `EmptyDividendFeed` naming a symbol; on success every symbol has a dividend story |
| `InvestmentPortfolios.DividendsOutcome` | src/investment_portfolio/investment_portfolio.py:202-241 | the dividend stories pass iff every listed symbol has a usable feed; a failure names a symbol whose feed is missing or empty; on success exactly the listed symbols get a file |
| `InvestmentPortfolios.RunOutcome` | src/investment_portfolio/investment_portfolio.py:15-31 | after every note is saved no table is lost, and deriving passes iff some portfolio table exists and every symbol has a usable dividend feed |
| `InvestmentPortfolios.NothingListed` | src/investment_portfolio/investment_portfolio.py:125-149 | with no portfolio files the run fails with `NoPortfolio` |
| `InvestmentPortfolios.ReachesDividends` | src/investment_portfolio/investment_portfolio.py:28-31 | with portfolio files, every story is written before the dividend stories start |
| `InvestmentPortfolios.DeriveThroughStories` | src/investment_portfolio/investment_portfolio.py:28-31 | once the tables, annual files and stories are written, the outcome is that of the dividend stories |
| `InvestmentPortfolios.StoriesWritten` | src/investment_portfolio/investment_portfolio.py:180-200 | every listed symbol gets a non-empty story |
| `InvestmentPortfolios.StoriesListed` | src/investment_portfolio/investment_portfolio.py:180-200 | the story files written are exactly those of the listed symbols |
| `InvestmentPortfolios.StoryOfSymbol` | src/investment_portfolio/investment_portfolio.py:180-200 | a symbol with a non-empty portfolio table has a non-empty story |
| `InvestmentPortfolios.InvestmentPortfolio.constructor` | src/investment_portfolio/investment_portfolio.py:15-16 | a new portfolio wraps the table store and has no derived files yet |
| `InvestmentPortfolios.InvestmentPortfolio.AddFees` | src/investment_portfolio/investment_portfolio.py:40-54 | the store after saving the note's fee rows, and its outcome |
| `InvestmentPortfolios.InvestmentPortfolio.AddSpentValues` | src/investment_portfolio/investment_portfolio.py:56-76 | the store after saving the spent-values row, and its outcome |
| `InvestmentPortfolios.InvestmentPortfolio.AddOperation` | src/investment_portfolio/investment_portfolio.py:78-102 | the store after saving the operation's row into its symbol's table, and its outcome |
| `InvestmentPortfolios.InvestmentPortfolio.AddOperations` | src/investment_portfolio/investment_portfolio.py:23-26 | the store after saving each operation in order, stopping at the first failure |
| `InvestmentPortfolios.InvestmentPortfolio.AddConfirmation` | src/investment_portfolio/investment_portfolio.py:19-26 | the store after saving a whole note (`ConfirmationSteps`) |
| `InvestmentPortfolios.InvestmentPortfolio.Ingest` | src/investment_portfolio/investment_portfolio.py:17-26 | the store after saving every note, groups in date order |
| `InvestmentPortfolios.InvestmentPortfolio.CreatePortfolio` | src/investment_portfolio/investment_portfolio.py:125-149 | the consolidated portfolio is `Consolidate` of the listed tables, or its error |
| `InvestmentPortfolios.InvestmentPortfolio.CreateAnnualAmounts` | src/investment_portfolio/investment_portfolio.py:151-178 | the annual files are those written for the listed symbols, and the outcome is theirs |
| `InvestmentPortfolios.InvestmentPortfolio.CreateStory` | src/investment_portfolio/investment_portfolio.py:180-200 | the story files are those written for the listed symbols; it always passes |
| `InvestmentPortfolios.InvestmentPortfolio.CreateDividendsStory` | src/investment_portfolio/investment_portfolio.py:202-241 | the dividend story files are those written for the listed stories, and the outcome is theirs |
| `InvestmentPortfolios.InvestmentPortfolio.Process` | src/investment_portfolio/investment_portfolio.py:15-31 | ingesting the notes and then, if that passed, deriving every file |
| `InvestmentPortfolios.InvestmentPortfolio.DeriveFiles` | src/investment_portfolio/investment_portfolio.py:28-31 | the four derivations in order, on fresh directory listings, equal `Derive` |
| `InvestmentPortfolios.InvestmentPortfolio.DeriveTableFiles` | src/investment_portfolio/investment_portfolio.py:28-29 | the portfolio and annual derivations on the listed portfolio files |
| `InvestmentPortfolios.InvestmentPortfolio.DeriveStoryFiles` | src/investment_portfolio/investment_portfolio.py:30-31 | the story and dividend-story derivations on the listed files |

## Left out

- File and network I/O are not modelled. This covers JSON and CSV reading and writing, `os.listdir`, folder creation and the filename regular expressions. The stored tables are a map held by `Ledger.TableStore`. Directory listings are given as sets of names (`InvestmentPortfolios.ListDirectory`). The dividend feeds are a parameter.
- Scraping is not modelled. The HTTP requests, the HTML/JSON parsing and the cache-freshness check on file modification times in `download_dividends`/`download_bonus` are left out. The models start from the scraped records (`Dividends.Earning`, `Dividends.BonusCard`).
- Console messages (`print`) are not modelled.
- The exact wording of error messages is not modelled. Each failure is an `Errors.Error` value carrying the figures the message names.
- `Dividends.ParseDecimal`: `float` also accepts `inf`, `infinity` and `nan` in any case, and decimal digits of other scripts; the model rejects those texts. Values are exact reals, so float rounding and overflow to `inf` are not modelled.
- `Validation.ValidateDate`: `strptime` reads `%Y`, `%m` and `%d` with Unicode decimal digits too, so it accepts dates such as "٢٠٢٤-01-05". The model accepts ASCII digits only and rejects those dates.
- `Dividends.ValidateDate`: the same restriction holds for `%d/%m/%Y`. A date written in digits of another script comes back empty instead of reformatted.
- `Dividends.TimedeltaDay`: the same restriction holds here. A date written in digits of another script fails with `InvalidDateFormat` instead of being shifted.
- `TradeConfirmations.TradeConfirmation.CalculatePriceWithFees`: for an operation with amount zero, the program has already written its fee cost, value and price without fees before the division raises. The model stops before that operation and leaves it untouched. The exception escapes the constructor, so nobody can observe the half-written operation.
- `Money.Round2`: rounds exact reals half up. Python's `round` works on binary floats and rounds half to even, so values that sit exactly on a half cent may round differently. Float representation error is not modelled at all.
- `Positions.Share`: `inf`, `-inf` and `NaN` are symbolic values. They are not IEEE floats, and how they sort against finite percentages is a fixed choice (NaN last).
- `Seqs.Sort`: pandas' default sort is not guaranteed stable. The model uses a stable sort and states only "sorted and a permutation" about it. Equal keys may therefore come out in a different order than pandas gives.
- `Histories.RowYear`: a stored date that does not parse is given year 0 instead of raising. Stored dates come from accepted notes and always parse.
- Operation amounts are integers. A fractional amount in a note file is not modelled.
- A note file with missing keys (`KeyError` on load) is not modelled. A `Paper` always has every field.
- The frontend, `main.py` and the market-data helper that fetches prices are not part of this model.
