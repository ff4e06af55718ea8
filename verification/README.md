# Vault67: verified model of the financial engines

Vault67 keeps no balances, holdings or tax totals: every figure is derived by replaying an ordered history.
This project models those engines in Dafny and proves what they promise over every input, every run and every
reachable state. `dafny verify dfyconfig.toml` checks all of it.

| file | what it models |
|---|---|
| `Trades.dfy`, `Holdings.dfy`, `CostBasis.dfy`, `Quantities.dfy` | investment rows, their orderings, and the two weighted-average replays |
| `ReplayFigures.dfy` | what the figures of the replays are, told by the rows |
| `Conservation.dfy`, `PostedCash.dfy` | the balance between posted cash and the replayed holdings |
| `Posting.dfy`, `PostingProtocol.dfy` | posting a trade, alone and by concurrent sessions under the row lock |
| `PostedRows.dfy` | stored rows and cash entries, told by the requests they came from |
| `Ledger.dfy`, `LedgerBalances.dfy` | the signed-entry ledger, its deletions, and what operations do to balances |
| `TaxTable.dfy`, `TaxLaws.dfy`, `RuleAmounts.dfy` | the staged reductions of the annual estimate, in place, their closed forms, and what the stored rules take |
| `TaxSources.dfy`, `TaxSummary.dfy` | aggregation of the year's events, the summary and its verdict |
| `SummaryLines.dfy`, `ManualEffects.dfy` | lines, verdict and manual items, told by the stored records and rates |
| `TaxYears.dfy`, `YearPartition.dfy` | stored tax years, the filed lock, and which year reports a disposal |
| `Text.dfy`, `AmountText.dfy`, `CsvFiles.dfy`, `TextFormats.dfy` | amounts and dates as text, export and re-import, and their forms |
| `Statements.dfy`, `StatementRows.dfy` | PDF statements: line grouping, running-balance reconciliation, import, and what the lines become |
| `ExchangeRates.dfy`, `Valuation.dfy` | historical rates and portfolio valuation |
| `AccountValue.dfy` | what an account is worth, explained from its postings |
| `Interest.dfy` | simple and compound interest, fixed-term progress |
| `Decimals.dfy`, `Wrappers.dfy`, `Selections.dfy` | arithmetic, rounding, options and results, picked places of a list |

**Numbers.** Decimal values are reals. `quantize` is written out as round-half-even. The two position replays take
the four arithmetic operations as a parameter, so their agreement holds for any rounding of the decimal context;
conservation, posting, tax, valuation and interest are stated over exact arithmetic.

**Form.** Loops that update variables, tables or lists are methods with invariants; objects with stored state are
classes; each is proved equal to a function of its inputs or of the old state, and the theorems are about those
functions: invariants and laws, and what the figures are in terms of the stored records alone. Queryset filters and
orderings are functions on sequences. Every lemma carries `{:induction false}`: all
inductions are written out.

**Where the code departs from what it says of itself.** The model follows the code.

- The documentation says overall reductions are allocated along the category order (README.md:174-176). That holds for
  manual OVERALL amounts. An OVERALL rule takes its full limit off every category (`TaxLaws.OverallRuleOverReduces`:
  a limit of 50 takes 250). `TaxLaws.OverallRuleIsDocumentedIff` says exactly when the two come to the same: without a
  limit, when the limit covers everything, or when at most one category has something taxable; and
  `TaxLaws.RulesAreDocumentedIff` says it for whole lists of rules.
- Items of a filed year are said to be locked. An item or rule saved under another year leaves the filed one
  (`TaxYears.ItemsCanLeaveFiledYear`); `TaxYears.FiledLockIff` shows that this is the only way.
- Short selling is said to be rejected. A back-dated sale is checked only against its own date and can oversell
  (`Posting.BackdatedSaleOversells`). `Posting.RowIsSoundIff` gives the exact condition for one posting and
  `PostingProtocol.RunIsSoundIff` for every interleaving of concurrent ones.
- A stored rate is said to be inverted transparently. When both orientations are stored on the newest date,
  converting there and back does not return the amount (`ExchangeRates.TieDoesNotRoundTrip`,
  `ExchangeRates.ReciprocalIff`).
- A same-currency transfer is said to be one transaction with two entries (README.md:14). A deposit or
  withdrawal under the type name TRANSFER is accepted and stored with one (`Ledger.DepositTypedTransfer`);
  `Ledger.TransfersHaveTwoLegsIff` shows that runs without one are exactly those in which every transfer has its two
  legs throughout.

## Model

| member | source | states |
|---|---|---|
| Decimals.QuantizeNearest | investments/services/transactions.py:87 | quantizing gives four places, a nearest multiple, and the even one of two equally near ones |
| Trades.OrderedIsChronological | investments/services/holdings.py:35 | ordering by date and id lists exactly the stored rows, sorted by date |
| Trades.AsOfIsPrefix | investments/services/holdings.py:33-35 | a date filter on that listing cuts it: everything after the cut is later |
| Trades.AsOfCommutes | investments/services/cost_basis.py:49-57 | filtering by security, by trade type and by date can be done in any order |
| Holdings.CalculateFromItems | investments/services/holdings.py:42-90 | the loop raises at the first oversell or returns the snapshot of the replay, for any arithmetic |
| Holdings.CalculateHoldings | investments/services/holdings.py:97-108 | one snapshot for each security in the history, closed ones on request; raises exactly when some security's replay does |
| Holdings.SellKeepsAverageCost | investments/services/holdings.py:61-79 | a partial sale leaves the average cost unchanged in both currencies |
| Holdings.SplitSale | investments/services/holdings.py:67-79 | selling in two consecutive parts ends in the same position and realizes the same gains as selling at once |
| ReplayFigures.SnapshotAgreement | investments/services/holdings.py:80-90 | for any rounding, quantity, both costs and both realized gains of a snapshot are those of its part of the interleaved replay |
| ReplayFigures.AverageIsCostPerUnit | investments/services/holdings.py:80 | average cost times quantity is total cost; with nothing held nothing is carried at cost in either currency |
| ReplayFigures.GainsLessCostIsFlow | investments/services/holdings.py:56-79 | in both currencies realized gain less remaining cost is what the trades brought less what they cost, charges included |
| ReplayFigures.SaleEvent | investments/services/cost_basis.py:66-95 | a sale adds one event whose basis is its share of the cost held and exactly what leaves the position |
| ReplayFigures.EventsShowSales | investments/services/cost_basis.py:66-95 | one event for each sale, in order, with proceeds less charges in both currencies and gains that are proceeds less basis |
| CostBasis.CalculateRealizedGainEvents | investments/services/cost_basis.py:47-96 | the interleaved loop returns the events of the book replay up to the date, or its error |
| CostBasis.ReplayAgreement | investments/services/cost_basis.py:57-96 | for any rounding, the interleaved replay succeeds iff every per-security replay does; positions agree and in-order event gains sum to the snapshot's realized gains |
| CostBasis.ReplayAgreementAsOf | investments/services/cost_basis.py:53-57 | the same at every as-of date |
| CostBasis.PreviewIsNextEvent | investments/services/cost_basis.py:30-44 | a sale preview is refused iff recording the sale would break the replay; otherwise it shows the figures of the event it produces |
| ReplayFigures.PreviewIff | investments/services/cost_basis.py:30-44 | a preview is shown iff the history is never oversold and the quantity is positive and covered; its figures follow from average cost |
| Conservation.ReplayBooksFlow | investments/services/holdings.py:56-79 | realized gain less remaining cost of a security is the sum of its unrounded cash flows, also across emptied positions |
| Conservation.FlowIsPartitioned | investments/services/holdings.py:99-103 | grouping by security loses no row and counts none twice |
| Conservation.CashConservation | investments/services/transactions.py:86-98 | at every date, trade cash equals realized gain less remaining cost over all securities, within 0.00005 for each foreign trade and exactly without any |
| Quantities.ReplayQuantity | investments/services/holdings.py:57-78 | the replay raises iff some prefix sells more than it bought, and otherwise holds bought less sold |
| Quantities.InsertIsSafe | investments/services/holdings.py:61-66 | a row put into a sound history keeps it sound iff every running quantity from its place on covers it |
| Posting.Desk.CreateInvestmentTransaction | investments/services/transactions.py:15-99 | stores one transaction, one detail and one cash entry, or leaves every table as it was, with the stated error |
| PostedRows.AcceptedIff | investments/services/transactions.py:31-88 | in sound tables a request is accepted iff it is admissible, a sale is covered by what was bought less sold by its date, and what it moves does not round to nothing |
| PostedRows.RefusalNames | investments/services/transactions.py:31-88 | the error of a refusal is that of the first check that fails |
| PostedRows.CommittedIsRequested | investments/models.py:127-135 | in every interleaving each committed row repeats an admissible request and its entry is what that request moves at its rate, by type, to half a quantum |
| PostedRows.IncomeIsDue | investments/models.py:133-135 | after any interleaving the cash of dividends, fees and taxes is dividends less charges, less fees and taxes, within half a quantum for each foreign one |
| Posting.HeldIsDefined | investments/services/transactions.py:58 | in sound tables the holdings query never raises and is never negative, at any date |
| Posting.RowKeepsSound | investments/services/transactions.py:57-62 | a purchase of any date, and a covered sale with no later trade of its security, keep every replay sound |
| Posting.SaleIsSoundIff | investments/services/transactions.py:57-62 | for a sale of any date, exactly when the history still replays after it |
| Posting.RowIsSoundIff | investments/services/transactions.py:57-62 | a posting that passed the check keeps every replay sound iff it is no sale or is covered after each row stored under a later date |
| Posting.BackdatedSaleOversells | investments/services/transactions.py:57-62 | a back-dated sale that the check accepts and that breaks the replay |
| PostingProtocol.RunsKeepInv | investments/services/transactions.py:53-98 | every interleaving, whatever the dates, keeps mutual exclusion, the sale check's promise until commit, and one matching non-zero cash entry per row |
| PostingProtocol.CheckedQuantityIsStillHeld | investments/services/transactions.py:53-62 | from check to commit only one session is past the lock, and the quantity it found held is still exactly what is held |
| PostingProtocol.RunIsSoundIff | investments/services/holdings.py:61-66 | in every interleaving the history replays after each commit iff each committed sale was covered after every row already committed under a later date |
| PostingProtocol.SalesInOrderAreCovered | investments/services/transactions.py:57-62 | sales dated no earlier than the trades already committed for their security are covered; purchases may carry any date |
| PostingProtocol.ReplaysNeverRaise | investments/services/holdings.py:61-66 | in every reachable state whose sales were covered, both replays succeed at every date and no holding is negative |
| PostingProtocol.AloneIsOutcome | investments/services/transactions.py:53-99 | a session that is not interrupted ends as the sequential service does |
| PostedCash.ReplayedCashBalances | investments/services/transactions.py:86-98 | after any interleaving, at any date to which the holdings can be replayed, the stored trade entries balance against them within the rounding bound |
| PostedCash.PostedCashBalances | investments/services/transactions.py:86-98 | when each committed sale was covered, the holdings can be replayed and the balance holds at every date |
| Ledger.Book.CreateOne | ledger/services.py:9-30 | one transaction with one entry, or the stated refusal and no change |
| Ledger.Book.CreateWithdrawal | ledger/services.py:39-52 | a withdrawal is a creation of the negated amount, refused unless positive |
| Ledger.Book.CreateTransfer | ledger/services.py:55-90 | two opposite legs under one transaction, or the stated refusal and no change |
| LedgerBalances.OperationMoves | ledger/services.py:9-90 | an accepted deposit, withdrawal, transfer or posting moves every balance by its signed amount, source down and destination up, and is stored as asked; a refused one moves none |
| LedgerBalances.RefusalNames | ledger/services.py:9-131 | the error of a refused operation is that of the first check that fails |
| LedgerBalances.BalanceIsEntered | ledger/services.py:93-99 | after every run each balance is the signed sum of what the accepted and not deleted operations entered |
| Ledger.Book.DeleteTransaction | ledger/services.py:102-111 | removes the transaction and exactly its entries; refused for others' transactions and for investments |
| LedgerBalances.DeleteIff | ledger/services.py:102-111 | accepted iff the owner's and without investment detail; then it alone is gone with its entries |
| Ledger.Book.DeleteAccountTransactions | ledger/services.py:114-131 | removes every owner's transaction touching the account with all its entries and returns how many |
| LedgerBalances.BulkDeleteIff | ledger/services.py:114-131 | accepted iff the owner's account has no investment detail; then exactly the transactions with an entry in it are gone |
| Ledger.Book.ImportAll | ledger/imports.py:314-326 | all rows are created, or none is and the error is that of the first row refused |
| Ledger.RunsKeepInv | ledger/services.py:9-131 | over every sequence of operations no entry and no transaction is orphaned and entries stay grouped by transaction |
| Ledger.TransactionsWellShaped | ledger/services.py:64-90 | each stored transaction has exactly one entry, or exactly two opposite legs of one owner in one currency |
| Ledger.TransfersHaveTwoLegsIff | ledger/services.py:9-90 | in a run every stored transfer has its two legs throughout iff no accepted deposit or withdrawal is typed TRANSFER |
| Ledger.DepositTypedTransfer | ledger/services.py:9-36 | a deposit typed TRANSFER is accepted and stored with a single entry |
| Ledger.BulkDeleteBalances | ledger/services.py:114-131 | bulk delete leaves no entry in the account, so its balance is zero, and moves another account only by the counterpart legs |
| Ledger.BulkDeleteAfterAnyRun | ledger/services.py:114-131 | the same at the end of any run over a fixed set of accounts |
| Ledger.InvestmentsAreImmutable | ledger/services.py:105-108 | in every run a posted investment transaction and its cash entry are never removed or changed |
| Ledger.ImportMovesBalance | ledger/imports.py:314-326 | an import moves its account by the total of its rows and no other account |
| LedgerBalances.ImportStores | ledger/imports.py:314-326 | an import stores one transaction for each row, in order, with its date, kind and amount |
| TaxTable.ApplyManual | tax/services/aggregation.py:332-339 | nets losses and applies each category's own amounts, in place |
| TaxTable.ApplyOverallReduction | tax/services/aggregation.py:140-150 | the in-place waterfall is the waterfall on the list of rows |
| TaxTable.ApplyRules | tax/services/aggregation.py:343-369 | non-flat rules in order, then flat rates, each on its category or on all |
| TaxTable.ApplyAllStages | tax/services/aggregation.py:332-369 | all stages in place compute the estimate of the rows |
| TaxLaws.WaterfallClosedForm | tax/services/aggregation.py:140-150 | each category keeps its prefix sum less the amount, between zero and its own taxable amount |
| TaxLaws.WaterfallUses | tax/services/aggregation.py:140-150 | the waterfall takes off exactly the smaller of the amount and what is there, up to every category |
| TaxLaws.WaterfallsAdd | tax/services/aggregation.py:340-341 | two waterfalls leave what one of the sum leaves |
| TaxLaws.OverallAmountsCommute | tax/services/aggregation.py:340-341 | overall allowances and deductions commute on taxable amounts |
| TaxLaws.EstimateClosedForm | tax/services/aggregation.py:332-369 | final taxable amount and tax of every category, said directly from gross, losses, amounts, limits and rates |
| RuleAmounts.RuleTakes | tax/services/aggregation.py:347-369 | a threshold rule takes its threshold and a deduction rule its fixed amount as deductions, an allowance rule its fixed amount as an allowance, and a flat rate adds its percentage to the tax |
| RuleAmounts.EstimateByStoredAmounts | tax/services/aggregation.py:343-369 | taxable amount and tax by the thresholds, fixed amounts and percentages stored in the rules aimed at a category or at all |
| RuleAmounts.EstimateColumns | tax/services/aggregation.py:332-369 | allowances and deductions of every category: own amounts, share of the overall ones in order, and what its traces took; each trace shows what its rule stores |
| RuleAmounts.TracesInOrder | tax/services/aggregation.py:343-369 | a category's traces are of the rules aimed at it or at all, each once: reducing ones in order, then flat rates in order |
| TaxLaws.OverallLimitIsWaterfallIff | tax/services/aggregation.py:347-355 | taking a limit off every category leaves what allocating it in order leaves iff there is none, it covers everything, or at most one category is taxable |
| TaxLaws.OverallRuleIsDocumentedIff | tax/services/aggregation.py:347-355 | the same for an overall rule as the code applies it |
| TaxLaws.RulesAreDocumentedIff | tax/services/aggregation.py:343-360 | the code follows the documented allocation after every rule of a list iff each overall rule meets such rows |
| TaxLaws.EstimateIsCodedRules | tax/services/aggregation.py:343-369 | the estimate ends with what its non-flat rules, in order, leave of the overall stage, which is never negative |
| TaxLaws.OverallRuleOverReduces | tax/services/aggregation.py:347-355 | five categories of 100 under an overall rule of 50 lose 250 in all, where the documented allocation takes 50 |
| TaxLaws.RuleOrderIsIrrelevant | tax/services/aggregation.py:343-369 | any reordering of the rules gives the same taxable amounts and taxes |
| TaxLaws.AuditConservation | tax/services/aggregation.py:332-369 | netted income is taxable, allowed or deducted; traces chain from the post-manual to the final amount, name exactly the rules that apply, and add up to the tax |
| TaxLaws.TaxIsMonotone | tax/services/aggregation.py:332-369 | more gross never lowers, larger losses, amounts or limits never raise, any category's taxable amount or tax |
| TaxLaws.LiabilityIsMonotone | tax/services/aggregation.py:396 | the same for the total liability |
| TaxSources.ConvertOrNote | tax/services/aggregation.py:122-127 | a conversion yields the amount or one noted reason, and which of the two depends on the rate table alone |
| TaxSources.ConvertInvestment | tax/services/aggregation.py:130-137 | investment amounts convert directly, or through the rate fixed at posting |
| TaxSources.AggregateEntries | tax/services/aggregation.py:173-198 | one line for each entry in order, the total of the converted ones, a reason iff one could not be converted |
| TaxSources.AggregateDividends | tax/services/aggregation.py:200-224 | the same for gross dividends and withholding |
| TaxSources.AggregateGains | tax/services/aggregation.py:229-256 | lines and totals of the year's disposals over all accounts; an account whose replay raises is noted and skipped |
| TaxSummary.AddItems | tax/services/aggregation.py:301-311 | manual totals per category, allowances converted on the first day and deductions on their own |
| TaxSummary.AddAdjustments | tax/services/aggregation.py:312-330 | each adjustment goes into exactly one total, with the sign its category calls for |
| ManualEffects.OneMoreAllowance | tax/services/aggregation.py:301-307 | one more allowance raises the amount of its target by its conversion on the first day of the year, and nothing else |
| ManualEffects.OneMoreDeduction | tax/services/aggregation.py:308-311 | one more deduction raises the amount of its target by its conversion on its day, and nothing else |
| ManualEffects.OneMoreAdjustment | tax/services/aggregation.py:312-330 | one more adjustment changes one total of the summary, by kind and sign; tax withheld rises whatever it applies to |
| TaxSummary.BuildTaxYearSummary | tax/services/aggregation.py:153-431 | the summary is the estimate of the aggregated rows with its lines, figures, balance and verdict; INCOMPLETE iff some conversion or account replay failed |
| SummaryLines.InterestLinesAre | tax/services/aggregation.py:173-198 | the interest lines are the positive interest entries dated in the year, each once and in order, at the rate of their day |
| SummaryLines.PaymentLinesAre | tax/services/aggregation.py:258-286 | the payment lines are the negative tax entries dated in the year, each once and in order, shown without their sign |
| SummaryLines.DividendLinesAre | tax/services/aggregation.py:200-224 | the dividend lines are the dividends dated in the year, each once and in order: gross, tax withheld, and net of both charges, through the posting rate where there is one |
| SummaryLines.GainLinesAre | tax/services/aggregation.py:229-256 | the gain lines are the disposals dated in the year, with proceeds, cost and gain at the rate of their day |
| SummaryLines.GainsBySign | tax/services/aggregation.py:251-256 | capital gains are the converted gains above zero and losses those below, not netted, plus adjustments |
| SummaryLines.IncompleteIff | tax/services/aggregation.py:397 | INCOMPLETE iff some record of the year has no rate observed by its day, or some account cannot be replayed |
| SummaryLines.VerdictIff | tax/services/aggregation.py:371-398 | COMPLETE iff also every transaction of the year is classified and every taxable category has a flat rate aimed at it or at all |
| SummaryLines.TotalsAreSums | tax/services/aggregation.py:394-427 | liability, allowances, deductions and taxable income are sums over the categories |
| TaxLaws.FlatTraceIff | tax/services/aggregation.py:389-393 | a category has a flat-rate trace iff some flat-rate rule is aimed at it |
| TaxSummary.CompleteMeans | tax/services/aggregation.py:371-398 | COMPLETE means every line and item converted, no account skipped, nothing unclassified, every taxable category covered by a flat rate |
| TaxSummary.LinesAddUp | tax/services/aggregation.py:187-330 | gross, losses and withholding of every category, and tax paid, are the converted lines added up, gains and losses apart by sign, plus adjustments |
| TaxSummary.SummaryBalances | tax/services/aggregation.py:395-427 | due less refund is liability less withheld and paid, at most one of the two is positive, and every category and their totals balance |
| TaxYears.TaxStore.SaveYear | tax/models.py:124-161 | stores the year with an upper-case jurisdiction iff the dictionary of errors is empty |
| TaxYears.YearSavedIff | tax/models.py:124-161 | saved iff named, placed, dated, apart from the owner's other years of the jurisdiction in days and name, and unchanged if filed; other owners never matter |
| TaxYears.TaxStore.SaveItem | tax/models.py:175-186 | stores the item iff its year is the owner's, not filed, and covers its date |
| TaxYears.ItemSavedIff | tax/models.py:175-186 | accepted iff its year is stored, the owner's, not filed and covers its date; then just it is stored, as given |
| TaxYears.TaxStore.DeleteItem | tax/models.py:188-191 | refused iff the item's year is filed |
| TaxYears.TaxStore.SaveRule | tax/models.py:327-362 | stores the rewritten rule iff its placement and amounts are in order |
| TaxYears.RuleSavedIff | tax/models.py:327-362 | accepted iff owned, in an unfiled year of the owner, with its amount in bounds; stored with the year's jurisdiction and that amount alone |
| TaxYears.TaxStore.DeleteRule | tax/models.py:364-367 | refused iff the rule's year is filed |
| TaxYears.DeletedIff | tax/models.py:188-191 | deleting takes just the item or rule away, unless its year is filed |
| TaxYears.PeriodsStayDisjoint | tax/models.py:129-139 | in every run the periods of one owner and jurisdiction are pairwise disjoint |
| TaxYears.DayInOneYear | tax/models.py:129-139 | a day belongs to at most one stored year of an owner and jurisdiction |
| TaxYears.FiledLockIff | tax/models.py:140-191 | an operation changes what belongs to a filed year iff it saves one of its items or rules under another year |
| TaxYears.FiledLock | tax/models.py:140-191 | without such a move no run changes a filed year's tracked fields, items or rules |
| TaxYears.FiledYearIsFrozen | tax/models.py:140-191 | field by field and record by record: name, jurisdiction, period, currency, status, notes, items and rules stay as they were |
| TaxYears.ItemsCanLeaveFiledYear | tax/models.py:179-186 | a deduction of a filed year that is saved under an open one |
| TaxYears.RulesStayClean | tax/models.py:339-356 | every stored rule carries exactly the amount its type uses, within bounds |
| YearPartition.EarlierEventsArePrefix | investments/services/cost_basis.py:53-57 | events replayed to an earlier day are a prefix of those replayed to a later one, and the earlier replay succeeds when the later does |
| YearPartition.YearIsWindow | tax/services/aggregation.py:229-239 | a year reports exactly the sales of the whole replay that fall in it, with the figures they have everywhere |
| YearPartition.DisposalCountedOnce | tax/services/aggregation.py:229-256 | years without a common day share no disposal, whether their replays succeed or not |
| YearPartition.ConsecutiveYearsConcatenate | tax/services/aggregation.py:229-256 | two consecutive years report what the whole span reports |
| YearPartition.ContiguousYearsConcatenate | tax/services/aggregation.py:229-256 | any number of years without a gap report, one after the other, what the whole span reports |
| YearPartition.DisposalInOneStoredYear | tax/models.py:124-161 | in every run no two stored years of one owner and jurisdiction report the same disposal |
| AmountText.AmountRoundTrip | ledger/imports.py:69-88 | reading an exported amount gives its rounding to cents, unless that is zero or too long; the mirrored comma-decimal text reads the same |
| AmountText.WholeCentsRoundTrip | ledger/exports.py:32-40 | an amount with at most two decimals comes back unchanged |
| TextFormats.CentsAreNearest | ledger/exports.py:40 | exported cents are the nearest hundredths, and the even ones on a tie |
| TextFormats.GroupedPlaces | ledger/exports.py:40 | a separator stands before every third digit from the right and nowhere else |
| TextFormats.PrintedForms | ledger/exports.py:40 | the exact texts of amounts in both notations |
| TextFormats.WholeNumberReads | ledger/imports.py:69-88 | a text without a point is a number iff it is all digits after an optional sign |
| TextFormats.FitsIff | ledger/imports.py:86-87 | a number fits iff it has at most four places and is below ten to the sixteenth either way |
| CsvFiles.SlashRoundTrip | ledger/exports.py:37 | an exported date reads back unchanged |
| CsvFiles.IsoRoundTrip | ledger/imports.py:57-66 | an ISO date reads back unchanged |
| TextFormats.SlashReads | ledger/imports.py:57-66 | three runs of digits between slashes read as day, month and year iff that is a day of the calendar |
| TextFormats.IsoReadsIff | ledger/imports.py:63 | an ISO text reads as a date iff it is that date's ISO text |
| TextFormats.DateForms | ledger/exports.py:37 | the exact texts of a date and of its value-date note |
| CsvFiles.ValueDateRoundTrip | ledger/exports.py:14-22 | the exporter finds the value date in the importer's note and its text leads back to the same note |
| TextFormats.FirstValueDate | ledger/exports.py:14-22 | the first line with the prefix decides the value date |
| CsvFiles.ExportAccountTransactions | ledger/exports.py:25-43 | one row for each entry, in order |
| TextFormats.ExportedIsSafe | ledger/exports.py:7-11 | exported text never starts a formula, and differs from the description only by an apostrophe where that does |
| CsvFiles.ParseTransactionCsv | ledger/imports.py:124-153 | one imported row for each row that is not blank, in order, or the error of the first bad one |
| TextFormats.RowPlaces | ledger/imports.py:124-129 | the rows read are those that are not blank, each once and in order |
| TextFormats.BlankIff | ledger/imports.py:128 | a row is blank iff its fields are all white space |
| TextFormats.RowReads | ledger/imports.py:130-150 | a row is read iff description, date, amount and value date are in order, and keeps them with the type they suggest; otherwise the first fault is named |
| CsvFiles.RowRoundTrip | ledger/imports.py:130-150 | an exported row is accepted iff description and amount allow it, and gives back date, cents and value-date note |
| TextFormats.TypeFollowsWords | ledger/imports.py:91-99 | the inferred type follows the words interest, tax, fee or charge in any case, and otherwise the sign |
| CsvFiles.FileRoundTrip | ledger/imports.py:124-153 | an exported file is read back row for row |
| Statements.ReadPage | ledger/imports.py:202-232 | the state machine yields one record for each transaction line with the block of lines that follows it |
| Statements.RawPdfTransactions | ledger/imports.py:196-237 | the records of all pages in order, or the layout errors |
| Statements.EachRowOnce | ledger/imports.py:203-212 | every transaction line becomes exactly one record, in order, over all pages |
| StatementRows.RecordPlaces | ledger/imports.py:203-232 | the records are those of the transaction lines, each once and in order, with the lines of its row taken in |
| StatementRows.BlockReaches | ledger/imports.py:203-223 | a row reaches up to the next transaction line or footer |
| Statements.BlockMeaning | ledger/imports.py:213-230 | a record takes its reference from the first reference line of its block and its details from the other indented lines |
| TextFormats.DescriptionFits | ledger/imports.py:273-281 | a row's description is its texts joined and stripped, cut to 255 characters with dots |
| Statements.ReadRecords | ledger/imports.py:251-299 | each row is what its record becomes after the balance before it; an error is that of the first bad record, or mixed currencies |
| StatementRows.RecordReads | ledger/imports.py:253-299 | a record is read iff amount, balance, reconciliation and date are in order; its row keeps date, description, signed amount, currency and inferred type |
| Statements.AmountsArePrinted | ledger/imports.py:253-270 | every amount is the printed one up to its sign, and not zero |
| TextFormats.PdfNumberReads | ledger/imports.py:156-167 | a number grouped by commas reads as its cents |
| Statements.StatementReconciles | ledger/imports.py:263-271 | the amounts add up to closing balance less starting balance, which is the opening balance when there is one |
| Statements.ImportStatement | ledger/imports.py:302-326 | accepted iff owner, layout, currency and every record are in order; then the account moves from opening to closing balance and no other moves, otherwise nothing is stored |
| StatementRows.StatementStores | ledger/imports.py:314-326 | an imported statement is stored row by row, dated, typed and entered as the rows |
| StatementRows.DayKeyOrders | ledger/imports.py:282 | stored dates keep the order and identity of calendar days |
| ExchangeRates.RateIsNewestObservation | core/services/fx.py:18-46 | a rate exists iff the pair was observed by the cutoff; it is positive and that of a newest usable observation, direct before inverse on a tie, first by source and creation |
| ExchangeRates.FutureNeverMatters | core/services/fx.py:29-39 | later observations never affect a rate |
| ExchangeRates.ReciprocalIff | core/services/fx.py:40-43 | exactly when the rates of the two directions are reciprocal |
| ExchangeRates.ThereAndBack | core/services/fx.py:49-50 | outside a tie, converting there and back is the identity |
| ExchangeRates.TieDoesNotRoundTrip | core/services/fx.py:40-43 | a table on which it is not |
| Valuation.ValueHoldings | investments/services/valuation.py:69-108 | a row for each holding, the totals, and whether all could be valued |
| Valuation.CollectValues | investments/services/valuation.py:132-138 | market value per label, and cash when positive |
| Valuation.CalculatePortfolioValue | investments/services/valuation.py:59-159 | the whole valuation, complete or not, field by field |
| Valuation.RowsShow | investments/services/valuation.py:69-112 | each row shows quantity times price at its rate, cost at the account's rate, gain and percentages; or its cost alone when it cannot be valued |
| Valuation.CompleteIff | investments/services/valuation.py:69-131 | complete iff every holding has a price and all rates are there; then totals are sums of products at their rates |
| Valuation.SharesShow | investments/services/valuation.py:132-144 | one share for each label held and for positive cash, in label order, each at its amount and percentage |
| Valuation.TotalsAgree | investments/services/valuation.py:105-131 | unrealized gain from converted totals is the sum of the rows' gains; total value is cash plus market |
| Valuation.RowsAddTo100 | investments/services/valuation.py:109-112 | row percentages add up to 100 whenever the market total is not zero |
| Valuation.SharesAddTo100 | investments/services/valuation.py:132-144 | category shares cover market value and positive cash and add up to 100 |
| AccountValue.ValueIsExplained | investments/services/valuation.py:59-131 | after any interleaving whose sales were covered, in any reporting currency, total value is the cash not from trades plus realized plus unrealized gain, within the converted rounding bound |
| Interest.Bernoulli | ledger/calculations/interest.py:34 | one plus n times x is at most the n-th power of one plus x |
| Interest.MorePeriods | ledger/calculations/interest.py:22-34 | a year's growth rises with the number of compounding periods, for any two numbers |
| Interest.CompoundingOrder | ledger/calculations/interest.py:11-34 | over whole years simple, annual, quarterly, monthly and daily interest are in this order |
| Interest.WholeYearFigures | ledger/calculations/interest.py:11-34 | the figures of all five methods over whole years of 365 days, with 365, 12, 4 and 1 periods |
| Interest.SimpleInterestIs | ledger/calculations/interest.py:5-11 | 365 times simple interest is principal times rate times days, and reversed dates are refused |
| Interest.ProjectionIff | accounts/services/fixed_term.py:38-67 | given iff principal, rate, term, method and frequency are in order; maturity value is principal plus interest |
| Interest.DailyGrowthComposes | ledger/calculations/interest.py:33-34 | daily growth over a sum of days is the product, and interest on interest composes |
| Interest.ProgressIsConsistent | accounts/services/fixed_term.py:70-88 | elapsed and remaining days make up the duration, the percentage is in range and is 100 iff matured, and then the full projection is accrued |
| Interest.ProgressIs | accounts/services/fixed_term.py:70-88 | elapsed and remaining days, the percentage, and accrued interest as that of a contract of the elapsed days |
| Interest.AccruedNeverFalls | accounts/services/fixed_term.py:74-88 | accrued interest never falls with time, for simple and daily compounding |
| Interest.AnyAccrualNeverFalls | accounts/services/fixed_term.py:74-88 | the same for every method, for a power operator that grows with its exponent |
| Interest.WholePowerFits | ledger/calculations/interest.py:33-34 | there is a power operator with the properties the theorems rely on |

## Left out

- Decimal's 28-digit context rounding outside the two position replays: exact numbers with explicit `quantize` there.
- `account_balance` as of a date: valuation takes the balance as an input, and the ledger theorems use the balance of all entries (after a bulk delete none is left in the account, whatever the date).
- Holdings.CalculateHoldings: does not state the symbol order of the list; its result is a map from security to snapshot.
- Posting.Desk.CreateInvestmentTransaction: does not model the digit limits of the columns, nor reference, notes and description.
- Ledger.Book.CreateOne: does not model description, notes, reference and entry type.
- TaxSources.AggregateEntries: says whether reasons were noted, not which; duplicates in a summary are kept.
- TaxSources.AggregateDividends: says whether reasons were noted, not which.
- TaxSources.AggregateGains: says whether reasons were noted, not which.
- TaxYears.TaxStore.SaveYear: does not model the length and choice validators of the fields.
- TaxYears.TaxStore.SaveItem: does not model the validators of amounts.
- CsvFiles.ExportAccountTransactions: does not model the header row and the order of the query.
- Statements.ReadRecords: does not model the notes and references of the rows.
- Valuation.ValueHoldings: does not model warnings.
- Valuation.CalculatePortfolioValue: does not model warnings; holdings, balance and realized gain are inputs, which `AccountValue.ValueIsExplained` ties to the postings.
- Row ids skipped by a rolled-back posting: the model's counter is rolled back with the tables, and only the order of ids is used.
- Postings to other accounts and other writers inside `PostingProtocol`: one account's lock and rows are modelled.
- ParseAmount: other spellings that `Decimal` accepts (exponents, underscores, Infinity, non-ASCII digits) count as malformed, and `strip` knows the common white space only.
- ParseDate: `int` and `fromisoformat` spellings other than plain digits and YYYY-MM-DD count as malformed; years are printed with four digits.
- Extraction of PDF text, the regular expressions and `csv.Sniffer`/`DictReader`: lines come classified and fields split.
- Truncation of references, and the wording of notes and messages, in statement imports.
- Unicode case folding: type inference and jurisdiction codes lower and raise ASCII letters only.
- Fractional compounding exponents: the power operator is a parameter, pinned down at whole exponents or assumed to grow with the exponent.
- Database limits on digits, and uniqueness other than the year name; foreign keys to missing rows are reported as errors of the field.
- Stale in-memory objects: a guarded save or delete sees the stored year.
- `row.allocation_percent` is set in a sequence of rows, so aliasing of row objects is not modelled.
- Deleting tax years, admin deletions, editing an account's currency, concurrent tax-year saves: no guard in the code covers them.
- `calculate_return_tax`, fixed-term status, upcoming maturities, charts, forms, views and permissions: single-branch members.
