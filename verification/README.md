# Proved models of the BormoStats core

BormoStats turns marketplace reports into books, article reports and document histories. This project
models the parts of it that keep money, history and shared state right, and proves what they promise
for every input, every run and every order of events. `dafny verify dfyconfig.toml` checks it.

**Document history** (`Documents`, `PrintedPaths`, `DocumentDiff`, `DocumentViews`, `DocumentReplay`,
`ReplayTheorem`, `DiffEmptiness`, `DiffDetail`, `IgnoredPaths`). The Git-like diff of two JSON
documents with its three list strategies. The methods append to a shared change log as the program
does. `EditAt` says, without recursion over lists of changes, which edit a path has; the methods are
proved to list exactly these, and `Describes` says what such a list is without naming a strategy.
Replay is addressed by paths of the old document. Equality "up to the order of identity-keyed lists"
is equality of a normal form (`SameView`). The comparison of the program does not tell `true` from 1;
the model keeps that (`Norm`) and proves exactly where it changes the diff.

**Article ledger** (`Ledger`, `Accruals`, `PayloadCells`, `Buyouts`, `BuyoutLedger`, `Settlement`,
`SettlementCells`, `OzonRuns`, `BuyoutEffects`, `RunCells`, `AccrualEconomics`, `FunnelEconomics`,
`DayBooks`, `FinanceDays`). The mutable ledger is a class whose methods update rows, pool and counters
step by step. Each is proved against a journal, the list of single postings it stands for, and the
promises are proved about journals and runs: the incremental total equals the full re-scan, totals
split into RF and CIS, a record of a report takes effect once over a whole run, or exactly when it does
not, and every cell of every article, the pool and the months hold what the payloads and reports say.
`FinanceDays` runs one ledger object per account and day.

**Allocation and calendar** (`Money`, `Allocation`, `Calendar`, `Expenses`, `StrayExpenses`).
Cent-exact sharing, the Gregorian calendar, and the two computations of external expenses, by period
and by day, that must agree.

**Streaming engine** (`ArticleEngine`, `EngineCells`, `StreamingEngine`, `ArticleShares`,
`ArticleReport`, `ReportColumns`, `Sorting`, `Abc`, `ServiceAbc`, `Text`). Registration and movements
of articles, the sharing of overheads, advertising, taxes and indirect expenses, rounding, merging over
accounts, and both ABC variants.

**Query cache** (`QueryCacheProtocol`, `QueryCaches`). Readers, writers, expiry and errors as
interleaved steps over a version counter and a generation counter, and the cache class with its time
out.

**Rate limiter** (`RateLimit`, `ClientLimits`). Token buckets in a bounded list of the most recently
seen clients.

**Migrations** (`SqlSplit`, `Migrations`, `MigrationHistory`, `MigrationRunner`, `MigrationLaws`, `MigrationLock`). The statement splitter,
the journaled runner and the lock table.

**Circuit breaker** (`Circuit`). The retry loop of the shared HTTP client.

Money is exact (`real`). Some promises turned out to hold only under a condition. Each has a lemma
with inputs at which it fails, and the condition is proved to be exact:

- an empty diff means equality up to order, unless a boolean under an identity key has identified rows
  compared by position in another order (`DiffIsEmptyIff`, `EqualListsShareTheirKeyIff`,
  `ReorderingIsUnreportedIff`, `BooleanUnderAnIdentityKey`);
- a buyout takes effect once, unless an accrual sells its pair afterwards (`ExactlyOnceIff`,
  `ReportThenAccrual`, `OneSaleCountsAs200`);
- books with realisation lines reconcile, unless overpayments are more than a cent apart
  (`RunReconcilesIff`, `OverpaidSaleDoesNotReconcile`);
- merged rows keep distinct keys, and so their own classes, unless two groups begin with one SKU
  (`MergedKeysAreDistinctIff`, `MergedClassIsOverwritten`);
- a comment at the end of a line is unnoticed, unless it stands in open quotes or, outside another
  comment, directly behind a dash (`CommentIsUnnoticedIff`, `CommentAfterADash`);
- adjacent periods add up, unless expenses dated outside their months do not cancel out
  (`PeriodsAddUpIff`, `ListAddsUpIff`, `MisplacedExpense`);
- a client is bounded by its burst and the tokens earned, unless more clients than there are places
  take turns (`BoundedForIff`, `DisplacementRefills`);
- at most one migration run is inside, unless a lock is dropped under a run that holds it (`CleanIff`,
  `DropIsSafeIff`, `SlowHolderIsJoined`, `TwoTakersJoin`).

One more is shown to need what the program does not enforce: a bump that is not lost
(`LostBumpAllowsAStaleHit`). The rows of an article report need not hold all the money of the engine: `ReportHoldsTheMoney` states
exactly what is missing from them and `ReturnsAloneAreNotReported` shows a case.

## Model

| member | source | states |
|---|---|---|
| `Documents.PathsArePrefixFree` | `common/history.py:126-166` | no path of a diff equals or lies inside another path of it, so replay order cannot matter |
| `Documents.DiffIsSymmetric` | `common/history.py:126-166` | the diff in the other direction has the same paths, with add and remove exchanged and old and new swapped |
| `DocumentDiff.Diff` | `common/history.py:126-166` | the recursive comparison appends, for the path it is called with, every edit of the two values exactly once and nothing else |
| `DocumentDiff.DiffFields` | `common/history.py:129-138` | objects: one visit of every key of either side, in any order, lists the edits of the two objects |
| `DocumentDiff.DiffByIdentity` | `common/history.py:140-152` | lists with a shared identity key are compared item by item under that key, wherever the items stand |
| `DocumentDiff.DiffByIndex` | `common/history.py:153-162` | other lists of objects are compared position by position, with additions or removals past the shorter end |
| `DocumentDiff.DiffDocuments` | `common/history.py:169-173` | the whole list of changes: distinct paths, an entry for a path exactly when that path has that edit, and the entries in the order of their printed paths |
| `DocumentDiff.AnyOrderIsAListing` | `common/history.py:173` | every reordering of the changes, such as the sort by path, describes the same difference |
| `DiffDetail.ListingDescribes` | `common/history.py:126-173` | what the list of changes is, without the choice of strategy: nothing for equal values; one entry or one sub-listing for each key of two objects, each identity of two lists with one identity key, and each place of two other lists of objects; one change of the whole for anything else |
| `DiffDetail.ListedChangesAreAtomic` | `common/history.py:126-166` | no change of the whole is ever reported for two objects, two lists of nothing but objects, or two equal values, however deep |
| `DiffDetail.RenamedField` | `common/history.py:129-138` | a renamed field is exactly one removal and one addition |
| `DiffDetail.IdentityKeyIs` | `common/history.py:114-123` | a list chooses the first key of the order of preference under which every item is an object with a text or an integer and no two are equal |
| `DiffDetail.LooselyEqualIs` | `common/history.py:127-128` | the equality of the comparison: numbers by value with true as 1, texts, lists place by place, objects key by key, nothing across kinds |
| `DiffDetail.PathsRead` | `common/history.py:132-155` | how paths are written: dots, numbers in brackets, key and identity in brackets |
| `DiffDetail.DigitsRead` | `common/history.py:154-155` | written numbers read back |
| `DocumentViews.MatchedTablesAgree` | `common/history.py:139-152` | lists whose items match one to one, in any order, are equal up to order as soon as one of them has an identity key |
| `ReplayTheorem.ReplayRebuilds` | `common/history.py:126-173` | main theorem: for all documents and any order of the changes, replaying the diff on the old document gives the new one up to the order of identity-keyed lists |
| `DiffEmptiness.NoChangesMeansSameView` | `common/history.py:126-128` | an empty diff means equality up to that order, for all documents |
| `DiffEmptiness.DiffIsEmptyIff` | `common/history.py:114-166` | for all documents: the diff is empty exactly for those equal up to that order and in step, that is, whose identified rows stand in the same order wherever they are compared by position |
| `DiffEmptiness.PlainDiffIsEmptyIff` | `common/history.py:114-166` | documents without a boolean under an identity key are always in step: the diff is empty exactly up to order |
| `DiffEmptiness.EqualListsShareTheirKeyIff` | `common/history.py:114-123` | two lists equal up to order choose the same identity key exactly when the first key free of booleans in one of them is free of booleans in both |
| `DiffEmptiness.ReorderingIsUnreportedIff` | `common/history.py:139-162` | a proper reordering of a list whose items some key tells apart is unreported exactly when the list has an identity key of its own |
| `DiffEmptiness.BooleanUnderAnIdentityKey` | `common/history.py:119` | a concrete pair that shows why the proviso is needed: a boolean equal to 1 disqualifies the key on one side only, and a mere reordering is reported |
| `DiffEmptiness.BooleansCountAsIntegers` | `common/history.py:127-128` | documents that differ in nothing but booleans written as 1 and 0 have no diff, such as any document and its copy with integers for booleans |
| `IgnoredPaths.StripIgnored` | `common/history.py:84-103` | the walk over fields and list items returns the document without the noisy paths |
| `IgnoredPaths.StaysIffQuiet` | `common/history.py:84-103` | a place of the document stays exactly when no key on its way has a noisy printed path, and it holds its own stripped value |
| `IgnoredPaths.StripByBoth` | `common/history.py:84-103` | dropping by two pattern sets one after the other is dropping by their union |
| `IgnoredPaths.StripIsIdempotent` | `common/history.py:84-103` | dropping a second time drops nothing |
| `Ledger.NetOfPosted` | `common/article_economics.py:273-280` | the full re-scan of the books moves by exactly the net of what was posted, read off the postings alone |
| `Ledger.CellOfPosted` | `common/article_economics.py:181-198` | every cell of every article moves by exactly what the postings say about it |
| `Accruals.AddPostsTheTotal` | `common/article_economics.py:209-271` | whatever its lines and fees say, a payload posts exactly its total: the unexplained rest goes to the pool |
| `Accruals.AddBooksTheLines` | `common/article_economics.py:216-252` | every sale column of every article grows by what the payload's lines say, sales and returns apart, and by nothing else |
| `PayloadCells.FeesGoWhereTheyBelong` | `common/article_economics.py:200-207` | every type of fee belongs to exactly one column, by the five sets of types, and its fees go there |
| `PayloadCells.AddChargesTheArticle` | `common/article_economics.py:200-256` | every expense column of every article grows by the services and item fees that the payload names for the article and whose type belongs there, and by the rest of its deliveries, and by nothing else |
| `PayloadCells.AddChargesThePool` | `common/article_economics.py:254-271` | every column of the pool grows by the fees that name no article, and other accruals by the part of the total that lines and fees leave unexplained |
| `PayloadCells.AddBooksTheMonth` | `common/article_economics.py:232-233` | every sale month of every article grows by what buyers paid for its lines when the payload's day lies in it |
| `PayloadCells.AddChargesTheCampaign` | `common/article_economics.py:258-264` | a payload makes exactly the campaign known that its fee without an article, of type 41 or 75, charges, by that fee |
| `PayloadCells.RememberedIsBooked` | `common/article_economics.py:222-242` | what is remembered of a sale is what its line books |
| `PayloadCells.BuyerMoneyIs` | `common/article_economics.py:220-228` | what a buyer paid: the price without its sign times the quantity, against the account for a return |
| `Accruals.AddKeepsBooksSound` | `common/article_economics.py:209-271` | adding any payload keeps re-scan equal to raw total, the RF/CIS splits, the sale months and the pool inside the expense columns |
| `AccrualEconomicsClass.AccrualEconomics.Fee` | `common/article_economics.py:200-207` | one fee is taken from its article or, without one, from the pool, in the column that its type belongs to |
| `AccrualEconomicsClass.AccrualEconomics.AddLine` | `common/article_economics.py:216-252` | one product line posts its sale, its services and the difference to the delivery total, and returns their net |
| `AccrualEconomicsClass.AccrualEconomics.Add` | `common/article_economics.py:209-271` | the incremental method leaves exactly the books that the postings of the payload describe |
| `AccrualEconomicsClass.AccrualEconomics.NetOfBooks` | `common/article_economics.py:273-280` | the loop over rows and pool computes the re-scanned net |
| `Buyouts.ParseBuyouts` | `common/ozon_buyouts.py:10-45` | the report is read line by line, or refused exactly when it has no list, a line is unacceptable or a posting/SKU occurs twice |
| `BuyoutLedger.EveryRecordCountsOnce` | `common/article_economics.py:282-318` | one report on any books: the receipts taken in are those of the newly seen records without a domestic sale, conflicts included |
| `BuyoutEffects.ApplyShiftsColumns` | `common/article_economics.py:286-315` | a new record shifts every column of its article by the amounts of the known sale, from RF to CIS, or by its own amounts; a repeated or contradicting one shifts nothing |
| `BuyoutEffects.BuyoutsShiftColumns` | `common/article_economics.py:282-315` | over a report, conflicts included, every column of every article is shifted once by each posting/SKU pair that was not seen before |
| `BuyoutEffects.RunColumns` | `common/article_economics.py:209-345` | main theorem: over every Ozon run, in any order of reports and accruals, each sale column of each article holds what the payloads' lines say and one shift for every posting/SKU pair taken from a report |
| `RunCells.RunCharges` | `common/article_economics.py:200-345` | main theorem: over every Ozon run each expense column of each article holds exactly the fees that payloads named for it and the advertising linked to it; what named no article is in the pool or in the row without one |
| `RunCells.RunKnowsCampaigns` | `common/article_economics.py:258-264` | an advertising record finds its campaign exactly when an earlier payload of the run charged it |
| `RunCells.RunMonths` | `common/article_economics.py:209-315` | over every Ozon run each sale month of each article, and each month of its foreign sales, holds what was booked for it |
| `BuyoutEffects.RunRemembersAmounts` | `common/article_economics.py:237-242` | over every Ozon run the amounts a report finds for a pair are those of all earlier positive lines of the pair, added up |
| `BuyoutEffects.ReceiptsOfARun` | `common/article_economics.py:209-318` | over every Ozon run the receipts taken in are one for each distinct record without a domestic sale, and one more for each pair that an accrual sold after its report |
| `BuyoutEffects.ExactlyOnceIff` | `common/article_economics.py:209-318` | every pair takes effect exactly once exactly when no accrual sells a pair that a report had brought as a new sale; the receipts are right exactly when those of the other pairs cancel out |
| `BuyoutEffects.BuyerMoneyOfARun` | `common/article_economics.py:209-345` | buyer revenue of every Ozon run: the buyer money of all payloads, one receipt per distinct record without a domestic sale, and the receipts of the pairs booked twice |
| `BuyoutEffects.ReportThenAccrual` | `common/article_economics.py:222-242` | the input at which exactly-once fails: any report of a pair followed by any accrual that sells it books the pair twice |
| `BuyoutEffects.OneSaleCountsAs200` | `common/article_economics.py:222-318` | a concrete one: a sale of 100 counts as 200 |
| `BuyoutLedger.FinishedRunIsSeen` | `common/article_economics.py:286-292` | a finished run remembers all its records and forgets none |
| `BuyoutLedger.RepeatsOnlyCount` | `common/article_economics.py:287-291` | records seen before in the same form change the overlap counter and nothing else |
| `BuyoutLedger.AddingAgainOnlyCounts` | `common/article_economics.py:282-291` | adding a finished report again only counts its records |
| `BuyoutLedger.RunKeepsBooksSound` | `common/article_economics.py:282-318` | any run of honest records keeps all the invariants of the books |
| `AccrualEconomicsClass.AccrualEconomics.AddBuyouts` | `common/article_economics.py:282-318` | refuses exactly the unreadable reports without a change; otherwise books the records in order up to a conflict |
| `AccrualEconomicsClass.AccrualEconomics.AddBuyout` | `common/article_economics.py:286-318` | one record: repeated, conflicting, moved from RF to CIS, or booked with its own amounts |
| `Settlement.AllocateKeepsTheNet` | `common/article_economics.py:320-328` | moving the pool into the row without an article leaves the difference between re-scan and raw total alone |
| `AccrualEconomicsClass.AccrualEconomics.Allocate` | `common/article_economics.py:320-328` | returns the old pool, empties it, and refuses exactly when the books miss the raw total by more than a cent |
| `Settlement.BindMovesMarketing` | `common/article_economics.py:330-345` | each article gains its own linked cost, the row without an article loses all of it, and the net does not change |
| `AccrualEconomicsClass.AccrualEconomics.BindAdCosts` | `common/article_economics.py:330-345` | returns the linked cost and the matched campaigns, and refuses exactly when the books do not reconcile |
| `Settlement.StandardPostsItsNet` | `common/article_economics.py:416-442` | a normalised sale posts exactly what it adds to the raw total |
| `AccrualEconomicsClass.AccrualEconomics.AddStandardizedSale` | `common/article_economics.py:416-442` | the method leaves the books the postings of the sale describe |
| `Settlement.WbLineLeavesTheOverpayment` | `common/article_economics.py:347-414` | for every realisation line the books miss the raw total by exactly the payment above the seller amount, with opposite signs for sales and returns |
| `SettlementCells.WbLineBooks` | `common/article_economics.py:347-414` | each cell of each article after a realisation line: the sale or return with quantity, amounts and commission, and each charge on its own column of the line's own article |
| `SettlementCells.WbLinePays` | `common/article_economics.py:347-414` | what a realisation line adds to the raw total |
| `SettlementCells.StandardSaleBooks` | `common/article_economics.py:416-442` | each cell of each article after a normalised sale |
| `AccrualEconomicsClass.AccrualEconomics.AddWbRealizationRow` | `common/article_economics.py:347-414` | the method leaves the books the postings of the line describe |
| `Settlement.ReconcileMeetsTheTarget` | `backend/app/services/article_economics_service.py:342-358` | the step that meets the finance mart sets the raw total to the target and leaves the gap unchanged |
| `SettlementCells.ReconcileBooks` | `backend/app/services/article_economics_service.py:342-358` | and books the missing amount on one cell of the row without an article |
| `Settlement.RunDriftsByOverpayments` | `common/article_economics.py:209-442` | over every run of operations in any order the re-scan drifts from the raw total by exactly the overpayments and by nothing else |
| `Settlement.RunWithoutWbBalances` | `common/article_economics.py:209-345` | without realisation lines the books balance exactly after any run, so neither reconciliation error can be raised |
| `Settlement.RunReconcilesIff` | `common/article_economics.py:326-327` | with realisation lines the check passes exactly when return and sale overpayments are within a cent of each other |
| `Settlement.OverpaidSaleDoesNotReconcile` | `common/article_economics.py:347-414` | a concrete line at which it fails: a sale of 100 paid with 150 |
| `OzonRuns.OzonRunKeepsBooksSound` | `common/article_economics.py:209-345` | after every sequence of Ozon operations the books balance, every total is RF plus CIS, and sale months add up to buyer revenue |
| `OzonRuns.AddBooksBuyerMoney` | `common/article_economics.py:222-229` | a payload raises buyer revenue by the buyer money of its lines |
| `OzonRuns.BuyerMoneyFollowsReceipts` | `common/article_economics.py:295-318` | over any run of buyouts buyer revenue grows by the receipts taken in |
| `OzonRuns.AddRemembersSales` | `common/article_economics.py:237-242` | a payload makes exactly the sales it holds known to later reports |
| `OzonRuns.AddRemembersAmounts` | `common/article_economics.py:237-242` | and adds to what is known of a pair exactly the amounts of its own positive lines of the pair |
| `FunnelEconomics.ConflictIff` | `common/article_economics.py:287-289` | a run of distinct records conflicts exactly when one of them contradicts what was seen before |
| `FunnelEconomics.ReportOutcome` | `common/funnel_economics.py:67-83` | an acceptable report is booked exactly when its lines fit what was seen, and what is seen afterwards is that and its lines |
| `FunnelEconomics.ReportBooked` | `common/funnel_economics.py:75-83` | a report without domestic lines keeps the day's books sound and raises buyer revenue by the receipts of the records newly seen |
| `FinanceDays.BookRecord` | `common/funnel_economics.py:62-64` | an accrual goes to the ledger of its account and of the first ten characters of its date, and to no other |
| `DayBooks.RecordKeepsLedgers` | `common/funnel_economics.py:62-64` | the cells, pool and articles of that ledger grow by what the payload says, and every other ledger stays |
| `DayBooks.ReportKeepsLedgers` | `common/funnel_economics.py:67-83` | a report adds to the ledger of its own day the records that it is the first of the account's reports to name, and changes no other |
| `FinanceDays.PreparedEngine` | `common/funnel_economics.py:67-76` | before a report the day's ledger knows every domestic sale and every earlier record of its account |
| `FinanceDays.BookReport` | `common/funnel_economics.py:67-83` | lines with a domestic sale are left out; the report is then booked on its day or refused |
| `FinanceDays.FinanceDays` | `common/funnel_economics.py:57-109` | fails exactly when a report is unreadable or two lines of an account contradict each other; otherwise every day reconciles, an account's buyer money over all days counts each foreign record once, and the ledgers and the rows of the result are those of the days of records and reports, each cell holding what the records of that day say and the foreign sales first reported on it |
| `FinanceDays.ResultShowsTheDays` | `common/funnel_economics.py:85-108` | which rows the result has, and sold, returned, revenue, buyer money and marketplace cost of each, from the records and reports alone |
| `Allocation.ToCentsIsNearest` | `backend/app/services/daily_pnl_service.py:28` | rounding gives the nearest whole cent and, of two equally near, the one further from zero |
| `Allocation.SumOfShares` | `backend/app/services/daily_pnl_service.py:22-28` | the exact shares make up the amount for any weights that are not empty |
| `Allocation.PartsAddUp` | `backend/app/services/daily_pnl_service.py:22-31` | the parts sum to the amount, for all amounts and signed weights with at least one weight |
| `Allocation.PartsAreNearTheirShares` | `backend/app/services/daily_pnl_service.py:22-31` | every part but the last is a whole cent within half a cent of its share, the last within half a cent for each of the others, and whole cents are shared in whole cents |
| `Allocation.SharesFollowWeights` | `backend/app/services/daily_pnl_service.py:22-28` | shares stand in the ratio of the weights, and weights that cancel out share equally |
| `Allocation.Allocate` | `backend/app/services/daily_pnl_service.py:22-31` | the loop and the correction of the last element compute these parts; no weights give no parts |
| `Expenses.SameSelection` | `backend/app/services/article_economics_service.py:519-522` | the period and the daily report select the same expenses, although one compares months and the other the first and last day of months |
| `Calendar.FourDaysAfterThe28th` | `backend/app/services/daily_pnl_service.py:296` | four days after the 28th it is always the next month |
| `Expenses.Create` | `backend/app/models/pnl.py:27-36` | a stored expense keeps its month equal to the month of its date; refused exactly without any period or when month and date disagree |
| `Expenses.Update` | `backend/app/services/pnl_service.py:87-115` | updating an expense kept in its month keeps it there: a dated expense moves only by a new date, and a month that disagrees with its date is refused |
| `Expenses.PeriodShare` | `backend/app/services/article_economics_service.py:528-553` | what one expense adds to a period, with its three cases, is the sum over the days of the period of what it puts on each |
| `Expenses.PeriodExternal` | `backend/app/services/article_economics_service.py:517-553` | the external total of a period is the sum over its days of the daily totals, for every list of expenses and every pair of days |
| `Expenses.DailyExternal` | `backend/app/services/daily_pnl_service.py:298-312` | one pass over the expenses gives every day the total of what the expenses put on it |
| `Expenses.DayTakesAnEqualPart` | `backend/app/services/daily_pnl_service.py:306-312` | every day of an undated expense's month takes the nearest cent of an equal part, and the last day what is left |
| `Expenses.AdjacentPeriodsAddUp` | `backend/app/services/article_economics_service.py:517-553` | two adjacent periods make up the period they form, when every dated expense is kept in its month |
| `Expenses.PeriodsAddUpIff` | `backend/app/services/article_economics_service.py:519-536` | for a single expense being kept in its month (or being zero) is exactly what adjacent periods need |
| `Expenses.MisplacedExpense` | `backend/app/services/article_economics_service.py:519-536` | the periods at which any other expense fails: from its date to its month, or back |
| `StrayExpenses.ListAddsUpIff` | `backend/app/services/article_economics_service.py:517-553` | a list adds up over all adjacent periods exactly when its expenses dated outside their months cancel out for every stretch of days that a period must hold to count them |
| `StrayExpenses.NeighboursCancel` | `backend/app/services/article_economics_service.py:517-553` | expenses of different dates and months can cancel out: one on the last day of a month for the next month, one on the first day of that month for the month before |
| `Expenses.SpreadTaxes` | `backend/app/services/daily_pnl_service.py:273-296` | every account with tax switched on carries on the days of every month exactly that month's tax, confirmed or estimated, each day its cent-exact share by buyer money; other accounts and days carry none, and a bad rate is refused exactly when an estimate is needed |
| `Expenses.DueIs` | `backend/app/services/daily_pnl_service.py:281-293` | the tax of a month: as confirmed, or the nearest cent of the rate's percentage of what buyers paid on its days, and nothing on a loss |
| `ArticleEngine.RunKeepsSound` | `common/article_economics.py:571-729` | after any run the running total is the scan over all articles, every offer index entry names a registered article, and articles stand under their own keys |
| `ArticleEngine.ResolveTwice` | `common/article_economics.py:612-617` | resolving is idempotent and a known offer resolves to a registered article |
| `ArticleEngine.RunHoldsTheMoney` | `common/article_economics.py:671-706` | attributed plus unallocated money differs from the money taken in by less than half a cent for each accrual operation, and not at all without one |
| `EngineCells.RunBooksTheCell` | `common/article_economics.py:571-725` | after every run each quantity and amount of each article is the sum of what the movements and the advertising that lead to it brought |
| `EngineCells.RunFillsThePools` | `common/article_economics.py:671-729` | after every run each account's pools hold exactly the unexplained parts of its own operations of half a cent or more, its fees without an article, and its advertising without one |
| `EngineCells.RunKnowsTheCost` | `common/article_economics.py:571-610` | the cost of an article is the last positive one of its cards |
| `EngineCells.RunKeepsNames` | `common/article_economics.py:571-610` | an article keeps the offer, title and image that it once has |
| `EngineCells.RegisteredOfferLeads` | `common/article_economics.py:607-617` | an offer leads to the article it was last registered with, unless it is an article number itself |
| `Text.StripSplits` | `common/article_economics.py:582-617` | trimming takes white space from both ends and leaves none there |
| `StreamingEngine.ArticleEconomicsEngine.RegisterCard` | `common/article_economics.py:571-610` | registers or enriches a card in place and indexes its offer |
| `StreamingEngine.ArticleEconomicsEngine.AddLineMovement` | `common/article_economics.py:619-669` | moves one article and the running total, and returns the exact delta |
| `StreamingEngine.ArticleEconomicsEngine.ProcessAccrualOperation` | `common/article_economics.py:671-702` | applies the lines in order and keeps an unexplained rest of half a cent or more with the account |
| `StreamingEngine.ArticleEconomicsEngine.AddSkuAdCost` | `common/article_economics.py:708-725` | adds the absolute advertising cost to its article |
| `ArticleShares.SharesSumToOne` | `common/article_economics.py:765-770` | the shares of an account's active articles sum to one exactly, and to zero without any |
| `ArticleShares.OrgSharesSumToOne` | `common/article_economics.py:772-775` | the shares of the organisation sum to one when any article is active |
| `ArticleShares.PoolsAreSharedOut` | `common/article_economics.py:785-789` | every pool of an account with an active article is shared out exactly, and the other pools stay idle |
| `ArticleShares.AccountTakesItsOwn` | `common/article_economics.py:785-799` | the rows of every account with an active article take exactly the overhead, the unattributed advertising and the absolute tax of that account, another account nothing |
| `ArticleShares.ChargesAreSharedOut` | `common/article_economics.py:785-812` | over all accounts these charges are shared out in full wherever an article is active, and indirect expenses in full to the organisation |
| `ArticleShares.ReportHoldsTheMoney` | `common/article_economics.py:741-786` | the exact net accrual of the report is the money the engine holds less that of inactive articles and of idle accounts |
| `ArticleShares.ProfitIsWhatRemains` | `common/article_economics.py:801-811` | net profit is net accrual less cost of goods, advertising, indirect expenses and taxes, row sums included |
| `ReportColumns.RowsShowArticles` | `common/article_economics.py:741-852` | the rows of a report are those of the articles that take part, and each shows every column of its article to the nearest cent, cost of goods as cost times sold less returned, with margin, markup, unit cost and missing cost |
| `ReportColumns.FigureIs` | `common/article_economics.py:785-811` | every figure as an expression in the article, its shares and the closing |
| `ReportColumns.GoodsCostOf` | `common/article_economics.py:795-799` | an article whose sales all came back costs nothing, neither does one without a known cost, and every unit that comes back takes its cost with it |
| `ReportColumns.SharesAre` | `common/article_economics.py:765-775` | an article's share times the positive net revenue of the account, or of all, is its own; without any revenue all shares are equal |
| `ReportColumns.ReportedTotals` | `common/article_economics.py:854-869` | each reported total is within half a cent per active article of the sums over articles and taken pools: cost of goods, advertising, taxes, indirect expenses and the profit that is left |
| `ReportColumns.MissingAre` | `common/article_economics.py:792-793` | offers without a cost are those of articles sold or returned without a positive cost |
| `ArticleShares.ReturnsAloneAreNotReported` | `common/article_economics.py:742-752` | a concrete run whose money appears in no row: returns without a quantity do not make an article active |
| `ArticleReport.Round2IsNearest` | `common/article_economics.py:828-848` | rounding gives the nearest whole cent and the even one of two equally near |
| `ArticleReport.RoundingIsBounded` | `common/article_economics.py:817-852` | every column of the rounded rows is within half a cent per row of the exact total |
| `ArticleReport.MergeKeepsTotals` | `common/article_economics.py:872-931` | merging rows over accounts keeps the total of every column of amounts exactly |
| `ArticleReport.MergeKeepsQuantities` | `common/article_economics.py:883-899` | and the quantities sold, returned and net |
| `ReportColumns.MergedRowShows` | `common/article_economics.py:883-929` | what a merged row shows of its group: sums, quantities, margin, markup, unit cost |
| `ReportColumns.TitleIs` | `common/article_economics.py:895` | the title of a merged row is the first of its group that is not empty |
| `ReportColumns.GroupsAreOffers` | `common/article_economics.py:874-878` | a group holds exactly the rows of one marketplace and offer, and every row has one |
| `ReportColumns.ItemsCarryClasses` | `common/article_economics.py:963-983` | every item carries the class by net revenue and the class by net profit of its key |
| `ReportColumns.ItemsAreOrdered` | `common/article_economics.py:984` | items come by net revenue and then by net profit, the highest first |
| `ArticleReport.ReportHoldsTheQuantities` | `common/article_economics.py:741-869` | the report shows exactly the quantities of the active articles, merged or not |
| `ArticleReport.TotalsAreWithinHalfACentPerRow` | `common/article_economics.py:854-869` | each reported total is within half a cent per active article of the exact one, merged or not |
| `ArticleReport.RowsHaveDistinctKeys` | `common/article_economics.py:781-852` | rows that are not merged never share the key under which classes are kept |
| `ArticleReport.LastPlaceDecides` | `common/article_economics.py:934-961` | whatever the rows, the class kept for a key is that of the last place in the descending order that holds the key |
| `ArticleReport.ClassesFollowTheOrder` | `common/article_economics.py:934-961` | so that with distinct keys every row gets the class of its own place |
| `ArticleReport.MergedKeysAreDistinctIff` | `common/article_economics.py:872-900` | merging keeps keys distinct exactly when no two groups of several rows of one marketplace begin with the same SKU |
| `ArticleReport.MergedClassIsOverwritten` | `common/article_economics.py:896-960` | a concrete report whose first merged row, with 80% of the revenue, ends in class C because the second one has its key |
| `ArticleReport.AccountWeights` | `common/article_economics.py:754-763` | the revenue weights, the counts and their total computed in one pass |
| `ArticleReport.BuildRows` | `common/article_economics.py:777-852` | one pass builds the rounded rows and the set of offers without a cost |
| `ArticleReport.MergeAcrossAccounts` | `common/article_economics.py:872-931` | groups in order of appearance and merges each group of more than one row |
| `ArticleReport.Classify` | `common/article_economics.py:939-961` | the running share assigns the classes of one metric |
| `ArticleReport.Finish` | `common/article_economics.py:731-869` | the whole report from the registered articles |
| `StreamingEngine.ArticleEconomicsEngine.Finalize` | `common/article_economics.py:731-869` | the report of the current state; the engine is not changed |
| `Sorting.SortedIsStable` | `common/article_economics.py:943-947` | sorting keeps the elements, orders them, and leaves equal ones as they stood |
| `Abc.EngineClassIs` | `common/article_economics.py:948-960` | class A is the longest prefix not above 80% of the total, A and B the longest not above 95% |
| `Abc.ClassesNeverImprove` | `common/article_economics.py:948-960` | classes never improve down the order |
| `Abc.ServiceClassIs` | `backend/app/services/article_economics_service.py:643-653` | class A is the shortest prefix that reaches 80% of the total, A and B the shortest that reaches 95% |
| `ServiceAbc.Classify` | `backend/app/services/article_economics_service.py:633-655` | every row gets its letter: unknown without a metric, C without a positive one, otherwise by its place |
| `QueryCacheProtocol.RunKeepsSound` | `backend/app/services/query_cache.py:85-125` | in every interleaving, an entry of the current generation was computed after the last bump |
| `QueryCacheProtocol.AnswersCoverBumpedWrites` | `backend/app/services/query_cache.py:85-125` | every answer holds every write whose bump completed before the read, and nothing not yet written |
| `QueryCacheProtocol.HitsAreFresh` | `backend/app/services/query_cache.py:98-113` | a hit returns rows whose computation started after the last bump, and exactly the current rows while nothing was written since |
| `QueryCacheProtocol.SlowReadersOnlyCauseMisses` | `backend/app/services/query_cache.py:115-125` | a reader overtaken by a bump may store its rows, but they only cause a miss |
| `QueryCacheProtocol.LostBumpAllowsAStaleHit` | `common/query_cache.py:27-33` | a bump lost to a store error leaves a write invisible: a concrete run with a stale hit |
| `QueryCaches.BumpGeneration` | `common/query_cache.py:27-33` | counts by one, or swallows the error and returns nothing |
| `QueryCaches.QueryCache.GetOrCompute` | `backend/app/services/query_cache.py:85-125` | how a request ends, what it returns, what it stores and for how long it switches the cache off, in all six cases |
| `QueryCaches.RequestIsARunOfSteps` | `backend/app/services/query_cache.py:85-125` | whatever went on before, a request as its method promises it, in each of its six endings, takes the protocol on by a named list of steps with the same answer and the same entries |
| `QueryCaches.ErrorsAreHalfAMinuteApart` | `backend/app/services/query_cache.py:68-75` | however threads interleave, a check passes only when every error before it is thirty seconds old, and then it does |
| `RateLimit.TokenBucket.Consume` | `backend/app/core/ratelimit.py:36-45` | refills by elapsed time up to the burst, then takes the tokens or refuses |
| `RateLimit.WindowIsBounded` | `backend/app/core/ratelimit.py:28-45` | over any run, between any two instants a bucket admits at most its burst and the tokens earned in between |
| `RateLimit.SpacedIsNeverRefusedIff` | `backend/app/core/ratelimit.py:28-45` | a new client whose requests lie one token apart is never refused, exactly when the burst is at least one |
| `RateLimit.BurstIsAdmitted` | `backend/app/core/ratelimit.py:28-45` | a new client may spend its whole burst at any pace |
| `RateLimit.AdmitsWhatItHolds` | `backend/app/core/ratelimit.py:36-45` | of any number of requests at one instant a bucket lets through exactly as many as it holds whole tokens then |
| `RateLimit.RestIsEarned` | `backend/app/core/ratelimit.py:36-45` | after any requests and a pause it lets through at once every whole token that the pause earned, up to its burst |
| `ClientLimits.ClientBuckets.Track` | `backend/app/core/ratelimit.py:58-67` | finds or creates the client's bucket, moves it to the end and drops the first one when there are too many |
| `ClientLimits.ClientBuckets.Consume` | `backend/app/core/ratelimit.py:58-68` | serves a request from the client's own bucket and changes no other |
| `ClientLimits.TrackedAreTheMostRecent` | `backend/app/core/ratelimit.py:48-68` | at every moment the tracked clients are the most recently seen ones, in that order and never more than allowed |
| `ClientLimits.StaysTrackedIff` | `backend/app/core/ratelimit.py:58-67` | a client stays tracked exactly as long as fewer than the allowed number of distinct others came since its last request |
| `ClientLimits.OwnBucket` | `backend/app/core/ratelimit.py:58-68` | while it stays tracked a client's bucket depends on its own requests only |
| `ClientLimits.ClientWindowIsBounded` | `backend/app/core/ratelimit.py:48-68` | in any run a client that is never displaced is let through at most its burst and the tokens earned between any two instants |
| `ClientLimits.SpacedClientIsNeverRefusedIff` | `backend/app/core/ratelimit.py:28-68` | whatever other clients do and however often they displace it, a client whose requests lie one token apart is never refused, exactly when the burst is at least one |
| `ClientLimits.BoundedForIff` | `backend/app/core/ratelimit.py:48-68` | in every window of every run a client is let through at most its burst and the tokens earned, exactly up to as many distinct clients in the window as there are places |
| `ClientLimits.DisplacementRefills` | `backend/app/core/ratelimit.py:60-65` | a displaced client starts again with a full bucket: for every number of places and every burst, one client more than there are places, in rotation at one moment, and each is let through as often as it asks |
| `SqlSplit.TakesBackADash` | `warehouse/apply_migrations.py:118-122` | whatever was read, taking a character back removes the first dash of the comment sign |
| `SqlSplit.SplitSqlStatements` | `warehouse/apply_migrations.py:102-142` | the character loop over buffer and flags computes the split |
| `SqlSplit.SplitUndoesJoin` | `warehouse/apply_migrations.py:102-142` | splitting gives back any list of trimmed, non-empty statements with closed quotes and no top-level semicolon or comment sign that was joined by semicolons |
| `SqlSplit.CommentIsUnnoticedIff` | `warehouse/apply_migrations.py:111-122` | a line comment at the end of a line leaves the statements as they are exactly when it stands in another comment, or outside quotes and not directly behind a dash |
| `SqlSplit.CommentAfterADash` | `warehouse/apply_migrations.py:118-122` | behind a dash the comment takes the dash away from its statement |
| `Migrations.RunKeepsPrefix` | `warehouse/apply_migrations.py:415-529` | after every journal write of any sequence of runs, failed and interrupted ones included, the applied versions are a prefix of the manifest |
| `Migrations.ApplyReachesItsTarget` | `warehouse/apply_migrations.py:415-457` | a successful application ends with what was applied and every migration up to the target, and repeating it writes nothing |
| `Migrations.RollbackReachesItsTarget` | `warehouse/apply_migrations.py:479-529` | a successful rollback leaves exactly the applied migrations up to its target |
| `Migrations.RollbackUndoesApply` | `warehouse/apply_migrations.py:415-529` | rolling back to where the database stood undoes a successful application |
| `Migrations.HistoryStays` | `warehouse/apply_migrations.py:394-412` | while the files do not change, no sequence of writes makes the journal differ from them |
| `MigrationHistory.ApplyStopsIff` | `warehouse/apply_migrations.py:394-431` | an application stops over its history, and writes nothing, exactly when some version's newest row is applied and its file is gone or has another checksum than the one recorded |
| `MigrationHistory.RollbackStopsIff` | `warehouse/apply_migrations.py:394-498` | so does a rollback that has a target and is not refused |
| `MigrationLaws.EditIsFound` | `warehouse/apply_migrations.py:394-457` | after a finished application, changing or removing the file of any applied migration stops the next one |
| `MigrationLaws.ApplyBegins` | `warehouse/apply_migrations.py:434-455` | an application begins exactly the pending migrations within its target, in order, up to and with the first that fails |
| `MigrationLaws.RollbackWorks` | `warehouse/apply_migrations.py:499-526` | a rollback reverts exactly the applied migrations above its target from the newest down, up to the first that fails, or refuses when one has no script |
| `MigrationRunner.Warehouse.Record` | `warehouse/apply_migrations.py:276-299` | appends one row with a later stamp |
| `MigrationRunner.Warehouse.LoadJournal` | `warehouse/apply_migrations.py:258-269` | the newest row of every version |
| `MigrationRunner.CheckHistory` | `warehouse/apply_migrations.py:394-412` | passes exactly when every applied version is on disk with the recorded checksum or none was recorded |
| `MigrationRunner.Warehouse.ApplyOne` | `warehouse/apply_migrations.py:460-476` | started, then applied or failed |
| `MigrationRunner.ApplyMigrations` | `warehouse/apply_migrations.py:415-457` | writes what the plan says: skips, baselines, stops at the target or at the first failure |
| `MigrationRunner.RollbackMigrations` | `warehouse/apply_migrations.py:479-529` | the refusals in their order, then the reverts from the newest down and the list of what was reverted; a failing script leaves no row |
| `MigrationLock.CleanRunsAreExclusive` | `warehouse/apply_migrations.py:313-355` | however runs interleave, fail, crash and take locks over, at most one is inside as long as no lock is dropped under a run that holds it |
| `MigrationLock.DropIsSafeIff` | `warehouse/apply_migrations.py:331-335` | a stale lock can be dropped without letting two runs in later, by whatever steps with clean drops, exactly when no run holds it at the drop |
| `MigrationLock.CleanIff` | `warehouse/apply_migrations.py:313-355` | for every run: all its drops are clean exactly when each of its moments, continued in any way with clean drops, has at most one run inside |
| `MigrationLock.SoleTakersAreExclusive` | `warehouse/apply_migrations.py:329-335` | what the time to live is for: taking over locks of crashed runs, one taker at a time, lets at most one run in |
| `MigrationLock.SoleTakerGetsIn` | `warehouse/apply_migrations.py:313-335` | and the only taker of a lock that nobody holds does get in |
| `MigrationLock.AtMostOneInside` | `warehouse/apply_migrations.py:313-355` | in particular, at most one run is inside while no age check finds the lock stale |
| `MigrationLock.SlowHolderIsJoined` | `warehouse/apply_migrations.py:331-335` | taking over the lock of a merely slow run lets two in: a concrete run |
| `MigrationLock.TwoTakersJoin` | `warehouse/apply_migrations.py:331-335` | two runs that both find a crashed run's lock stale can both get in: a concrete run |
| `Circuit.JsonHttpClient.CheckCircuit` | `collectors/common/http_client.py:108-117` | blocks before the open time, closes and clears the count after it |
| `Circuit.JsonHttpClient.RecordFailure` | `collectors/common/http_client.py:123-126` | counts, and opens from the threshold on |
| `Circuit.JsonHttpClient.Request` | `collectors/common/http_client.py:150-309` | the retry loop with its early exits; the end of the loop is never reached |
| `Circuit.RunKeepsSound` | `collectors/common/http_client.py:108-126` | for every sequence of replies and clock readings the breaker is open exactly when the failures in a row reach the threshold |
| `Circuit.SendsAsAllowed` | `collectors/common/http_client.py:150-309` | nothing is sent before the open time is over; otherwise between one and the maximum of requests, all but the last retriable |
| `Circuit.CallEndsAt` | `collectors/common/http_client.py:150-309` | which replies are tried again, by status code, and how the first one that is not ends the call |
| `Circuit.CountAfterCall` | `collectors/common/http_client.py:119-126` | one call changes the count once: a readable success clears it, an unreadable one leaves one failure, any other failure adds one |
| `Circuit.OpensForTheResetTime` | `collectors/common/http_client.py:123-126` | the breaker opens at the threshold for the reset time from that failure |
| `Circuit.FailuresAddUp` | `collectors/common/http_client.py:119-126` | as many failing calls in a row as the threshold open the breaker, and not one fewer: error statuses, transport errors, value errors, and an unreadable success at the start |

## Left out

- Floats: `canonicalize` of floats, NaN and the equality of 1 and 1.0; documents hold null, booleans, integers, strings, lists and objects. The float arithmetic of the streaming engine and of the token buckets is exact here.
- `canonicalize` of database types, `dump`, `object_hash` and `commit_id`: rendering and hashing; documents are already canonical.
- Printed paths in the diff: a key with a dot makes them ambiguous, so edits are addressed by structured paths and printed for the order of the list. `IgnoredPaths` matches printed paths, as the program does; the match itself is an arbitrary predicate.
- DocumentDiff.DiffFields: visits the keys in an arbitrary order, which covers the sorted one; the same holds for DocumentDiff.DiffByIdentity. Entries with the same printed path therefore stand in any order in the sorted list.
- Lists that hold anything but objects are one value, as in the code: a reordering inside such a list is reported.
- Amount parsing (`number`) and the precision of decimals: amounts arrive parsed; a malformed amount that raises half-way through `add` is not modelled.
- AccrualEconomicsClass.AccrualEconomics.Add: requires a date when a line has a sale, because the code raises without one; what is booked before it raises is not modelled.
- BuyoutLedger.RunKeepsBooksSound: asks for records whose gross is receipt plus deduction, which is what the reader of the report produces.
- Digits outside ASCII in SKUs of the buyout report.
- FinanceDays.FinanceDays: the result is a map from account and day to rows by article, where the program makes one list and turns its numbers to floats. The record map shared between an account's ledgers is passed by value. Every accrual is required to carry a date.
- `metric_row`, card lookup, cost lookup and the totals row of the article report: unit averages and field mapping.
- Expenses.PeriodExternal: does not model the suppressed database errors around the query, after which the total is what was added so far.
- Calendar of the host language: `Calendar` counts days by itself, and `YearStart` shows that it counts as the Gregorian calendar does.
- Which accounts have tax switched on: an input of `SpreadTaxes`, as is the rate.
- ArticleReport.MergedKeysAreDistinctIff: asks for rows of which none belongs to an account called "all", the name that merged rows get.
- ArticleReport.Finish: the tax status and its flag pass through the report unchanged and are not modelled.
- QueryCaches.RequestIsARunOfSteps: a request that meets nobody else between its steps; the interleavings are those of the protocol.
- QueryCacheProtocol.RunKeepsSound: assumes that the generation counter is not lost; flushing the store while a reader is under way is not modelled. Time to live is expiry at any moment. Digests are taken as injective, so entries are keyed by the query itself.
- RateLimit.TokenBucket.Consume: the clock is a parameter that does not run backwards; threads that interleave between the lock of the list and the lock of a bucket are not modelled. Settings parsing and the middleware are left out.
- Migrations.RunKeepsPrefix: versions are compared by an abstract order; the manifest is required to ascend in it. File names whose stems sort differently from their paths are not modelled. Stamps increase with every write.
- MigrationRunner.ApplyMigrations: the effect of a script and its postconditions is success or failure; the SQL they run is not modelled.
- MigrationLock.AtMostOneInside: the manual `unlock` command is left out.
- `expected_objects`, `verify_manifest`, status printing and argument parsing of the migration script: regular expressions and tables.
- Circuit.JsonHttpClient.Request: delays, logging and redaction are left out; a client is used by one thread.
- Database queries, HTTP and Redis clients, task scheduling, routes, the front end, marketplace parsers, automation rules, encryption: plumbing and field mapping.
