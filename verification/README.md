# Double-entry ledger and the services around it

This project models the accounting core of a multi-tenant ERP: the journal and the services that post to it
(invoices, payments with their approval requests, payroll, end-of-service benefits, fixed assets), the reports
that read it back (trial balance, profit and loss, balance sheet, consolidation), bank reconciliation, stock at
weighted average cost, the chart of accounts and the fiscal calendar. `dafny verify dfyconfig.toml` checks it.

`Schema.dfy` has the tables: a row is a datatype, a table is the sequence of its rows, and the class `Database`
holds the tables as fields. Every service call is a method on a `Database` whose postcondition gives the whole new
state, refusals included, as a function of the old one; the properties are proved about those functions and about
runs of them. The modules follow the services. `LedgerBooks` and `AssetRegister` hold what postings and depreciation
keep true, `LedgerRuns` the runs of ledger events, and `ServiceRuns` the runs of every service that posts, each call
reduced to ledger events. `AccountBalances` tells every account's balance after such a run from the documents.

Money on its way to the database is an exact real number of cents and a stored column an integer, connected by
`Money.Round`. Dates are milliseconds since 1970 in UTC. A `$transaction` is one atomic step, and so is a service call.

Where the code does not do what its comments or names promise, the model does what the code does, and states exactly
when the promise holds:

- Storing at two decimals can leave an accepted entry out of balance (`JournalEntries.StoredGap`, `SlackReached`).
- Balances on the wrong side of an account break the accounting equation of the balance sheet by twice their amount
  (`Reports.AccountingEquation`).
- Rejecting a request resets a payment that was approved past the request, which can then be posted again
  (`Payments.PostedExactly`, `RejectionPostsTwice`).
- A payment that lists an invoice twice settles only its last allocation; a comment promises an increment
  (`Payments.AllocationExact`, `PaidAsAllocated`).
- A payroll run whose insured salaries leave 5 modulo 10 cents can never be approved (`Payroll.ApprovalAccepted`), nor
  can an invoice whose line totals round apart (`Invoices.EntryBalances`, `CreatedAddsUp`).
- A payment with a rate and withheld tax, and an invoice with a rate, can be stored out of balance
  (`Payments.EntryStoredBalanced`, `Invoices.EntryStoredBalanced`).
- Auto-match run twice can match a transaction twice (`BankReconciliation.SecondRunRematches`,
  `TransactionMatchedTwice`).
- Transfers accept negative and fractional quantities and at half a place create stock
  (`Inventory.TransferConserves`, `TransferSound`).
- Seeding over existing accounts, and automatic opening, can mix account types in a tree (`ChartOfAccounts.SeedTypes`,
  `AccountTree.RunKeeps`).
- The last depreciation instalment can be negative (`FixedAssets.LastInstalmentSign`).
- Depreciation numbers repeat within a year outside the years 0 to 9999, and the unique index then ends the run
  (`Numbers.DepreciationNumberEqual`, `LedgerRuns.DepreciationRefused`).
- The accrual of the month in which an employee completes five years exceeds the growth of the entitlement
  (`Eosb.AccrualIsGrowth`), and payroll credits other deductions to the provision's account, code 2150
  (`Payroll.OtherDeductionsMove`).
- Reopening a period of a closed fiscal year makes its dates take postings (`FiscalYears.ReopeningUndoesClosing`).

## Model

| member | source | states |
|---|---|---|
| `Money.Round` | apps/api/prisma/schema.prisma:496-497 | a two-decimal column keeps the nearest whole number of cents, halves away from zero; the three clauses leave one possible value |
| `Money.RoundParts` | apps/api/prisma/schema.prisma:1003-1007 | two nonnegative parts of a whole amount are stored as parts of it, except that both go up when both end on half a cent |
| `Numbers.EntryNumberInjective` | apps/api/src/modules/accounting/journal-entries/journal-entries.service.ts:81 | equal journal or reversal numbers have the same series, year and count, also once the count has outgrown its four padded digits |
| `Numbers.DepreciationNumberEqual` | apps/api/src/modules/accounting/fixed-assets/fixed-assets.service.ts:118 | two depreciation numbers are equal exactly when they have one asset code and, in the years 0 to 9999, one month, otherwise one year |
| `Numbers.SeriesDisjoint` | apps/api/src/modules/accounting/fixed-assets/fixed-assets.service.ts:118 | no `JE` or `REV` number is ever a `DEP` number, whatever the asset code |
| `Numbers.MonthNameInjective` | apps/api/src/modules/accounting/fiscal-years/fiscal-years.service.ts:52-58 | a period name determines its month and year |
| `Numbers.NumberFormat` | apps/api/src/modules/accounting/fixed-assets/fixed-assets.service.ts:118 | the seventh entry of 2026 is JE-2026-0007 and the depreciation of asset FA1 for July DEP-FA1-2026-07 |
| `Calendar.AddMonthLater` | apps/api/src/modules/accounting/fiscal-years/fiscal-years.service.ts:44-45 | adding a month adds the days of the current month and lands in the next month or, on day overflow, the one after |
| `Calendar.YearLength` | apps/api/src/modules/accounting/fiscal-years/fiscal-years.service.ts:43-49 | a year has 366 days if it is divisible by four and not by a hundred, or by four hundred, and 365 otherwise; the epoch is the first instant of 1970 |
| `ChartOfAccounts.CreateAccount` | apps/api/src/modules/accounting/chart-of-accounts/chart-of-accounts.service.ts:16-50 | refuses a taken code, a foreign or missing parent and a parent of another type, in that order, and otherwise appends exactly the requested account |
| `ChartOfAccounts.CreatedExactly` | apps/api/src/modules/accounting/chart-of-accounts/chart-of-accounts.service.ts:16-38 | creation is accepted if and only if the tenant has no account with the code and a named parent is the tenant's and of the same type |
| `ChartOfAccounts.PostableExactly` | apps/api/src/modules/accounting/chart-of-accounts/chart-of-accounts.service.ts:98-117 | postings are taken by exactly the active accounts of the tenant that have no children |
| `ChartOfAccounts.CreateKeeps` | apps/api/src/modules/accounting/chart-of-accounts/chart-of-accounts.service.ts:25-38 | creation keeps codes unique, parents earlier and of the same tenant, and types equal along parent links |
| `ChartOfAccounts.SeedSmeTemplate` | apps/api/src/modules/accounting/chart-of-accounts/chart-of-accounts.service.ts:119-193 | the loop over the template through the code map leaves the chart that adding the missing rows one by one, each under the account of its parent code, gives |
| `ChartOfAccounts.IndexByCode` | apps/api/src/modules/accounting/chart-of-accounts/chart-of-accounts.service.ts:158-161 | the map of existing accounts finds exactly the tenant's accounts by code |
| `ChartOfAccounts.SeededKeeps` | apps/api/src/modules/accounting/chart-of-accounts/chart-of-accounts.service.ts:163-185 | seeding any well-formed chart never misses a parent nor repeats a code, and afterwards every template code exists |
| `ChartOfAccounts.SeedTypes` | apps/api/src/modules/accounting/chart-of-accounts/chart-of-accounts.service.ts:163-185 | seeding leaves types equal along parent links if and only if they were before and every missing row fits the account it is hung under |
| `AccountTree.SeedingCanMixTypes` | apps/api/src/modules/accounting/chart-of-accounts/chart-of-accounts.service.ts:163-185 | a chart whose 1000 was opened as an expense gets mixed types from seeding |
| `ChartOfAccounts.EnsureAccount` | apps/api/src/modules/business/employee-profiles/eosb.service.ts:93-107 | finds the account of a code or opens it under the parent code, and returns it |
| `AccountTree.GetAccountTree` | apps/api/src/modules/accounting/chart-of-accounts/chart-of-accounts.service.ts:70-93 | the pass that pushes accounts into shared child lists leaves under each account exactly its listed children and on top exactly the accounts without a listed parent |
| `AccountTree.OccursOnce` | apps/api/src/modules/accounting/chart-of-accounts/chart-of-accounts.service.ts:78-90 | the forest holds each listed account exactly once and no other |
| `AccountTree.TreePlaced` | apps/api/src/modules/accounting/chart-of-accounts/chart-of-accounts.service.ts:78-90 | in any well-formed chart every node of every tree is under its own parent |
| `AccountTree.ForestTyped` | apps/api/src/modules/accounting/chart-of-accounts/chart-of-accounts.service.ts:78-90 | every tree has a single type if and only if types match along parent links |
| `AccountTree.RunKeeps` | apps/api/src/modules/accounting/chart-of-accounts/chart-of-accounts.service.ts:16-193 | after any run of creation, seeding and automatic opening, types match along parent links if and only if every opening fitted the account it was hung under |
| `AccountTree.SeededTakesOpenings` | apps/api/src/modules/business/payroll/payroll.service.ts:203-222 | in a chart seeded while empty the accounts that payroll and accruals open fit |
| `AccountTree.SeededChartFits` | apps/api/src/modules/accounting/chart-of-accounts/chart-of-accounts.service.ts:119-193 | a tenant seeded while empty keeps trees of one type through any creations and the openings of payroll and accruals |
| `AccountTree.TreeOfRun` | apps/api/src/modules/accounting/chart-of-accounts/chart-of-accounts.service.ts:16-193 | after any such run the tree view is a finite forest with each of the tenant's accounts exactly once, each under its own parent; every tree has one type if and only if every opening fitted |
| `AccountingPeriods.FindFirst` | apps/api/src/modules/accounting/accounting-periods/accounting-periods.service.ts:57-68 | the first of the tenant's periods that covers a date, and none only if none covers it |
| `AccountingPeriods.StatusDecides` | apps/api/src/modules/accounting/accounting-periods/accounting-periods.service.ts:77-95 | a change of status moves no date to another period, and decides on exactly the dates of its period whether they take postings |
| `FiscalYears.Create` | apps/api/src/modules/accounting/fiscal-years/fiscal-years.service.ts:14-83 | refuses dates out of order, a taken year name and a taken period name; otherwise appends the year and its generated periods |
| `FiscalYears.CreatedExactly` | apps/api/src/modules/accounting/fiscal-years/fiscal-years.service.ts:15-25 | a year is accepted if and only if it starts before it ends and neither its name nor a period name it brings is taken |
| `FiscalYears.GeneratePeriods` | apps/api/src/modules/accounting/fiscal-years/fiscal-years.service.ts:39-74 | the month loop with its early exit and the stretched last period produce the periods given in closed form |
| `FiscalYears.GeneratedOpen` | apps/api/src/modules/accounting/fiscal-years/fiscal-years.service.ts:51-62 | all its periods belong to it and are open, under the name of the month they start in |
| `FiscalYears.GeneratedPartitions` | apps/api/src/modules/accounting/fiscal-years/fiscal-years.service.ts:39-79 | for every start before its end the periods are nonempty, adjoin to the millisecond, begin at the start and stop at the end, under pairwise different names |
| `FiscalYears.LookupInYear` | apps/api/src/modules/accounting/accounting-periods/accounting-periods.service.ts:57-75 | of the periods of one year exactly one covers a date inside it and none a date outside, and the lookup returns that one |
| `FiscalYears.Close` | apps/api/src/modules/accounting/fiscal-years/fiscal-years.service.ts:97-123 | closes the year unless it is missing, foreign, closed already or has a period that is open or adjusting |
| `FiscalYears.ClosedExactly` | apps/api/src/modules/accounting/fiscal-years/fiscal-years.service.ts:98-117 | closing is accepted if and only if the year is the tenant's and open and all its periods are closed |
| `FiscalYears.ClosedYearRefuses` | apps/api/src/modules/accounting/fiscal-years/fiscal-years.service.ts:110-117 | when a year can be closed, no posting or reversal is accepted on a date that only its periods cover |
| `FiscalYears.ReopeningUndoesClosing` | apps/api/src/modules/accounting/accounting-periods/accounting-periods.service.ts:86-94 | reopening a period of a closed year makes its dates take postings again, while the year stays closed and cannot be closed once more |
| `JournalEntries.Create` | apps/api/src/modules/accounting/journal-entries/journal-entries.service.ts:33-116 | refuses with the first error in the order in which the code looks; otherwise stores exactly one numbered entry with its rounded lines |
| `JournalEntries.AcceptedExactly` | apps/api/src/modules/accounting/journal-entries/journal-entries.service.ts:34-65 | a request is accepted if and only if it has two lines, an open or adjusting period, one-sided nonnegative lines on accounts that take postings, and equal sums |
| `JournalEntries.PostedAs` | apps/api/src/modules/accounting/journal-entries/journal-entries.service.ts:69-104 | a posting adds one entry of the JE series and its lines in order, in cents, free for reconciliation and entered now |
| `JournalEntries.CreateReversal` | apps/api/src/modules/accounting/journal-entries/journal-entries.service.ts:118-196 | refuses a foreign, missing or reversed entry and a closed date; otherwise stores the exchanged lines under a new entry and links the original |
| `JournalEntries.ReversedExactly` | apps/api/src/modules/accounting/journal-entries/journal-entries.service.ts:124-132 | a reversal is accepted if and only if the entry is the tenant's and not reversed and the date's period is not closed |
| `JournalEntries.ReversedAs` | apps/api/src/modules/accounting/journal-entries/journal-entries.service.ts:149-192 | a reversal adds one entry of the REV series, is linked from the original, which cannot be reversed again, and changes no other entry |
| `JournalEntries.AcceptedOneSided` | apps/api/src/modules/accounting/journal-entries/journal-entries.service.ts:49-60 | lines that pass the check have one side, nothing negative, and accounts that take postings |
| `JournalEntries.RoundingDrift` | apps/api/src/modules/accounting/journal-entries/journal-entries.service.ts:91-97 | storing n one-sided lines moves the gap by at most half a cent each, the full amount only if one side is empty |
| `JournalEntries.StoredGap` | apps/api/src/modules/accounting/journal-entries/journal-entries.service.ts:42-97 | an accepted entry of n lines is stored with a gap of at most (n - 1) / 2 cents rounded down, so two lines exactly balanced |
| `JournalEntries.SlackReached` | apps/api/src/modules/accounting/journal-entries/journal-entries.service.ts:42-97 | for every length there is a balanced request that reaches this bound |
| `JournalEntries.TwoLinesKeepBalance` | apps/api/src/modules/accounting/journal-entries/journal-entries.service.ts:91-97 | a balanced two-line request is stored balanced whatever its fractions |
| `LedgerBooks.PostKeeps` | apps/api/src/modules/accounting/journal-entries/journal-entries.service.ts:69-107 | posting keeps every line with its entry and tenant, every entry within its rounding slack, and all entries exact if the request is stored balanced |
| `LedgerBooks.ReverseKeeps` | apps/api/src/modules/accounting/journal-entries/journal-entries.service.ts:134-192 | reversing keeps the same |
| `LedgerBooks.PostMoves` | apps/api/src/modules/accounting/journal-entries/journal-entries.service.ts:83-104 | a posting moves each account by its own stored lines, for its tenant and in exactly the windows that cover its date, and no other balance |
| `LedgerBooks.ReversalCancels` | apps/api/src/modules/accounting/journal-entries/journal-entries.service.ts:134-192 | a reversal takes from every account's all-time balance exactly what the original put there |
| `LedgerBooks.ReversalMoves` | apps/api/src/modules/accounting/journal-entries/journal-entries.service.ts:134-192 | it does so in exactly the windows that cover its date |
| `LedgerBooks.PostThenReverse` | apps/api/src/modules/accounting/journal-entries/journal-entries.service.ts:33-196 | an entry followed by its reversal leaves every account's all-time balance unchanged |
| `LedgerBooks.NetByEntry` | apps/api/src/modules/accounting/general-ledger/general-ledger.service.ts:25-38 | when lines are on own active accounts, the counted lines sum to the gaps of the entries in the window |
| `GeneralLedger.ActiveIds` | apps/api/src/modules/accounting/general-ledger/general-ledger.service.ts:19-22 | the tenant's active accounts, each once |
| `GeneralLedger.SplitKeepsDifference` | apps/api/src/modules/accounting/general-ledger/general-ledger.service.ts:52-87 | the absolute-value split by account type loses nothing: total debit minus total credit is the sum of signed balances |
| `GeneralLedger.SumByAccount` | apps/api/src/modules/accounting/general-ledger/general-ledger.service.ts:25-47 | summing lines account by account or line by line is the same |
| `GeneralLedger.TotalsFollowLines` | apps/api/src/modules/accounting/general-ledger/general-ledger.service.ts:13-97 | the trial balance is off by exactly the gap of the counted lines on active accounts, and reports balance if and only if that gap is zero |
| `GeneralLedger.ReportedRows` | apps/api/src/modules/accounting/general-ledger/general-ledger.service.ts:43-90 | the report lists exactly the tenant's active accounts with a balance, each with its debits, its credits, and the side and amount of their difference |
| `GeneralLedger.LineCounts` | apps/api/src/modules/accounting/general-ledger/general-ledger.service.ts:14-38 | a line counts towards its account in the windows that reach from its entry date or earlier to that date or later |
| `LedgerRuns.RunKeeps` | apps/api/src/modules/accounting/journal-entries/journal-entries.service.ts:33-196 | the invariant of ledger, schedules, links and numbers holds after every run of posts, reversals, purchases, depreciation, account and period changes |
| `LedgerRuns.TrialBalanceOfRun` | apps/api/src/modules/accounting/general-ledger/general-ledger.service.ts:13-97 | after any such run, in any window, the gap is at most the summed slack of the entries covered, and zero if balanced requests are stored balanced |
| `LedgerRuns.BalancedAfterPlainPosts` | apps/api/src/modules/accounting/general-ledger/general-ledger.service.ts:13-97 | the trial balance balances in every window after every run whose requests are in whole cents or of two lines |
| `LedgerRuns.NumbersUniqueInRun` | apps/api/src/modules/accounting/journal-entries/journal-entries.service.ts:69-81 | after any run no two entries of a tenant share a number, and the number of the next posting or reversal is not taken |
| `LedgerRuns.DepreciationRefused` | apps/api/src/modules/accounting/fixed-assets/fixed-assets.service.ts:98-156 | after any run, the unique index on entry numbers ends a depreciation run if and only if a due row is in a year outside 0 to 9999 with an earlier row of its asset |
| `LedgerRuns.DepreciationInRun` | apps/api/src/modules/accounting/fixed-assets/fixed-assets.service.ts:98-156 | after any run an asset's posted rows are those up to some date, and their entries have debited the `accumulated` of the last to its expense account, credited it to its accumulated depreciation, and touched no other account |
| `ServiceRuns.CallsAreLedgerRuns` | apps/api/src/modules/accounting/journal-entries/journal-entries.service.ts:33-116 | a run of all posting services, on whatever documents, leaves the ledger as the run of the ledger events it amounts to |
| `ServiceRuns.TrialBalanceOfServices` | apps/api/src/modules/accounting/general-ledger/general-ledger.service.ts:13-97 | after any run of direct posts, invoice, payment, request and payroll approvals and accruals, in any window, the trial balance is within the summed slack, and it balances when direct requests are stored balanced, the converted lines of approved invoices round together, and so does the tax withheld from approved payments with the rest |
| `ServiceRuns.NumbersUniqueInServices` | apps/api/src/modules/accounting/journal-entries/journal-entries.service.ts:69-81 | so too whichever services posted |
| `AccountBalances.BalanceOfServices` | apps/api/src/modules/accounting/general-ledger/general-ledger.service.ts:24-47 | after any run of the services, a tenant's balance on any account in any window is the sum of what each accepted call put on it, told from the documents: posts, reversals, instalments, invoices with costs of goods, payments, payroll and accruals |
| `AccountBalances.ControlBalance` | apps/api/src/modules/accounting/general-ledger/general-ledger.service.ts:24-47 | an account used as control account only holds the rounded totals of invoices approved against it, on the receivable side of their contacts for sales and debit notes and on the payable side otherwise, less those of payments, incoming against receivables and outgoing against payables |
| `AssetRegister.JournalNumbersDiffer` | apps/api/src/modules/accounting/journal-entries/journal-entries.service.ts:69-81 | two entries numbered by the count of their year never share a number |
| `AssetRegister.NextNumberFree` | apps/api/src/modules/accounting/journal-entries/journal-entries.service.ts:150-161 | the number that the count gives the next entry is taken neither by a posting, nor a reversal, nor a depreciation entry |
| `AssetRegister.PostedIsLastAccumulated` | apps/api/src/modules/accounting/fixed-assets/fixed-assets.service.ts:64-81 | for rows posted in order the posted amounts sum to the last posted `accumulated` |
| `FixedAssets.GenerateSchedule` | apps/api/src/modules/accounting/fixed-assets/fixed-assets.service.ts:48-86 | the loop over months and the corrected last instalment produce the rows given in closed form |
| `FixedAssets.InstalmentsSum` | apps/api/src/modules/accounting/fixed-assets/fixed-assets.service.ts:64-81 | instalments of any positive amount and life sum to it exactly |
| `FixedAssets.AccumulatedIsPrefixSum` | apps/api/src/modules/accounting/fixed-assets/fixed-assets.service.ts:73-80 | `accumulated` of each row is the sum of the instalments so far |
| `FixedAssets.LastInstalmentNearShare` | apps/api/src/modules/accounting/fixed-assets/fixed-assets.service.ts:57-71 | the last instalment is within (life - 1) / 2 cents of an equal share |
| `FixedAssets.LastInstalmentSign` | apps/api/src/modules/accounting/fixed-assets/fixed-assets.service.ts:57-71 | it is not negative if and only if the monthly share rounds down, or its whole cents and the cents left over amount to at least life - 1 |
| `FixedAssets.LastInstalmentCanBeNegative` | apps/api/src/modules/accounting/fixed-assets/fixed-assets.service.ts:57-71 | 50 cents over 100 months end on minus 49 |
| `FixedAssets.Create` | apps/api/src/modules/accounting/fixed-assets/fixed-assets.service.ts:14-39 | refuses a taken code and any method but straight-line; otherwise appends the asset and its schedule |
| `AssetRegister.CodeFreeExactly` | apps/api/prisma/schema.prisma:853 | the code is refused if and only if an asset of the same tenant has it |
| `AssetRegister.AddedSchedule` | apps/api/src/modules/accounting/fixed-assets/fixed-assets.service.ts:54-85 | a new asset brings price less salvage value in as many instalments as months of life, the first a month after purchase, none posted |
| `FixedAssets.RunMonthlyDepreciation` | apps/api/src/modules/accounting/fixed-assets/fixed-assets.service.ts:98-156 | pending rows are posted one by one up to the first whose number the tenant has used, which fails the call and leaves the earlier ones posted; otherwise the count of new entries is returned |
| `AssetRegister.RunPosts` | apps/api/src/modules/accounting/fixed-assets/fixed-assets.service.ts:98-107 | a run posts exactly the tenant's rows due by its date, up to where it ends, and changes no other |
| `AssetRegister.RunGetsThrough` | apps/api/src/modules/accounting/fixed-assets/fixed-assets.service.ts:98-156 | a run gets through if and only if no due row has the number of an earlier row of its asset |
| `AssetRegister.DepreciationMoves` | apps/api/src/modules/accounting/fixed-assets/fixed-assets.service.ts:124-137 | a run raises each account of the tenant by the rows it posts of assets whose expense account it is, and lowers it by those whose accumulated depreciation it is, in the windows that cover their dates |
| `Reports.ReportedTotal` | apps/api/src/modules/reports/reports.service.ts:42-49 | a reported total is the signed total on the type's normal side plus twice what sits on the wrong side |
| `Reports.SheetFigures` | apps/api/src/modules/reports/reports.service.ts:32-60 | each of assets, liabilities, equity and net income is the signed total of its own accounts' lines plus twice their wrong-side balances |
| `Reports.PnlFigures` | apps/api/src/modules/reports/reports.service.ts:13-30 | and so are revenue and expense, whose difference is the net income |
| `Reports.AccountingEquation` | apps/api/src/modules/reports/reports.service.ts:32-61 | assets minus (liabilities plus equity) is the ledger's gap plus twice the wrong-side skew; for balanced books the equation holds if and only if the skew is zero |
| `Reports.NormalSides` | apps/api/src/modules/reports/reports.service.ts:36-50 | accounts on their normal sides leave no skew |
| `Reports.NetIncomeSkew` | apps/api/src/modules/reports/reports.service.ts:13-30 | reported net income is credits less debits on revenue and expense plus twice the difference of their wrong-side balances |
| `BankReconciliation.UploadStatement` | apps/api/src/modules/accounting/bank-reconciliation/bank-reconciliation.service.ts:49-93 | refuses an account that is not the tenant's; otherwise appends one draft with the statement |
| `BankReconciliation.UploadedAs` | apps/api/src/modules/accounting/bank-reconciliation/bank-reconciliation.service.ts:56-85 | the draft has the statement's balances and transactions in order, in cents |
| `BankReconciliation.AutoMatch` | apps/api/src/modules/accounting/bank-reconciliation/bank-reconciliation.service.ts:95-149 | the greedy loop tags exactly the lines of the greedy matching with this reconciliation and counts them; refused calls change nothing |
| `BankReconciliation.MatchesAre` | apps/api/src/modules/accounting/bank-reconciliation/bank-reconciliation.service.ts:109-134 | matches are of free lines of the account with the transaction's amount entered at most three days apart, and no such pair is left over |
| `BankReconciliation.GreedyMaximal` | apps/api/src/modules/accounting/bank-reconciliation/bank-reconciliation.service.ts:117-146 | the greedy result pairs each transaction with at most one compatible free line and each line at most once, and leaves no compatible pair unmatched |
| `BankReconciliation.GreedyIsHalf` | apps/api/src/modules/accounting/bank-reconciliation/bank-reconciliation.service.ts:117-146 | any other one-to-one compatible matching has at most twice as many pairs |
| `BankReconciliation.GreedyCanBeHalf` | apps/api/src/modules/accounting/bank-reconciliation/bank-reconciliation.service.ts:117-146 | a statement on which the factor two is reached |
| `BankReconciliation.SecondRun` | apps/api/src/modules/accounting/bank-reconciliation/bank-reconciliation.service.ts:109-146 | a further run adds nothing if and only if no transaction, matched before or not, is compatible with a free line |
| `BankReconciliation.SecondRunRematches` | apps/api/src/modules/accounting/bank-reconciliation/bank-reconciliation.service.ts:109-146 | right after a run, whatever a further run matches it matches to transactions that already have a line |
| `BankReconciliation.TransactionMatchedTwice` | apps/api/src/modules/accounting/bank-reconciliation/bank-reconciliation.service.ts:109-146 | of two equal lines that fit the one transaction of a statement, two runs match both to it |
| `BankReconciliation.ManualMatch` | apps/api/src/modules/accounting/bank-reconciliation/bank-reconciliation.service.ts:151-172 | tags exactly the named free lines of the account |
| `BankReconciliation.ManuallyMatched` | apps/api/src/modules/accounting/bank-reconciliation/bank-reconciliation.service.ts:156-169 | line by line, what a manual match changes and what not |
| `BankReconciliation.ManualUnmatch` | apps/api/src/modules/accounting/bank-reconciliation/bank-reconciliation.service.ts:174-195 | frees exactly the named lines of this reconciliation |
| `BankReconciliation.ManuallyUnmatched` | apps/api/src/modules/accounting/bank-reconciliation/bank-reconciliation.service.ts:179-192 | line by line, what a manual unmatch changes and what not |
| `BankReconciliation.CompleteReconciliation` | apps/api/src/modules/accounting/bank-reconciliation/bank-reconciliation.service.ts:197-240 | completes exactly when opening balance plus matched lines is the closing balance |
| `BankReconciliation.MatchingNet` | apps/api/src/modules/accounting/bank-reconciliation/bank-reconciliation.service.ts:120-145 | a matching moves exactly the amounts of its transactions into the reconciliation |
| `BankReconciliation.FullMatchCompletes` | apps/api/src/modules/accounting/bank-reconciliation/bank-reconciliation.service.ts:213-230 | with all transactions matched, completion is accepted if and only if the statement, with what was matched before, adds up |
| `BankReconciliation.StepKeeps` | apps/api/src/modules/accounting/bank-reconciliation/bank-reconciliation.service.ts:49-240 | every step keeps completed reconciliations tied out and frozen, and never takes a line from one reconciliation to another |
| `BankReconciliation.RunKeeps` | apps/api/src/modules/accounting/bank-reconciliation/bank-reconciliation.service.ts:95-240 | over any interleaving, from any sound state, completed reconciliations keep their statement, their line set and opening plus net equal to closing |
| `BankReconciliation.RunFromEmpty` | apps/api/src/modules/accounting/bank-reconciliation/bank-reconciliation.service.ts:49-240 | the same for whole runs from an empty bank, and between any two of their moments |
| `Inventory.UpsertBalance` | apps/api/src/modules/accounting/inventory/inventory.service.ts:199-218 | updates or creates the one row of an item and warehouse |
| `Inventory.ProcessInwardMovement` | apps/api/src/modules/accounting/inventory/inventory.service.ts:57-109 | refuses a missing item and the division by zero; otherwise sets the average, the balance and the log |
| `Inventory.ProcessOutwardMovement` | apps/api/src/modules/accounting/inventory/inventory.service.ts:112-148 | refuses a missing item or too little stock; otherwise lowers the balance, logs, and returns quantity times stored average |
| `Inventory.TransferInventory` | apps/api/src/modules/accounting/inventory/inventory.service.ts:150-197 | refuses too little stock at the source; otherwise moves both balances and logs both sides, also for negative and fractional quantities |
| `Inventory.ReceiptLogged` | apps/api/src/modules/accounting/inventory/inventory.service.ts:61-94 | a receipt is logged with its quantity and a unit cost that gives back its cost to half a last place a unit |
| `Inventory.OutwardLogged` | apps/api/src/modules/accounting/inventory/inventory.service.ts:127-193 | sales and transfers are logged at the average cost and leave it alone |
| `Inventory.OutwardExactly` | apps/api/src/modules/accounting/inventory/inventory.service.ts:118-125 | a sale or transfer is accepted if and only if the item exists and the warehouse has a balance of it that is not less than the quantity |
| `Inventory.InwardExactly` | apps/api/src/modules/accounting/inventory/inventory.service.ts:57-72 | a receipt is accepted if and only if the item exists and neither its quantity nor the quantity on hand with it is zero |
| `Inventory.TransferConserves` | apps/api/src/modules/accounting/inventory/inventory.service.ts:150-197 | a transfer of any quantity, with any number of decimals and either sign, preserves the item's total, and the balances' agreement with the log, if and only if it is not at half a place or ends on a negative destination; otherwise it adds one place; other items keep their totals |
| `Inventory.TransferNonnegative` | apps/api/src/modules/accounting/inventory/inventory.service.ts:150-197 | it leaves no balance negative if and only if both ends are one or the destination covers it up to rounding |
| `Inventory.TransferSound` | apps/api/src/modules/accounting/inventory/inventory.service.ts:150-197 | it keeps the stock table sound if and only if both hold |
| `Inventory.StepKeeps` | apps/api/src/modules/accounting/inventory/inventory.service.ts:57-218 | every receipt and sale of whole places and every transfer that fits, of either sign, keeps each balance nonnegative, unique per item and warehouse, and equal to its logged movements, and no other transfer does |
| `Inventory.RunKeeps` | apps/api/src/modules/accounting/inventory/inventory.service.ts:57-218 | so do whole runs of them |
| `Inventory.SoundRunsFit` | apps/api/src/modules/accounting/inventory/inventory.service.ts:57-218 | and no other run does at every moment |
| `Inventory.ReceiptDrift` | apps/api/src/modules/accounting/inventory/inventory.service.ts:63-77 | a receipt leaves quantity times rounded average within half a cent per unit of the value |
| `Inventory.SaleDrift` | apps/api/src/modules/accounting/inventory/inventory.service.ts:127-147 | a sale lowers quantity times average by exactly its cost of goods sold |
| `Inventory.Drift` | apps/api/src/modules/accounting/inventory/inventory.service.ts:57-197 | after any run, quantity times average differs from receipts in minus cost of goods out by at most half a cent times the sum of the quantities on hand after each receipt |
| `Inventory.AverageInRun` | apps/api/src/modules/accounting/inventory/inventory.service.ts:65-77 | the stored average stays within every pair of whole-cent bounds that held for all unit costs received |
| `Invoices.Create` | apps/api/src/modules/business/invoices/invoices.service.ts:19-89 | the loop appends a draft with rounded line totals and the rounded sum of exact totals |
| `Invoices.LineStoredAs` | apps/api/src/modules/business/invoices/invoices.service.ts:24-44 | a line costs quantity times price with its tax in percent on top, and is stored in cents on the account and for the stock it names |
| `Invoices.CreatedIs` | apps/api/src/modules/business/invoices/invoices.service.ts:46-71 | the invoice is an unpaid, unposted draft of the rounded sum of the exact line totals, with its rate in millionths |
| `Invoices.CreatedAddsUp` | apps/api/src/modules/business/invoices/invoices.service.ts:24-46 | stored line totals add up to the stored total if and only if what rounding cut from the lines, taken together, is less than half a cent |
| `Invoices.WholeTotalsAddUp` | apps/api/src/modules/business/invoices/invoices.service.ts:24-46 | whole-cent line totals, and single lines, always do |
| `Invoices.CreatedMayNotAddUp` | apps/api/src/modules/business/invoices/invoices.service.ts:24-46 | two lines of half a cent are stored as two cents under a total of one |
| `Invoices.Approve` | apps/api/src/modules/business/invoices/invoices.service.ts:112-239 | the result of the whole transaction: any refusal in stock or posting leaves all tables as before; otherwise stock, ledger and invoice change together |
| `Invoices.ProcessLine` | apps/api/src/modules/business/invoices/invoices.service.ts:150-215 | one pass of the loop: its stock movement and the lines it pushes |
| `Invoices.EntryBalances` | apps/api/src/modules/business/invoices/invoices.service.ts:137-221 | for all four types, any rate and any mix of cost of goods pairs, the entry balances if and only if stored line totals add up to the stored total or the rate is zero |
| `Invoices.EntryMoves` | apps/api/src/modules/business/invoices/invoices.service.ts:137-215 | an approval moves any account by exactly the converted total if it is the control account, the converted totals of the lines that name it, and the costs of goods of items that have it as cost account, less those of items that have it as inventory account |
| `Invoices.ApprovalMoves` | apps/api/src/modules/business/invoices/invoices.service.ts:119-237 | so does an approved invoice in every window that covers its date, against the receivable of its contact on sales invoices and debit notes and the payable on the others |
| `Invoices.ApprovalMarks` | apps/api/src/modules/business/invoices/invoices.service.ts:217-237 | it marks its invoice, and no other document, as approved by the entry it posts on the invoice date |
| `Invoices.NoControlAccountExactly` | apps/api/src/modules/business/invoices/invoices.service.ts:119-134 | the approval fails for want of a control account if and only if that field of the contact is empty |
| `Invoices.StockMoves` | apps/api/src/modules/business/invoices/invoices.service.ts:156-183 | approval brings purchased quantities into the stock named, takes sold ones out, and moves none on notes |
| `Invoices.PurchaseValue` | apps/api/src/modules/business/invoices/invoices.service.ts:154-169 | a purchased line is received at its converted total, to half a cent a unit on hand |
| `Invoices.EntryStoredBalanced` | apps/api/src/modules/business/invoices/invoices.service.ts:137-221 | for all four types, any rate and fractional costs of goods, an entry that balances is stored balanced if what storing cuts from the converted line totals, taken together, is less than half a cent, and, on sound stock and without negative amounts, only then |
| `Invoices.PlainRoundsTogether` | apps/api/src/modules/business/invoices/invoices.service.ts:138-154 | without a rate it always is |
| `Invoices.RateCanOpenACent` | apps/api/src/modules/business/invoices/invoices.service.ts:138-154 | at rate 1.5 a sales invoice with two lines of one cent is stored a cent out of balance |
| `Invoices.ApprovalAccepted` | apps/api/src/modules/business/invoices/invoices.service.ts:112-239 | given open period and accounts, an invoice with a line is approved if and only if its totals add up (or its rate is zero), and the stock stays sound |
| `Payments.Create` | apps/api/src/modules/business/payments/payments.service.ts:17-77 | refuses allocations above the amount; otherwise appends the rounded payment and, above the limit, a pending request |
| `Payments.CreatedIs` | apps/api/src/modules/business/payments/payments.service.ts:32-73 | above 10,000.00 the payment waits for approval under a pending request of its own, otherwise it is a draft without one; amounts are rounded to cents |
| `Payments.Approve` | apps/api/src/modules/business/payments/payments.service.ts:113-235 | the result of the whole transaction: any refusal leaves all tables as before; otherwise invoices, ledger and payment change together |
| `Payments.BuildLines` | apps/api/src/modules/business/payments/payments.service.ts:169-218 | pushing and rewriting lines yields bank, control and withholding lines of the payment |
| `Payments.ApproveRequest` | apps/api/src/modules/approvals/approvals.service.ts:83-113 | decides a pending request once and lets the approval of its payment succeed or fail alone |
| `Payments.RejectRequest` | apps/api/src/modules/approvals/approvals.service.ts:115-144 | decides a pending request once and puts its payment back to draft |
| `Payments.EntryBalances` | apps/api/src/modules/business/payments/payments.service.ts:169-224 | the entry always balances and has 2 or 3 lines; it is one-sided if and only if no more is withheld than paid |
| `Payments.EntryMoves` | apps/api/src/modules/business/payments/payments.service.ts:177-218 | the bank moves by the amount less withholding, the tax account by the withholding, the control account by the full amount the other way, an account in several roles by their sum, all others not at all |
| `Payments.ApprovalMoves` | apps/api/src/modules/business/payments/payments.service.ts:124-224 | an approved payment moves any account by its share in every window that covers its date, against the receivable of its contact if incoming and the payable if outgoing |
| `Payments.NoControlAccountExactly` | apps/api/src/modules/business/payments/payments.service.ts:127-139 | the approval fails for want of a control account if and only if that field of the contact is empty |
| `Payments.ApprovalAccepted` | apps/api/src/modules/business/payments/payments.service.ts:113-235 | given open period, accounts and approved invoices, a payment is approved if and only if no more is withheld than paid |
| `Payments.EntryStoredBalanced` | apps/api/src/modules/business/payments/payments.service.ts:169-218 | the entry is stored balanced if and only if nothing is withheld or the withheld part and the rest, told from their fractions, round to what the total rounds to |
| `Payments.PlainRoundsTogether` | apps/api/src/modules/business/payments/payments.service.ts:169-218 | they always do without a rate |
| `Payments.WithholdingCanOpenACent` | apps/api/src/modules/business/payments/payments.service.ts:193-218 | with a rate it can be stored a cent out of balance |
| `Payments.StepKeeps` | apps/api/src/modules/business/payments/payments.service.ts:17-235 | any step whose amounts are at least a cent pays each invoice what the posted payment lists it with last, and keeps it paid exactly when that reaches a positive total and unpaid before approval |
| `Payments.RunKeeps` | apps/api/src/modules/business/payments/payments.service.ts:17-235 | so over any run at all `amountPaid` is the sum over the postings of what each lists the invoice with last |
| `Payments.PostingsAre` | apps/api/src/modules/business/payments/payments.service.ts:103-235 | over any run, any sum over the postings is the sum over the payments approved in the end and those rejected late |
| `Payments.PaidByApproved` | apps/api/src/modules/business/payments/payments.service.ts:103-235 | so `amountPaid` is what approved and late-rejected payments list the invoice with last |
| `Payments.PaidAsAllocated` | apps/api/src/modules/business/payments/payments.service.ts:144-165 | it is all that the postings allocate to the invoice if and only if none of them lists it twice |
| `Payments.StepPosts` | apps/api/src/modules/business/payments/payments.service.ts:103-235 | any step posts only a payment that is not approved, and one is approved afterwards exactly if the step posted it or it was approved and not rejected late |
| `Payments.PostedExactly` | apps/api/src/modules/business/payments/payments.service.ts:103-235 | over any run at all a payment is posted once for every late rejection and once more if it ends approved |
| `Payments.PostedOnce` | apps/api/src/modules/approvals/approvals.service.ts:83-113 | when payments with a pending request are approved only through it there are no late rejections: posted once if approved in the end and never otherwise |
| `Payments.DecisionFinal` | apps/api/src/modules/approvals/approvals.service.ts:83-144 | in any step, disciplined or not, requests are kept and a decided one never changes |
| `Payments.DecisionIs` | apps/api/src/modules/approvals/approvals.service.ts:96-141 | a decision records what was asked for on that request alone, and a rejection puts its payment, and no other, back to draft |
| `Payments.SettledWithinPosted` | apps/api/src/modules/business/payments/payments.service.ts:18-27 | over any run the total settled never exceeds the amounts posted with whole cents, and otherwise only by rounding |
| `Payments.SettledWithinApproved` | apps/api/src/modules/business/payments/payments.service.ts:18-27 | when pending requests are respected, that is the amounts of the payments approved in the end |
| `Payments.NoResets` | apps/api/src/modules/approvals/approvals.service.ts:83-144 | then, too, a payment is approved exactly when it has been posted, has at most one request, waits for approval while that is pending, and is never rejected late |
| `Payments.AllocationExact` | apps/api/src/modules/business/payments/payments.service.ts:144-165 | an invoice receives what a payment allocates to it if and only if the payment lists it at most once |
| `Payments.LastWriteWins` | apps/api/src/modules/business/payments/payments.service.ts:151-165 | in general it receives the last allocation only |
| `Payments.RejectionKeeps` | apps/api/src/modules/business/payments/payments.service.ts:103-111 | a rejection keeps its payment approved-exactly-if-posted if and only if the payment had not been approved past the request |
| `Payments.RejectionPostsTwice` | apps/api/src/modules/business/payments/payments.service.ts:103-122 | any payment that can be approved past its pending request can, after approval and rejection, be approved and posted again |
| `Payments.TwicePosted` | apps/api/src/modules/business/payments/payments.service.ts:17-235 | a run from an empty desk that posts a payment twice |
| `Payroll.CreatePayrollRun` | apps/api/src/modules/business/payroll/payroll.service.ts:31-142 | refusals in order, including contract mismatch; an unsettled run of the period is dropped even if the call is then refused; otherwise the run with rounded totals and its request |
| `Payroll.SlipsAcceptedExactly` | apps/api/src/modules/business/payroll/payroll.service.ts:47-88 | payslips are accepted if and only if they name different profiles of the tenant whose registered salaries, if any, are met by basic, housing and transport pay |
| `Payroll.RunsStayUnique` | apps/api/src/modules/business/payroll/payroll.service.ts:34-44 | a period keeps one run: an approved or paid one blocks, any other is replaced |
| `Payroll.TotalsAre` | apps/api/src/modules/business/payroll/payroll.service.ts:73-100 | gross is basic, housing and transport pay and bonuses, insurance a tenth of basic and housing pay up to 45,000 an employee, net what is left |
| `Payroll.InsuranceBounds` | apps/api/src/modules/business/payroll/payroll.service.ts:91-92 | insurance is a tenth of basic and housing pay if and only if nobody earns above the ceiling, and 4,500.00 a payslip at most, exactly if everybody reaches it |
| `Payroll.DeductionsAddUp` | apps/api/src/modules/business/payroll/payroll.service.ts:116-121 | stored deductions are stored insurance plus stored other deductions |
| `Payroll.GrossSplits` | apps/api/src/modules/business/payroll/payroll.service.ts:61-100 | before storing, gross is insurance plus other deductions plus net, for any payslips |
| `Payroll.EntryBalances` | apps/api/src/modules/business/payroll/payroll.service.ts:225-261 | for whole-cent pay and nonnegative net, the stored entry balances if and only if other deductions do not sum below zero and the insured salaries in cents are not 5 modulo 10 |
| `Payroll.ApprovalAccepted` | apps/api/src/modules/business/payroll/payroll.service.ts:225-270 | given an open period and accounts, the entry of such a run is accepted under exactly that condition |
| `Payroll.EntryMoves` | apps/api/src/modules/business/payroll/payroll.service.ts:225-261 | an approved run debits gross pay to 5110 and credits its positive parts to 2140, 2150 and 2130 |
| `Payroll.PayrollChartOpens` | apps/api/src/modules/business/payroll/payroll.service.ts:203-222 | it opens at most 5110 as expense and 2140, 2150 and 2130 as liabilities, under 5100 and 2100 |
| `Payroll.OtherDeductionsMove` | apps/api/src/modules/business/payroll/payroll.service.ts:247-256 | an approved run credits its other deductions to account 2150 |
| `Payroll.ApprovePayrollRun` | apps/api/src/modules/business/payroll/payroll.service.ts:163-280 | opens missing accounts, which stay if the posting is refused; otherwise posts the run's entry and marks it approved |
| `Eosb.PayoutBands` | apps/api/src/modules/business/employee-profiles/eosb.service.ts:34-53 | half a month's wage for each of five years and a whole one after; on resignation nothing before two years, a third before five, two thirds before ten, then all |
| `Eosb.LiabilityIs` | apps/api/src/modules/business/employee-profiles/eosb.service.ts:18-31 | the report is that payout in cents for basic, housing and transport pay and years of 365.25 days since hire |
| `Eosb.LiabilityMonotone` | apps/api/src/modules/business/employee-profiles/eosb.service.ts:34-53 | the reported liability never falls with service or wage on any departure, and resignation never pays above termination |
| `Eosb.BookMonthlyAccrual` | apps/api/src/modules/business/employee-profiles/eosb.service.ts:65-131 | the loop over employees posts one balanced entry of the summed accruals, opening missing accounts |
| `Eosb.EntryMoves` | apps/api/src/modules/business/employee-profiles/eosb.service.ts:113-126 | a booking debits the accrual to 5120 and credits it to 2150 |
| `Eosb.AccrualChartOpens` | apps/api/src/modules/business/employee-profiles/eosb.service.ts:93-107 | it opens at most 5120 as expense and 2150 as liability, under 5100 and 2100 |
| `Eosb.AccrualIsGrowth` | apps/api/src/modules/business/employee-profiles/eosb.service.ts:70-89 | at any service a month's accrual is the growth of the entitlement over that month, except that the month in which five years end is accrued at the full rate from its start |
| `Eosb.AccrualsAddUp` | apps/api/src/modules/business/employee-profiles/eosb.service.ts:34-89 | for constant wages and any hire dates n monthly accruals sum over all employees to the growth of the closed-form entitlements plus that excess |
| `Eosb.TotalExcessWithin` | apps/api/src/modules/business/employee-profiles/eosb.service.ts:70-89 | the excess is at least a twenty-fourth of the wage per booking for employees without a hire date, and at most another one for each employee whose five years end in the time |
| `Eosb.NoExcessExactly` | apps/api/src/modules/business/employee-profiles/eosb.service.ts:70-89 | a hired employee has none if and only if the wage is zero or no booked month has five years of service end strictly inside |
| `Eosb.WholeMonthsExact` | apps/api/src/modules/business/employee-profiles/eosb.service.ts:70-89 | in particular not when hired whole months before the first booking or after it |
| `Eosb.ProvisionInLedger` | apps/api/src/modules/business/employee-profiles/eosb.service.ts:101-128 | n accepted bookings in a row credit the account coded 2150 with exactly the stored accruals |
| `Eosb.ProvisionDrift` | apps/api/src/modules/business/employee-profiles/eosb.service.ts:101-128 | its balance then follows the entitlements' growth and the excess to within half a cent a booking |
| `Consolidation.GetTenantTrialBalance` | apps/api/src/modules/accounting/consolidation/consolidation.service.ts:118-150 | the map built line by line holds exactly the codes with lines in the window and the sums of those lines |
| `Consolidation.AddMember` | apps/api/src/modules/accounting/consolidation/consolidation.service.ts:89-106 | the inner loop adds a member's translated sums code by code to what the earlier members left |
| `Consolidation.GetConsolidatedTrialBalance` | apps/api/src/modules/accounting/consolidation/consolidation.service.ts:21-116 | refuses a missing parent or currency; otherwise one row per code of any member, with the rate-weighted sums rounded to two decimals |
| `Consolidation.MembersAre` | apps/api/src/modules/accounting/consolidation/consolidation.service.ts:35-87 | the parent counts at 1 and each child at its rate, unless one of them is refused |
| `Consolidation.RateIs` | apps/api/src/modules/accounting/consolidation/consolidation.service.ts:65-86 | a child in a foreign currency is translated at the rate stored for the parent's currency in the parent's period that contains the window |
| `Consolidation.RateOtherwise` | apps/api/src/modules/accounting/consolidation/consolidation.service.ts:53-87 | it is refused if and only if the parent lacks the currency, and taken at 1 in the parent's currency or without a period |
| `Consolidation.RateNotStored` | apps/api/src/modules/accounting/consolidation/consolidation.service.ts:76-85 | or without a stored rate |
| `Consolidation.Format` | apps/api/src/modules/accounting/consolidation/consolidation.service.ts:109-115 | each code of the map becomes exactly one rounded row |
| `Consolidation.OrderIrrelevant` | apps/api/src/modules/accounting/consolidation/consolidation.service.ts:49-107 | any order of the children gives the same refusal or the same sums for every code |
| `Consolidation.GapOfMembers` | apps/api/src/modules/accounting/consolidation/consolidation.service.ts:89-106 | before rounding the consolidation is off by exactly its members' gaps at their rates |
| `Consolidation.BalancedBeforeRounding` | apps/api/src/modules/accounting/consolidation/consolidation.service.ts:89-106 | so members that balance consolidate, at any rates, to sums that balance exactly |
| `Consolidation.ReportGap` | apps/api/src/modules/accounting/consolidation/consolidation.service.ts:109-115 | the report is off by those gaps and at most a cent per code, and by less than that if no sum is negative |
| `Consolidation.BalancedReport` | apps/api/src/modules/accounting/consolidation/consolidation.service.ts:109-115 | for balanced members debits and credits differ by at most a cent per code, and by less if no sum is negative |
| `Consolidation.MembersBalance` | apps/api/src/modules/accounting/consolidation/consolidation.service.ts:118-150 | in books whose entries balance exactly every tenant is balanced in every window |

## Left out

- Concurrency and isolation: each service call is one atomic step, although auto-match and the approvals read before their transactions.
- The server's local time zone: depreciation months step as in UTC. `initializeFiscalYear`, whose period ends depend on the zone, is not modelled.
- Entry dates outside the years 1000 to 9999, for which the year window of the entry count is not a valid date text.
- decimal.js's 20 significant digits, the conversions through JavaScript numbers (`Number(line.quantity)`, years of service, the thirds of a resignation) and column overflow: values are exact reals until they are stored.
- Malformed numbers in requests; only the division by zero of a receipt without quantity and its infinite results are refused here, as `NotANumber`.
- Names, descriptions, references, contact links, currencies and foreign amounts on lines, audit fields, and document numbers from the sequences service.
- Deactivation of accounts, draft entries and retired assets: no service sets those states; accounts are created active, entries posted and assets active.
- Foreign keys and unique indexes appear as preconditions (`WellFormed`, children and balances that exist) or as the conflict a duplicate raises.
- The order of rows a query returns without `orderBy` is the order of insertion; `findFirst` takes the first.
- A statement and its reconciliation are one row, since they are created together; lines are read with the table.
- `inventoryLot` rows, which nothing reads, and purchase orders, whose receipts are logged without touching balances.
- `LedgerRuns.TrialBalanceOfRun`: requires assets to be bought on active accounts of their own tenant, which asset creation does not check; `GeneralLedger.TotalsFollowLines` says exactly what the report shows without it.
- `JournalEntries.Create`: the unique index on a tenant's entry numbers is modelled as a refusal only where it can refuse, in depreciation runs; `LedgerRuns.NumbersUniqueInRun` proves that it never refuses a posting or a reversal.
- `Payments.RunKeeps`: amounts of payments and allocations are at least a cent, the limit of the request; invoices only change by approval and payment.
- `Payments.ApproveRequest`: requests for payroll runs and purchase orders are decided, but the effects of their events on those documents are not modelled here; `Payroll.ApprovePayrollRun` is the handler's call for payroll runs.
- `Inventory.Drift`: covers receipts and sales of whole last places, which is what invoice lines keep, and all transfers that keep the stock table sound.
- `Eosb.ProvisionInLedger`: covers bookings in a row, since payroll runs between them credit the same account.
- `LedgerRuns.DepreciationRefused`: covers years of at most six digits, more than a JavaScript date has.
- VAT return, Zakat estimate, leave, WPS export, cash flow, dashboards, CRM, ZATCA documents, users and permissions.
