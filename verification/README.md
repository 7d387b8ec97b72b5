# Nexora: verified models

Nexora is a multi-tenant ERP: a Python backend over PostgreSQL and Redis, and a Next.js
backend-for-frontend (BFF). These Dafny modules model the parts of it that money, audit and
sign-in rest on, and prove what holds over every run, every interleaving or every input.

| modules | what they model |
|---|---|
| `Posting`, `Calendar`, `Chart`, `Ledger`, `LedgerInvariant`, `AccountingService` | the double-entry ledger: chart of accounts, fiscal periods, posting, reversal, with both check layers (service and database) |
| `Reports`, `GeneralLedger`, `Reversals`, `ChartRuns`, `DatabaseGuards`, `PostingRules`, `ControlBalances`, `PeriodRules`, `PostedMovements`, `ReportFigures`, `LedgerFigures` | what follows for reports, corrections, the chart over whole runs, the triggers alone, the business events and the control accounts; exactly what is created, accepted, moved and shown |
| `ChainHash`, `AuditChain`, `AuditTamper` | the audit hash chain under concurrent transactions, its verifier, and what tampering it shows |
| `AuthSessions`, `AuthRevocation`, `BffRefresh`, `BffSafety`, `BffTiming`, `BffExposure`, `BffHazard`, `BffWaiting`, `BffOutcomes` | refresh-token rotation with reuse detection, composed with the BFF's lock in Redis: when a token is never sent twice, the exact bounds, every way it can be, how long waiters have to wait, and what each outcome does; whose sessions end |
| `LoginBackoff`, `RateLimiter` | the failed-login backoff and the sliding-window limiter |
| `Cursor`, `Pagination` | opaque cursors and keyset pagination of the audit log |
| `Figures`, `Grounding`, `Copilot` | the numeric grounding check and the copilot's turn |
| `Detectors` | the median/MAD anomaly detector |

`dafny verify dfyconfig.toml` checks everything.

## How the model is built

State that the source updates in place is a class (`AccountingService.Service`,
`AuthSessions.Service`, `LoginBackoff.Account`, `RateLimiter.Limiter`, `BffRefresh.Store`,
`Grounding.Collector`), each method proved equal to a function on values; the theorems are about
runs of those functions. Protocols (transactions inserting audit rows, requests sharing a BFF
session) are state machines with an action per atomic step, and the theorems hold for every
sequence of enabled actions.

Conventions:

- Ledger amounts are exact reals counted in quanta of 0.0001; stored amounts are integers, rounded
  half away from zero as NUMERIC(18, 4) does. Decimals and floats elsewhere are exact reals.
- A row's id is its position in its table, since nothing modelled deletes rows. Account codes are
  numbers; names, descriptions and currencies are dropped.
- Calls to the ledger run one after another, each as one transaction.
- The digest is injective and its output is a non-empty single line (`ChainHash.GoodDigest`);
  transactions are READ COMMITTED.
- Tokens are never guessed: a client other than the BFF cannot present the BFF's tokens.
- Clocks, providers and tools are parameters, quantified over.

## Where the code and its documents disagree

The model follows the code.

- docs/ACCOUNTING.md:263-266 says the immutability trigger whitelists both reversal links. It
  whitelists only `reversed_by_entry_id`, and allows it to change again or be cleared
  (`DatabaseGuards.OnlyServiceKeepsMark`); "reversed once" rests on the service.
- The docstring at backend/app/modules/audit/chain.py:91-106 says that a missing tenant checks only the
  pre-tenant rows of `security_events`; the query then checks every row of that table
  (`AuditChain.SweepMatchesTenants` shows what that amounts to).
- A tenant with rows from before the hash chain gets false alarms as soon as it writes again:
  `AuditChain.VerdictExact` gives the exact condition.
- `create_account` may hang a child under a system account, which then refuses every posting that
  names its role for good (`ChartRuns.RoleCanBeDemoted`, `ChartRuns.DemotedRoleNeverPosts`).
  `ChartRuns.RolePostableIff` and `ChartRuns.DocumentRefusedIff` say exactly when.
- The start-up assertion of the BFF bounds one upstream call, but a refresh with a tenant selected
  makes two. `BffExposure.BoundsExact` gives the exact condition on lock lifetime, call bound and the
  time spent between calls; the shipped bounds do not meet it (`BffExposure.ShippedBoundsReplay`). A
  refresh that fails or throws releases the lock with the spent token still in the session, and the
  unlocked session write can put a spent token back (`FailureReplays`, `UnreadableAnswerReplays`,
  `RebindThrowReplays`, `StaleSaveReplays`). `BffHazard.RepeatNeedsHazard` shows that every repeat
  comes of such a state, or of a holder about to send after its lock lapsed.
- A comment promises that a waiter never gives up while a holder could still be working. With a tenant
  selected it can (`BffWaiting.WaitExact`), at the shipped bounds as soon as any time passes between
  the holder's calls (`BffWaiting.ShippedWaitExact`).
- Attempts in the same instant are one member of the limiter's sorted set, so any number of them is
  admitted (`RateLimiter.SameInstantUnlimited`).
- Percentages are described as an admitted derivation; only those of a figure over one that is not
  smaller, in signed order, are (`Grounding.PercentAllowedIff`). Among positive figures none above one
  hundred is (`Grounding.AboveHundredIff`), among negative ones some are
  (`Grounding.NegativeRatioAllowed`).
- Cutting rows off the end of the audit chain, or putting an unhashed row in front, is not reported
  (`AuditTamper.TruncationUnseen`, `AuditTamper.UnhashedFrontUnseen`).

## Model

| member | source | states |
|---|---|---|
| `Posting.StoredError` | backend/app/db/types.py:3-6 | storing an amount moves it by at most half a quantum, and not at all when it is already at four decimals |
| `Posting.StoredSymmetric` | backend/app/db/types.py:3-6 | rounding treats both signs alike, and a half goes away from zero |
| `Posting.StoredTotalError` | backend/alembic/versions/0017_phase_5_accounting.py:272-284 | a stored total drifts by at most half a quantum per line, and not at all for lines at four decimals |
| `Posting.DriftBound` | backend/app/modules/accounting/service.py:254-259 | lines the service finds balanced are stored with debits and credits apart by at most half a quantum per line |
| `Posting.ExactNeverTripsTrigger` | backend/alembic/versions/0017_phase_5_accounting.py:272-293 | on lines at four decimals the service's balance check and the trigger's agree |
| `Posting.PairPostable` | backend/alembic/versions/0017_phase_5_accounting.py:211-214 | a one-debit, one-credit entry passes both layers exactly when its stored amount is positive and fits the column |
| `Posting.SplitDrift` | backend/app/db/types.py:3-6 | net and tax rounded apart differ from their rounded sum by at most one quantum |
| `Posting.SplitExact` | backend/app/db/types.py:3-6 | they agree exactly under a condition on the two fractions alone |
| `Posting.SplitCanDrift` | backend/app/db/types.py:3-6 | the one-quantum drift does occur |
| `Calendar.FirstFiscalYear` | backend/app/modules/accounting/service.py:92-153 | the bootstrapped fiscal year contains today and ends the day before the next one starts |
| `Chart.FindCode` | backend/app/modules/accounting/service.py:161-189 | finds an account with the code, and fails exactly when there is none |
| `Chart.FindSystem` | backend/app/modules/accounting/repository.py:49-51 | finds the account of a role, and fails exactly when there is none |
| `Chart.BackfillIdempotent` | backend/app/modules/accounting/service.py:92-153 | back-filling the default accounts twice is back-filling once, for any chart |
| `Chart.BackfillKeepsChart` | backend/app/modules/accounting/service.py:92-153 | back-filling keeps the chart an acyclic, type-uniform forest with unique codes |
| `Chart.NewAccountKeepsChart` | backend/app/modules/accounting/service.py:161-189 | adding an account and demoting its parent keeps the forest |
| `Chart.ForestOfLeaves` | backend/app/modules/accounting/service.py:161-189 | in a valid chart every account has its root's type and postable accounts have no children |
| `Chart.DefaultTableWellFormed` | backend/app/modules/accounting/service.py:44-76 | the default table lists parents first, with the child's type, as groups, with unique codes and roles |
| `Chart.RolesDefined` | backend/app/modules/accounting/service.py:44-76 | every role a posting rule can name is in the default table |
| `Chart.FreshBackfill` | backend/app/modules/accounting/service.py:92-153 | from nothing, one account per default row, in order, filling every role |
| `Ledger.PeriodFor` | backend/app/modules/accounting/repository.py:59-67 | returns a period containing the day, and nothing only when none does |
| `LedgerInvariant.BootstrapIdempotent` | backend/app/modules/accounting/service.py:92-153 | bootstrapping again on any later day changes nothing, for arbitrary books |
| `LedgerInvariant.BootstrapKeeps` | backend/app/modules/accounting/service.py:92-153 | bootstrap keeps sound books sound, touches no entry, and changes nothing once done |
| `LedgerInvariant.AddAccountKeeps` | backend/app/modules/accounting/service.py:161-189 | account creation keeps every ledger invariant and only extends the books |
| `LedgerInvariant.AddPeriodKeeps` | backend/app/modules/accounting/service.py:197-214 | period creation keeps periods ordered and disjoint and only extends the books |
| `LedgerInvariant.ChangePeriodStatusKeeps` | backend/app/modules/accounting/service.py:216-238 | a status change only moves forward and keeps every invariant |
| `LedgerInvariant.AcceptedDayUnlocked` | backend/app/modules/accounting/service.py:260-268 | since periods do not overlap, a day the period check accepts lies in no locked period |
| `LedgerInvariant.NewEntryValid` | backend/app/modules/accounting/service.py:240-329 | an accepted entry balances as stored, matches its stored totals, has one-sided lines and lies in its period |
| `LedgerInvariant.PostKeeps` | backend/app/modules/accounting/service.py:240-329 | posting keeps every invariant and only extends the books |
| `LedgerInvariant.SwappedMirrors` | backend/app/modules/accounting/service.py:391-400 | a reversal's stored lines mirror its original's exactly |
| `LedgerInvariant.ReverseKeeps` | backend/app/modules/accounting/service.py:378-422 | reversing keeps links mutually inverse, forward in creation order and non-decreasing in date |
| `LedgerInvariant.StepKeeps` | backend/app/modules/accounting/service.py:79-422 | every service call, accepted or rejected, keeps the books sound and only extends them |
| `LedgerInvariant.RunKeeps` | backend/app/modules/accounting/service.py:79-422 | so does every run: rows accumulate, statuses move forward, entries change only by being marked reversed once, nothing lands on a locked day |
| `LedgerInvariant.ReachableSound` | backend/app/modules/accounting/service.py:79-422 | every set of books reachable from nothing is sound; in particular every committed entry balances |
| `AccountingService.SumLines` | backend/app/modules/accounting/service.py:254-255 | the loop's totals are the sums of both sides |
| `AccountingService.Service.Bootstrap` | backend/app/modules/accounting/service.py:92-153 | the stepwise bootstrap reaches the specified books |
| `AccountingService.Service.AddMissing` | backend/app/modules/accounting/service.py:92-153 | the back-fill loop, with its growing dictionary of ids, adds exactly the missing default rows |
| `AccountingService.Service.CreateAccount` | backend/app/modules/accounting/service.py:161-189 | new books and every error of account creation |
| `AccountingService.Service.CreatePeriod` | backend/app/modules/accounting/service.py:197-214 | new books and every error of period creation |
| `AccountingService.Service.ChangePeriodStatus` | backend/app/modules/accounting/service.py:216-238 | new books and every error of a status change |
| `AccountingService.Service.Screen` | backend/app/modules/accounting/service.py:240-283 | the service layer raises exactly the first of its objections, and otherwise finds the period and every account |
| `AccountingService.Service.InsertLines` | backend/app/modules/accounting/service.py:310-322 | lines are stored one by one, or refused by the line check, with their stored totals |
| `AccountingService.Service.Insert` | backend/app/modules/accounting/service.py:284-329 | draft, lines, posted mark: succeeds exactly when storage and trigger accept, appending the specified entry |
| `AccountingService.Service.Post` | backend/app/modules/accounting/service.py:240-329 | new books and every error of posting, the transaction undone on error |
| `AccountingService.Service.PostManual` | backend/app/modules/accounting/service.py:331-368 | new books and every error of a manual entry |
| `AccountingService.Service.Reverse` | backend/app/modules/accounting/service.py:378-422 | new books, both links, and every error of a reversal |
| `PeriodRules.CreatePeriodIff` | backend/app/modules/accounting/service.py:197-214 | a period is created exactly when its range is ordered and shares no day with another, is then open and the period of each of its days, and the two refusals are told apart |
| `PeriodRules.ChangeStatusIff` | backend/app/modules/accounting/service.py:216-238 | a status changes exactly from open to closed and from closed to locked, and nothing else about any period does |
| `PeriodRules.ThroughClosed` | backend/app/modules/accounting/service.py:216-238 | over every run a period that was open and is locked was closed in between |
| `PeriodRules.PeriodGateIff` | backend/app/modules/accounting/service.py:260-268 | a balanced request is refused for its period exactly when none contains its date, or the one that does is locked, or is closed and the caller may not post there |
| `PeriodRules.FirstDayAccepts` | backend/app/modules/accounting/service.py:92-153 | a tenant can post on its first day |
| `PeriodRules.CreateAccountIff` | backend/app/modules/accounting/service.py:161-189 | an account is created exactly when its parent exists with its type and its code is free, and can then be used as asked and its parent no longer; each refusal has its own cause |
| `PostedMovements.ManualAcceptedIff` | backend/app/modules/accounting/service.py:331-368 | a manual entry is accepted exactly when its accounts exist, are active and postable, its amounts pass both layers and its period accepts it |
| `PostedMovements.ManualMoves` | backend/app/modules/accounting/service.py:349-368 | an accepted manual entry moves every account, on each side, by the given amounts on it as stored, over exactly the ranges that hold its date; a refused one leaves no trace |
| `PostedMovements.DocumentMoves` | backend/app/modules/accounting/service.py:240-329 | an accepted document moves the account of each role by its amounts on that role as stored, over exactly the ranges that hold its date |
| `PostedMovements.ReversalMoves` | backend/app/modules/accounting/service.py:378-422 | an accepted reversal moves every account by what its original shows on the other side, over exactly the ranges that hold its own date |
| `Reports.TrialBalanceBalances` | backend/app/modules/accounting/repository.py:91-104 | for every date range debits equal credits, and both equal what the range's entries carry |
| `Reports.MovementAdds` | backend/app/modules/accounting/repository.py:91-104 | each account's movement over adjacent ranges adds up |
| `Reports.TrialBalanceAdds` | backend/app/modules/accounting/repository.py:91-104 | trial-balance columns over adjacent ranges add up, in total and per account type |
| `Reports.IncomeIsNetWorthChange` | backend/app/modules/accounting/router.py:135-168 | net income of a range is the change in assets less liabilities less equity over it |
| `Reports.IncomeAdds` | backend/app/modules/accounting/service.py:430-451 | net income over adjacent ranges adds up |
| `Reports.GapIsUnclosedIncome` | backend/app/modules/accounting/service.py:453-511 | the exact gap of a balance sheet, whatever the dates |
| `Reports.SheetBalancesWhenClosedOut` | backend/app/modules/accounting/router.py:170-199 | with no entry before 1970 the gap is the income before the period containing the date, so the sheet balances exactly when that is zero |
| `Reports.FrozenByExtension` | backend/app/modules/accounting/service.py:216-268 | extending the books changes no trial balance inside a locked period |
| `Reports.LockedPeriodFrozen` | backend/alembic/versions/0017_phase_5_accounting.py:128-131 | over every later run, trial balance and profit and loss of any range inside a locked period never change, nor does the period |
| `ReportFigures.TrialBalanceExact` | backend/app/modules/accounting/repository.py:91-104 | the trial balance has one row for each account that moved, with its own two movements, and no other |
| `ReportFigures.ListingExact` | backend/app/modules/accounting/service.py:436-449 | a listing has one figure for each account of its type that moved: debit less credit for assets and expenses, credit less debit for the rest |
| `ReportFigures.ProfitAndLossExact` | backend/app/modules/accounting/service.py:430-451 | which of those figures are the revenue and which the expense of a profit and loss |
| `ReportFigures.BalanceSheetExact` | backend/app/modules/accounting/service.py:453-511 | which are the assets, liabilities and equity of a balance sheet, since 1970, and what its earnings are |
| `ReportFigures.NetIncomeExact` | backend/app/modules/accounting/router.py:135-168 | net income is revenue credited less debited, less expense debited less credited, summed over the journal |
| `ReportFigures.DefaultRowsAtHome` | backend/app/modules/accounting/service.py:44-76 | every default account is of the type its code belongs to, every role on an account of its own type |
| `ReportFigures.RolesAlwaysAtHome` | backend/app/modules/accounting/service.py:92-189 | after every run each role's account is of the role's own type |
| `ReportFigures.DocumentMovesIncome` | backend/app/modules/accounting/service.py:430-451 | after every run an accepted document raises net income by its credits less debits on revenue and expense roles, over exactly the ranges that hold its date |
| `ReportFigures.EventIncomeExact` | backend/app/modules/accounting/posting_rules.py:15-100 | what each business event is worth to income: sales less returns less the cost of what stayed out of stock, and nothing for money moving |
| `ReportFigures.CreditSaleRaisesIncome` | backend/app/modules/accounting/posting_rules.py:37-41 | so an accepted credit sale raises net income by its net, as stored |
| `GeneralLedger.RunningSinceInception` | backend/app/modules/accounting/repository.py:106-147 | each running balance is, in the account's natural sign, the net of all its lines up to that one since inception |
| `GeneralLedger.ClosingIsNextOpening` | backend/app/modules/accounting/router.py:202-237 | the closing balance of a window is the opening balance of any window starting the next day |
| `GeneralLedger.LedgerMatchesTrialBalance` | backend/app/modules/accounting/service.py:513-551 | a window's movement in the ledger is the account's trial-balance movement |
| `LedgerFigures.ReportLists` | backend/app/modules/accounting/repository.py:122-147 | a report lists exactly the account's posted lines dated in the range, once each, by date and line id; for no account there is none |
| `LedgerFigures.BalancesInNaturalSign` | backend/app/modules/accounting/service.py:513-551 | opening and closing balance are the account's movement before and through the range: debit less credit for assets and expenses, credit less debit for the rest |
| `LedgerFigures.RunningSteps` | backend/app/modules/accounting/service.py:513-551 | each running balance is the one before it moved by its own line in that sign |
| `Reversals.ReversalOpposes` | backend/app/modules/accounting/service.py:378-422 | a reversal is the exact opposite of its original on every account |
| `Reversals.ChainNets` | backend/app/modules/accounting/service.py:378-422 | a reversal chain nets to zero on every account when even, to its first entry when odd |
| `Reversals.ChainAdvances` | backend/app/modules/accounting/service.py:378-422 | along a chain positions strictly increase and dates never decrease, so chains are acyclic |
| `Reversals.ReversedAtMostOnce` | backend/app/modules/accounting/service.py:378-422 | the two links of a reversal are mutually inverse |
| `Reversals.SecondReversalRefused` | backend/app/modules/accounting/service.py:384-385 | over every later run, a reversed entry refuses another reversal and keeps its link |
| `Reversals.SwappedPostable` | backend/app/modules/accounting/service.py:391-400 | the amounts of a stored entry, exchanged, always satisfy both layers |
| `Reversals.ReversalSucceedsIff` | backend/app/modules/accounting/service.py:378-422 | a reversal succeeds exactly when the entry exists, is unreversed, is not later, the period accepts, and every account is still active and postable |
| `DatabaseGuards.TriggersProtectAllButInserts` | backend/alembic/versions/0017_phase_5_accounting.py:294-341 | a statement the triggers allow changes some balance exactly when it inserts a line |
| `DatabaseGuards.LateLineMoves` | backend/alembic/versions/0017_phase_5_accounting.py:326-341 | a line inserted into a posted entry moves its account by the line's amount |
| `DatabaseGuards.ServicePassesTriggers` | backend/alembic/versions/0017_phase_5_accounting.py:294-320 | no call of the service trips the trigger: each leaves an existing entry alone or updates it as the trigger allows |
| `DatabaseGuards.OnlyServiceKeepsMark` | backend/alembic/versions/0017_phase_5_accounting.py:294-320 | over every run a reversal mark never changes, yet the trigger allows a statement to change it to any other, or clear it |
| `DatabaseGuards.PostedColumnsFixed` | backend/alembic/versions/0017_phase_5_accounting.py:294-320 | an update of a posted entry that the trigger allows changes its mark and no other column |
| `PostingRules.TaxedRulesPostable` | backend/app/modules/accounting/posting_rules.py:24-94 | each net/tax rule gives a postable entry exactly under a condition on the two amounts |
| `PostingRules.ExactNetTax` | backend/app/modules/accounting/posting_rules.py:37-94 | at four decimals, within the column, that condition is net > 0 and tax ≥ 0 |
| `PostingRules.EventEffect` | backend/app/modules/accounting/posting_rules.py:15-100 | the lines of every event have exactly the stated effect on every role |
| `PostingRules.ControlAccounts` | backend/app/modules/accounting/posting_rules.py:15-100 | over every sequence of events, the requested lines on AR, AP and GRNI sum to documents minus settlements, before rounding |
| `PostingRules.SaleThenRefundCancels` | backend/app/modules/accounting/posting_rules.py:24-76 | a cash sale and its full restocked refund cancel everywhere except between revenue and returns |
| `ControlBalances.BalanceIsMovement` | backend/app/modules/accounting/repository.py:91-104 | an account's balance is its trial-balance movement over any range covering the journal |
| `ControlBalances.StepBalance` | backend/app/modules/accounting/service.py:240-329 | a service call moves a role's balance by the stored lines of the document it posted, and by nothing else |
| `ControlBalances.LedgerControlAccounts` | backend/app/modules/accounting/posting_rules.py:15-100 | in the books after any run whose postings record a sequence of events, AR, AP and GRNI balances are documents minus settlements in stored amounts |
| `ControlBalances.WorthNear` | backend/app/db/types.py:3-6 | which is within half a quantum per event of the unrounded figure |
| `ChartRuns.ReachableForest` | backend/app/modules/accounting/service.py:92-189 | after every run the chart is a type-uniform forest whose postable accounts are leaves |
| `ChartRuns.PostedLinesHitLeaves` | backend/app/modules/accounting/service.py:269-283 | every line of a new entry is on an account active and a leaf at that moment |
| `ChartRuns.RolesAlwaysResolve` | backend/app/modules/accounting/service.py:269-278 | after bootstrap no role is ever missing |
| `ChartRuns.RoleCanBeDemoted` | backend/app/modules/accounting/service.py:161-189 | a child of the right type under a system account is accepted and demotes it |
| `ChartRuns.DemotedRoleNeverPosts` | backend/app/modules/accounting/service.py:279-283 | once demoted, over every later run, no posting that names the role succeeds |
| `ChartRuns.RolePostableIff` | backend/app/modules/accounting/service.py:161-189 | over every run from nothing, a role's account is postable if and only if it has no child, that is, if no accepted account creation named it as parent |
| `ChartRuns.DocumentRefusedIff` | backend/app/modules/accounting/service.py:254-283 | after every run a document is refused for its accounts exactly when it balances, its period accepts it and one of its roles was so named |
| `ChartRuns.DocumentAcceptedIff` | backend/app/modules/accounting/service.py:240-329 | and accepted exactly when its amounts pass both layers, its period accepts it, none of its roles was so named and its source is new |
| `ChainHash.PreimageInjective` | backend/alembic/versions/0024_phase_11_audit_chain.py:67-85 | the newline-joined text determines the predecessor's hash and every field, when action and resource type hold no newline |
| `ChainHash.NewlineCollides` | backend/alembic/versions/0024_phase_11_audit_chain.py:67-85 | without that restriction two different rows share one text |
| `AuditChain.VerifyChain` | backend/app/modules/audit/chain.py:85-134 | the links returned are exactly those of the broken rows of the tables it checks, each with its two findings; so there is none exactly when every table is clean |
| `AuditChain.ReportExact` | backend/app/modules/audit/chain.py:29-50 | a report lists, in order and once each, exactly the rows whose link is not the preceding hash of their tenant, or whose hash is there and is not the recomputed one, with both findings of each |
| `AuditChain.LookupFindsTip` | backend/alembic/versions/0024_phase_11_audit_chain.py:100-102 | the predecessor lookup finds the end of the tenant's chain, unless rows from before the migration hide it |
| `AuditChain.InvNext` | backend/alembic/versions/0024_phase_11_audit_chain.py:93-140 | every step of every transaction keeps the chain invariant |
| `AuditChain.CommittedRowsFormOneChain` | backend/alembic/versions/0024_phase_11_audit_chain.py:93-140 | in every interleaving the committed rows of a tenant form one linear chain in number order, gaps notwithstanding |
| `AuditChain.ChainAt` | backend/alembic/versions/0024_phase_11_audit_chain.py:104-110 | in a chain every row is numbered above the one before, links to its hash and hashes its own fields |
| `AuditChain.VerdictExact` | backend/app/modules/audit/chain.py:29-50 | the verifier is silent about a tenant exactly when it has no rows from before the migration, or none since |
| `AuditChain.SweepMatchesTenants` | backend/app/modules/audit/chain.py:52-74 | checking a whole table at once is clean exactly when every tenant's part is |
| `AuditChain.VerifierSilentIff` | backend/app/modules/audit/chain.py:85-134 | over both tables after any interleavings, verification is silent exactly when the tenant has no rows from before the migration in either, or none since; without a tenant, when that holds of every tenant in security_events |
| `AuditTamper.SameTailSameRows` | backend/app/modules/audit/chain.py:29-50 | two clean row sequences with the same last hash agree on every hashed field, as far back as hashes go |
| `AuditTamper.EndsInRows` | backend/app/modules/audit/chain.py:29-50 | the same, row by row |
| `AuditTamper.TailVerdictExact` | backend/app/modules/audit/chain.py:29-50 | rows keeping a clean, fully hashed sequence's last hash are clean if and only if they end in its rows, behind a front that is clean and stops at an unhashed row |
| `AuditTamper.TamperingReported` | backend/app/modules/audit/chain.py:29-50 | fewer rows, or other content in a row's place, under the same last hash is reported |
| `AuditTamper.EditReported` | backend/app/modules/audit/chain.py:29-50 | which rows an edit gets named: the row itself by its new link and hash, the one after it exactly when its hash has changed, no other ever; below the tail one of the two always |
| `AuditTamper.FieldEditNamesRow` | backend/app/modules/audit/chain.py:29-50 | a changed field alone gets that row named, for its hash and not its link, and no other |
| `AuditTamper.RemovalReported` | backend/app/modules/audit/chain.py:29-50 | a removal below the tail gets the row after it named, for link and hash, and no other |
| `AuditTamper.SwapReported` | backend/app/modules/audit/chain.py:29-50 | a swap gets both rows and the rows after them named, for link and hash, and no other |
| `AuditTamper.HashesDistinct` | backend/alembic/versions/0024_phase_11_audit_chain.py:67-85 | no two rows of a clean, fully hashed table have the same hash |
| `AuditTamper.TruncationUnseen` | backend/app/modules/audit/chain.py:29-50 | cutting rows off the end is not reported |
| `AuditTamper.UnhashedFrontUnseen` | backend/app/modules/audit/chain.py:29-50 | nor is a row with neither hash nor link in front |
| `AuthSessions.Service.OpenSession` | backend/app/modules/auth/service.py:214-246 | a new session with one unused token |
| `AuthSessions.Service.RevokeSession` | backend/app/modules/auth/repository.py:50-57 | one session is revoked |
| `AuthSessions.Service.RevokeAllSessions` | backend/app/modules/auth/repository.py:77-97 | a user's live sessions but the spared one are revoked, and exactly those are returned |
| `AuthSessions.Service.RotateRefreshToken` | backend/app/modules/auth/service.py:283-330 | new state and every error of a rotation, revoking the session on reuse |
| `AuthSessions.RunKeeps` | backend/app/modules/auth/service.py:214-330 | every run keeps one unused token per session and forward replacement links |
| `AuthSessions.OneLiveTokenPerSession` | backend/app/modules/auth/service.py:214-330 | in every reachable state each session has exactly one unused token and every chain of replacements ends in it |
| `AuthSessions.ReuseKillsSession` | backend/app/modules/auth/service.py:293-312 | after an unexpired used token is presented, no rotation of that session ever succeeds again |
| `AuthRevocation.EndedForGood` | backend/app/modules/auth/service.py:248-254 | after a sign-out, a sign-out everywhere, a password reset, or a password change that keeps one session: no token of a session it was to end ever rotates again, in any later state |
| `AuthRevocation.OthersStillRotate` | backend/app/modules/auth/repository.py:77-97 | every unexpired unused token of any other live session still rotates at once |
| `AuthRevocation.SignedInThenOut` | backend/app/modules/auth/service.py:214-246 | a session belongs for good to the user who signed in: that user's sign-out everywhere or reset ends it, whatever came between |
| `AuthRevocation.SignedInStaysIn` | backend/app/modules/auth/service.py:427-451 | while anybody else's leaves it alone, its token rotating exactly until it expires |
| `AuthRevocation.RotateSucceedsIff` | backend/app/modules/auth/service.py:283-330 | a rotation succeeds exactly for an existing, unexpired, unused token of a session not revoked |
| `AuthRevocation.RotatedTokenTakesOver` | backend/app/modules/auth/service.py:301-312 | then the old token never rotates again and the new one does, exactly until it expires |
| `BffRefresh.Store.AcquireRefreshLock` | frontend/src/lib/bff-session.ts:283-290 | takes the lock exactly when none is live |
| `BffRefresh.Store.ReleaseRefreshLock` | frontend/src/lib/bff-session.ts:292-298 | removes the lock only under its own owner's name |
| `BffRefresh.AwaitRotatedToken` | frontend/src/lib/bff-session.ts:315-329 | the first poll that sees another access token or no session decides, and only the deadline ends the wait without an answer |
| `BffHazard.WriteReachesWaiters` | frontend/src/lib/bff-session.ts:244-258 | after every run, a holder's session write gives every waiter the new access token at its next poll |
| `BffHazard.ClearReachesWaiters` | frontend/src/lib/bff-session.ts:260-267 | a cleared session makes every waiter, and every holder that has sent nothing, fail too |
| `BffOutcomes.ClearHasCause` | frontend/src/lib/bff-upstream.ts:144-156 | over every run a request clears the session only if its own refresh failed, or its own poll or re-check found the session gone |
| `BffOutcomes.GaveUpForGood` | frontend/src/lib/bff-session.ts:327-329 | a waiter that times out leaves session, lock and backend as they are, and never clears, retries or refreshes later |
| `BffOutcomes.FailureClears` | frontend/src/lib/bff-upstream.ts:107-156 | a failed refresh gives back its own lock and then ends the session |
| `BffOutcomes.SuccessRetries` | frontend/src/lib/bff-upstream.ts:103-158 | a successful one writes the session and retries with the access token it wrote |
| `BffOutcomes.RefreshedElsewhere` | frontend/src/lib/bff-upstream.ts:47-55 | a holder that finds another has refreshed sends nothing and retries with the token it found |
| `BffOutcomes.SaveKeepsRefresh` | frontend/src/lib/bff-upstream.ts:164-176 | the session write after a response keeps the refresh token it read and remembers the tenant |
| `BffSafety.InvNext` | frontend/src/lib/bff-upstream.ts:41-182 | every step keeps the invariant that ties lock, session, tokens sent and backend together |
| `BffSafety.NeverReplayed` | frontend/src/lib/bff-upstream.ts:41-109 | in every well-behaved interleaving no refresh token goes upstream twice and no delivery is taken for a reuse |
| `BffSafety.ReleaseSparesOthers` | frontend/src/lib/bff-session.ts:292-298 | whatever the run, a release never removes another owner's lock |
| `BffTiming.PromptIsWellBehaved` | frontend/src/lib/bff-upstream.ts:41-109 | a lock that outlives the longest hold never lapses under a holder that has presented a token |
| `BffTiming.LongLockSuffices` | frontend/src/lib/bff-session.ts:68-72 | so no refresh token goes upstream twice and no delivery is taken for a reuse |
| `BffExposure.BoundsExact` | frontend/src/lib/bff-session.ts:68-72 | for every lock lifetime, call bound and slack between calls: holders that keep their bounds can send a token twice if and only if two calls and three stretches of slack can outlast the lock |
| `BffExposure.ShippedBoundsReplay` | frontend/src/lib/bff-session.ts:49-53 | the shipped bounds pass the start-up assertion and allow a replay, with no time lost between calls |
| `BffExposure.ExposedReplays` | frontend/src/lib/bff-upstream.ts:41-69 | with a spent token in the session and the lock free, the next refused request sends it again |
| `BffExposure.FailureReplays` | frontend/src/lib/bff-upstream.ts:66-75 | a run from sign-in, with a refresh that fails between release and clear, sends a token twice |
| `BffExposure.UnreadableAnswerReplays` | frontend/src/lib/bff-upstream.ts:75-78 | so does one whose answer cannot be read, tenant or not |
| `BffExposure.TokenlessAnswerReplays` | frontend/src/lib/bff-upstream.ts:75-78 | so does one whose answer carries no tokens |
| `BffExposure.RebindThrowReplays` | frontend/src/lib/bff-upstream.ts:86-109 | so does one whose re-binding call throws |
| `BffExposure.StaleSaveReplays` | frontend/src/lib/bff-upstream.ts:164-176 | so does one in which an unlocked session write overtakes a rotation |
| `BffHazard.RepeatNeedsHazard` | frontend/src/lib/bff-upstream.ts:41-182 | in every run, a token sent twice means that earlier a spent token lay in the session with the lock free, or a holder was about to send after its lock lapsed |
| `BffHazard.LapsedSenderReplays` | frontend/src/lib/bff-upstream.ts:41-69 | a holder about to send the session's token can be overtaken once its lock lapses, and the token goes upstream twice |
| `BffHazard.PendingReplays` | frontend/src/lib/bff-upstream.ts:41-182 | a spent token in the session with the lock free, or a lapsed holder about to send the session's token, can always be brought to a repeat |
| `BffWaiting.WaitExact` | frontend/src/lib/bff-session.ts:308-329 | for every wait, call bound and slack between calls: a waiter can time out behind a holder that keeps its bounds if and only if two calls and three stretches of slack can take as long as the wait |
| `BffWaiting.ShippedWaitExact` | frontend/src/lib/bff-session.ts:49-53 | as shipped, that is exactly when any time at all is spent between the calls |
| `LoginBackoff.Account.ApplyBackoff` | backend/app/modules/auth/service.py:200-212 | locks from the fifth failure on, for the doubled and capped delay |
| `LoginBackoff.Account.Login` | backend/app/modules/auth/service.py:117-174 | new counter and lock, the answer, and whether the password was verified |
| `LoginBackoff.GuardTracks` | backend/app/modules/auth/service.py:127-174 | over wrong passwords the counter counts verifications, and the lock ends one delay after the last |
| `LoginBackoff.VerificationsSpaced` | backend/app/modules/auth/service.py:127-212 | the (5 + k)-th verification comes at least the sum of k delays after the fifth |
| `LoginBackoff.TotalDelayClosed` | backend/app/modules/auth/service.py:29-31 | that sum is 930 + 900(k − 5) for k ≥ 5 |
| `LoginBackoff.BoundAttained` | backend/app/modules/auth/service.py:127-212 | the bound is attained |
| `LoginBackoff.RightPassword` | backend/app/modules/auth/service.py:127-174 | after any run of wrong passwords the right one is refused unread while the lock runs, and otherwise goes through and wipes the slate clean |
| `LoginBackoff.WrongPassword` | backend/app/modules/auth/service.py:127-150 | and a wrong one is answered as locked while the lock runs and from the fifth read on |
| `LoginBackoff.InactiveNeverSignsIn` | backend/app/modules/auth/service.py:144-145 | an account switched off never signs in, and its right password changes nothing |
| `RateLimiter.Limiter.Check` | backend/app/core/ratelimit.py:11-23 | the commands of one check and its decision |
| `RateLimiter.ScoresAreRecent` | backend/app/core/ratelimit.py:11-23 | with a non-decreasing clock the sorted set is exactly the distinct attempt timestamps of the window |
| `RateLimiter.AdmitsExactly` | backend/app/core/ratelimit.py:11-23 | a request is admitted exactly when those number at most the limit |
| `RateLimiter.ExpiryHarmless` | backend/app/core/ratelimit.py:11-23 | key expiry never changes what a check finds |
| `RateLimiter.WindowNeverExceeded` | backend/app/core/ratelimit.py:11-23 | no window, wherever it ends, holds more than the limit of admitted timestamps |
| `RateLimiter.SameInstantUnlimited` | backend/app/core/ratelimit.py:11-23 | any number of attempts in one instant is admitted |
| `Cursor.Base64RoundTrip` | backend/app/core/pagination.py:27-35 | stripping the padding loses nothing: the lenient decoder, given padding computed from the length, reads back every byte sequence |
| `Cursor.ScanBody` | backend/app/core/pagination.py:28-35 | an escaped JSON string reads back with adjacent surrogate halves joined, and stops at its closing quote |
| `Cursor.CursorReadsBack` | backend/app/core/pagination.py:27-44 | every cursor decodes to what was encoded, up to that joining |
| `Cursor.CursorRoundTripsIff` | backend/app/core/pagination.py:27-44 | the round trip is exact if and only if neither string has a high surrogate directly followed by a low one |
| `Cursor.SplitPairLost` | backend/app/core/pagination.py:27-44 | such a pair comes back as one code point |
| `Cursor.CursorNonEmpty` | backend/app/core/pagination.py:27-29 | no cursor is the empty string, which callers read as none |
| `Cursor.CursorUrlSafe` | backend/app/core/pagination.py:27-29 | a cursor is made of letters, digits, minus and underscore |
| `Cursor.Alphabet` | backend/app/core/pagination.py:27-29 | the alphabet of section 5 of RFC 4648 |
| `Cursor.PlainBody` | backend/app/core/pagination.py:27-29 | printable ASCII but the quotation mark and the backslash stands for itself in the payload |
| `Pagination.CursorFormatFaithful` | backend/app/modules/audit/service.py:39-48 | if timestamps and ids read back from their texts, keys read back from their cursors |
| `Pagination.Rows` | backend/app/modules/audit/repository.py:27-47 | the query selects exactly the matching rows past the cursor, strictly descending by time and id |
| `Pagination.PageIsPrefix` | backend/app/modules/audit/service.py:49-65 | a page is the longest prefix the limit allows, and offers a cursor, naming its last row, exactly when rows remain |
| `Pagination.WalkDescends` | backend/app/modules/audit/service.py:34-65 | whatever happens to the table between pages, the items of a walk strictly descend, match, and were in some table it read |
| `Pagination.WalkComplete` | backend/app/modules/audit/service.py:34-65 | a finished walk returns every matching row present throughout |
| `Pagination.PresentThroughoutOnce` | backend/app/modules/audit/service.py:34-65 | exactly once |
| `Pagination.WalkFiltered` | backend/app/modules/audit/repository.py:37-45 | whatever happens to the table, a walk returns only events inside the asked range of time, bounds included, and with the asked action, type, resource and actor |
| `Pagination.RangeWalk` | backend/app/modules/audit/repository.py:37-45 | asked for a range alone, a finished walk returns an event there throughout once if it lies in the range, and never otherwise |
| `Pagination.ActionWalk` | backend/app/modules/audit/repository.py:37-45 | the same for an action; the empty string asks for nothing |
| `Pagination.ResumeIsTail` | backend/app/modules/audit/repository.py:29-36 | resuming below a page's last row selects exactly what the page left over |
| `Pagination.FollowIsWhole` | backend/app/modules/audit/service.py:34-65 | on a fixed table the pages joined are the unpaged result, in exactly the pages needed, for any limit ≥ 1 |
| `Pagination.FollowEnds` | backend/app/modules/audit/service.py:56-60 | following the cursor on a fixed table ends |
| `Pagination.WalkIsPrefix` | backend/app/modules/audit/service.py:34-65 | and no walk over it goes on longer |
| `Pagination.CursorErrors` | backend/app/modules/audit/service.py:34-48 | exactly when a range or a cursor is refused |
| `Figures.ScannerIsLongestMatch` | backend/app/modules/ai/grounding.py:17-32 | the scanner starts exactly where a match of the pattern begins and takes the longest one there |
| `Figures.EveryDigitCovered` | backend/app/modules/ai/grounding.py:26-32 | every digit of a text lies inside a match |
| `Figures.SpansDisjoint` | backend/app/modules/ai/grounding.py:26-32 | matches do not overlap and come in text order |
| `Figures.NumbersIn` | backend/app/modules/ai/grounding.py:26-32 | the loop finds exactly the values of the matches |
| `Figures.NoFiguresIffNoDigits` | backend/app/modules/ai/grounding.py:26-32 | a text asserts no figure exactly when it holds no digit |
| `Figures.NumeralValue` | backend/app/modules/ai/grounding.py:19-23 | a decimal numeral reads as the number it writes, wherever separators stand in it |
| `Figures.IntegerValue` | backend/app/modules/ai/grounding.py:19-23 | so does a whole one, negated by a leading sign |
| `Figures.WrittenReads` | backend/app/modules/ai/grounding.py:19-23 | a number written with sign, thousands separators and fraction reads as that number |
| `Figures.WrittenIsOneFigure` | backend/app/modules/ai/grounding.py:26-32 | and is one figure: its text asserts it and no other |
| `Grounding.Collector.Flatten` | backend/app/modules/ai/grounding.py:35-54 | the recursion adds exactly the payload's figures to the set |
| `Grounding.HalfEvenNearest` | backend/app/modules/ai/grounding.py:74-76 | rounding is to the nearest, ties to even |
| `Grounding.PercentNear` | backend/app/modules/ai/grounding.py:74-76 | a percentage is a whole number of tenths within 0.05 of the exact one |
| `Grounding.Base` | backend/app/modules/ai/grounding.py:64-66 | the loop collects exactly the figures of all results |
| `Grounding.GroundedNumbers` | backend/app/modules/ai/grounding.py:57-77 | a number is allowed exactly when it is a figure, a pairwise sum or difference, or the one-decimal percentage of a figure over one that is not smaller in signed order |
| `Grounding.Ungrounded` | backend/app/modules/ai/grounding.py:80-96 | exactly the numbers of the answer that are not allowed, ascending |
| `Grounding.MoreResultsAllowMore` | backend/app/modules/ai/grounding.py:57-77 | more tool results never allow less |
| `Grounding.OrderIrrelevant` | backend/app/modules/ai/grounding.py:57-77 | neither order nor repetition of results matters |
| `Grounding.FiguresAreShown` | backend/app/modules/ai/grounding.py:35-54 | the figures of a payload are exactly the numbers, list lengths and numbers in texts of its nested parts |
| `Grounding.PercentAllowedIff` | backend/app/modules/ai/grounding.py:68-76 | the percentage of one figure over another that is not smaller, in signed order, is always allowed; among positive figures that of a larger over a smaller is allowed exactly when it is one hundred or a figure, sum or difference |
| `Grounding.AboveHundredIff` | backend/app/modules/ai/grounding.py:68-76 | among positive figures a number above one hundred is allowed exactly as a figure, sum or difference |
| `Grounding.RatioAboveOneRefused` | backend/app/modules/ai/grounding.py:68-76 | three over two is not allowed as 150 percent |
| `Grounding.NegativeRatioAllowed` | backend/app/modules/ai/grounding.py:68-76 | with negative figures the same ratio is allowed |
| `Copilot.RunTools` | backend/app/modules/ai/service.py:109-126 | each requested call is run once, in order, and recorded in messages, data and invocations |
| `Copilot.Converse` | backend/app/modules/ai/service.py:74-130 | how the loop of provider calls ends, for every provider |
| `Copilot.Ask` | backend/app/modules/ai/service.py:74-168 | the outcome and number of provider calls of a turn: at most one more than the iterations, and every number in an answer is stated in its data or is the sum, difference or one-decimal percentage of two that are |
| `Copilot.CallsBounded` | backend/app/modules/ai/service.py:81-146 | at most one call more than the configured iterations, and that one only after tool results |
| `Copilot.AnswersAreBacked` | backend/app/modules/ai/service.py:132-168 | for every provider, the numbers of an answer are so backed, and a regenerated answer comes with data |
| `Copilot.DerivableIsBacked` | backend/app/modules/ai/grounding.py:57-77 | the allowed numbers are exactly those backed by parts of the data |
| `Copilot.NoDataNoDigits` | backend/app/modules/ai/service.py:132-168 | with no figure behind it, an answer holds no digit at all |
| `Copilot.DataIsToolResults` | backend/app/modules/ai/service.py:56-72 | whatever the outcome, its data are exactly the tool results of the turn in order, one per reported invocation |
| `Copilot.DataUntouched` | backend/app/modules/ai/service.py:56-72 | what a tool returned is handed on untouched; a missing or refusing tool shows as an error with its reason alone |
| `Copilot.ToolsShown` | backend/app/modules/ai/service.py:106-126 | a round shows the provider each tool's result in the order it asked, under the call's own id |
| `Copilot.FirstReply` | backend/app/modules/ai/service.py:74-103 | the first reply is to the question alone; without tools it is the answer exactly when it states no figure |
| `Copilot.RegeneratedOnce` | backend/app/modules/ai/service.py:132-146 | an unsupported text is regenerated exactly when there are tool results, once, from the same conversation with the stricter instruction and no tools |
| `Copilot.DegradedWhy` | backend/app/modules/ai/service.py:86-158 | why a turn degrades: an unsupported last text, an outage, or iterations spent on tools |
| `Copilot.RowsCounted` | backend/app/modules/ai/service.py:112-119 | the rows reported for a tool are the length of its list of items |
| `Copilot.HonestProviderAnswers` | backend/app/modules/ai/service.py:81-168 | an available provider that states only supported figures gets its first text through, unregenerated, unless the iterations run out |
| `Detectors.MajorityHoldsMedian` | backend/app/modules/anomaly/detectors.py:26-46 | if more than half of the values lie in a range, so does the median |
| `Detectors.MinorityCannotMove` | backend/app/modules/anomaly/detectors.py:26-46 | with fewer than half of the values replaced, the median stays in the range of the rest and the MAD within its width |
| `Detectors.BandStaysBounded` | backend/app/modules/anomaly/detectors.py:26-46 | so the expected band stays within a fixed multiple of that width, and anything beyond it is still reported |
| `Detectors.MedianExact` | backend/app/modules/anomaly/detectors.py:26-46 | the median is the mean of the two middle values of any ascending arrangement |
| `Detectors.DeviationsExact` | backend/app/modules/anomaly/detectors.py:26-46 | the MAD is the median of the distances from the median |
| `Detectors.VerdictExact` | backend/app/modules/anomaly/detectors.py:26-46 | the band, exactly what is an anomaly, and the sign of the deviation |

## Left out

- Inventory, POS, sales, purchasing, VAT, numbering, outbox, forecasting and RBAC services: callers of the ledger, with no hard property of their own shown.
- User interface, HTTP headers, the providers' and stores' clients, mail, object storage and background workers: I/O.
- Cryptography: Argon2, JWT, encryption of the session, TOTP and SHA-256 are replaced by fresh tokens and an injective digest.
- Tenant isolation: one tenant is fixed everywhere except in the audit chain.
- Entry numbers, currencies, descriptions, metadata and the audit records written beside ledger calls: nothing proved depends on them.
- Concurrency between ledger calls: posting does not lock the account rows it checks, so a child account created at the same time is outside the model.
- The order of trial-balance rows by code, and the range limit the report routes put on their dates.
- The 28-digit context of Decimal, and rounding of floats in the detectors: all arithmetic is exact.
- GeneralLedger.RunningSinceInception: line ids are numbered by creation, where the original's are only distinct; ties on a date are ordered by them.
- `z_score` and `ratio_rule` of the detectors: one comparison each.
- Registration, e-mail verification, MFA completion and tenant switching: only their effect on sessions is modelled, as openings and revocations.
- BffHazard.WriteReachesWaiters: does not model the thirty-day expiry of the session key, or the cookies.
- AuditChain.VerifyChain: both tables share one row shape, and table name, row id and time are not part of a reported link.
- Cursor.CursorReadsBack: the decoder refuses payloads that are not ASCII, where the original also reads UTF-8, UTF-16 and UTF-32; cursors it issues are ASCII.
- Pagination.CursorFormatFaithful: the texts of timestamps (years 1 to 9999, in microseconds) and UUIDs are parameters assumed to read back, so the parsers' other accepted spellings are not modelled.
- Figures.NumbersIn: digits are ASCII, where the original also takes other Unicode decimal digits.
- Grounding.Collector.Flatten: numbers are finite; a NaN or infinity in a tool result is not modelled.
- Copilot.RunTools: a tool that fails with anything but an application error ends the turn in the original and is not modelled; an `items` entry without a length counts as no rows.
