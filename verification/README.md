# Verified cores of the shipping platform

A Dafny model of the algorithmic parts of a shipping SaaS: an Express backend and two Next.js front-ends.
Most of that code stores and fetches rows. What is modelled here is the part whose correctness does not
show in any one function. `dafny verify dfyconfig.toml` checks the whole project.

Money is in paise (integers), dates are day numbers, and SQL NULL, null and undefined are `None`.

## The modules

- **EditDistance** — the KYC name matcher. The nested loops over the table are proved equal to the
  recurrence; the recurrence is a metric up to case folding and is the least length of an edit script. The
  penny-drop decision is therefore stated in scripts: accepted if and only if at most three edits turn the
  holder name into one of the two names on file. A name that is not on file is the empty string, so it
  accepts exactly the holder names of at most three characters.
- **TokenRefresh** — the single-flight refresh of both axios clients, as a machine over atomic steps and as a
  class shaped like the interceptor. `Next` is the step; the theorems are about all runs of it.
- **Csv** — the export text and a reader for it after section 2 of RFC 4180 (LF between records).
- **InvoiceNumber, NumberAllocation, Billing** — the printed numbers; the row-locked counter under any
  interleaving of transactions; the two services that call it, one call after another.
- **Recharge, RechargeOverlap** — the three paths that credit a recharge and the wallet service's credits and
  debits, first as atomic transactions, then with the reads and writes of a recharge apart, as the code
  without row locks has them. The main result is an if and only if about every interleaving: the ledger ends
  up sound exactly when each write still found what its transaction had read.
- **RechargeFee** — fee, GST and total of a new recharge in exact arithmetic.
- **AnalyticsTables, SnapshotJob, MergeSeries, AnalyticsQuery, AnalyticsRun** — the nightly job, the live
  queries, the routing between them, and runs of the whole.
- **Retention** — the batched purge of audit logs.
- **ReasonCodes** — the keyword classifier of courier remarks.

## What the code does not keep

Each of these has its condition as a lemma.

- Nothing keeps two calls for one shipment from both passing the idempotency check and both committing an
  invoice: the check takes no lock and `(reference_type, reference_id)` has no unique index. Without such an
  overlap there is at most one (`OrderlyRunsMakeOnePerRef`); with it there can be two (`OverlapCanDuplicate`, and
  `TwoCallsDuplicate` from the empty database); a commit makes the second one exactly when the first was
  committed since the check (`CommitDuplicatesIff`), and `RunKeepsOnePerRefIff` says the same of a whole run. The
  repository's own callers do not produce the overlap: backend/src/services/shipment.service.js:143 invoices
  inside the transaction that has just created the shipment, and line 244 credits after line 235 has locked its
  row. It is open to any caller of the services' own-transaction interface.
- A recharge transaction that overlaps another one of the same wallet is not what the code comment calls an
  "Idempotent Atomic Wallet Credit". From any sound state, two confirmations of one recharge leave two entries
  (`OverlapBreaksLedger`); of two recharges one is lost from the balance (`OverlapLosesCredit`), and so is a
  debit in between (`OverlapLosesDebit`); a verification that fails late overwrites a success, and the recharge
  is then paid twice (`LateFailurePaysTwice`). `RunKeepsLedgerIff` is the exact condition for a whole run,
  `OrderlyRunIsSerial` the refinement that holds without overlap on one wallet.
- An order may be updated while it is pending or processing, also on days whose snapshot is built
  (`EditMakesStale`). A past date's answer is the direct aggregate exactly when the updates since its job add up
  to nothing (`RunsAnswerDirectlyIff`, `EditAgreesIff`).
- Closing the orders of a past day does not end that: a status is checked, and written later without a lock or
  a second check, so a change to processing can be written over a cancellation (`ReopeningMakesStale`). The
  orders of a past day are never updated again exactly when none is editable and no request between its check
  and its write updates or reopens one (`DayIsFinalIff`); a right answer then stays right (`FinalDayStays`).
- Counting delivered history rows (the job) is counting delivered shipments (the live query) exactly when no
  shipment is delivered twice on one day (`TenantSnapshotAgreesIff`, `PlatformRowIsDirectIff`). No status
  leads back to delivered, but two unlocked status updates that overlap can both write the row
  (`DeliveredTwiceDisagrees` is such a database).
- A past day without a snapshot reads as zero (`MissingSnapshotAgreesIff`), which is so between midnight and the
  nightly job.
- One refresh at a time is not one refresh per expired token (`LateAnswerRefreshesAgain`). It is if no refresh
  ends while an eligible request with its token is still unanswered (`OneRefreshPerToken`), and for each refresh
  that is exactly when a second one for its token can follow (`SecondRefreshIff`).
- An invoice and a credit note can print the same number, exactly when the invoice prefix is `CN` and the year
  and counter agree (`PrintedNumbersCollide`); the settings validator admits that prefix, and
  `CreditNotePrefixCollides` is a run in which it happens.
- The CSV text of an empty header list does not read back (`ExportReadsBack` says if and only if).
- The comments on the purge speak of prefixes such as `wallet_`; the underscore is a wildcard of ILIKE, so more
  actions are kept than the comments say (`PatternIsPrefix`, `UnderscoreIsWildcard`).

## Model

| member | source | states |
|---|---|---|
| EditDistance.Levenshtein | backend/src/services/kyc.service.js:9-26 | the nested loops over the table return the edit distance of the recurrence |
| EditDistance.CellRecurrence | backend/src/services/kyc.service.js:13-22 | every cell of the table is the least of its three neighbours' choices, and the edges count characters |
| EditDistance.ZeroIffSameFolded | backend/src/services/kyc.service.js:9-26 | the distance is zero exactly for strings that are pointwise equal after folding |
| EditDistance.Symmetric | backend/src/services/kyc.service.js:9-26 | the distance does not depend on the order of its arguments |
| EditDistance.Triangle | backend/src/services/kyc.service.js:9-26 | the triangle inequality, for all three strings |
| EditDistance.NoScriptIsShorter | backend/src/services/kyc.service.js:9-26 | no sequence of inserts, deletes and substitutions that reaches the target up to folding is shorter than the distance |
| EditDistance.BestScriptReaches | backend/src/services/kyc.service.js:9-26 | the script read off the recurrence reaches the target and has exactly that length |
| EditDistance.DistanceIsLeastScript | backend/src/services/kyc.service.js:9-26 | the distance is the least length of such a script |
| EditDistance.VerifyBankPennyDrop | backend/src/services/kyc.service.js:45-85 | a missing seller is reported; otherwise the bank fields are stored and the tenant is verified exactly when at most 3 edits turn the holder into the legal name, or into the company name if there is no legal name, or into the signatory's name, a name not on file being the empty string |
| EditDistance.MissingTargetAcceptsExactlyShortNames | backend/src/services/kyc.service.js:53-59 | a target name that is not on file accepts exactly the holder names of at most three characters |
| TokenRefresh.ApiClient.OnResponse | frontend/lib/apiClient.ts:25-70 | the handler up to its first await does the model's step: settle, queue, or lead a refresh |
| TokenRefresh.ApiClient.ProcessQueue | frontend/lib/apiClient.ts:14-23 | every waiter and no other request is resolved with the token or rejected, and the queue is emptied |
| TokenRefresh.ApiClient.OnRefreshOk | frontend-admin/lib/apiClient.ts:52-65 | a successful refresh stores the token where the client keeps it, resends the leader and all waiters with it, and ends the refresh |
| TokenRefresh.ApiClient.OnRefreshFailed | frontend-admin/lib/apiClient.ts:66-77 | a failed refresh clears the stored token, rejects the leader and all waiters, and ends the refresh |
| TokenRefresh.ResponseSettlesQueuesOrLeads | frontend-admin/lib/apiClient.ts:27-80 | what one answer does to its request, the queue and the flag in each of the three cases, and that it touches nothing else |
| TokenRefresh.RefreshOkResendsAll | frontend-admin/lib/apiClient.ts:52-65 | a successful refresh puts the next token into the storage of a client that keeps one, and the leader and all waiters, and no other request, back on the network with it |
| TokenRefresh.RefreshFailedRejectsAll | frontend-admin/lib/apiClient.ts:66-77 | a failed refresh empties the storage of a client that keeps the token, and rejects the leader and all waiters and no other request |
| TokenRefresh.StepKeepsInv | frontend/lib/apiClient.ts:11-66 | every step keeps the invariant: the flag says whether a refresh call is out, at most one is, waiters are queued once each, and a kept token is the newest |
| TokenRefresh.WaitersHaveOneRefresh | frontend/lib/apiClient.ts:31-44 | a non-empty queue means exactly one refresh call is outstanding |
| TokenRefresh.EnabledIffUnsettled | frontend/lib/apiClient.ts:25-70 | some step can happen exactly while some request is unsettled |
| TokenRefresh.StepDescends | frontend/lib/apiClient.ts:30-65 | unretried requests, the refresh flag and requests in flight descend lexicographically at every step |
| TokenRefresh.RunsAreBounded | frontend/lib/apiClient.ts:25-70 | n requests make at most n refresh calls, n + 1 sends each, and 2n(n + 1) + n steps, whatever the server answers |
| TokenRefresh.ArrivalKeepsInv | frontend/lib/apiClient.ts:25-70 | a request arriving in the middle keeps the invariant, and runs from there are bounded again |
| TokenRefresh.StuckMeansDone | frontend/lib/apiClient.ts:14-66 | a run that cannot go on has settled every request exactly once and lost no waiter |
| TokenRefresh.SettledStays | frontend/lib/apiClient.ts:14-66 | a settled request is never touched again |
| TokenRefresh.ResolvedIffAnswered | frontend/lib/apiClient.ts:25-70 | a request ends up resolved exactly when some answer to it was a success |
| TokenRefresh.KindServerResolvesAll | frontend/lib/apiClient.ts:45-55 | if refreshes succeed and only the first token is turned down, every request ends up resolved |
| TokenRefresh.LateAnswerRefreshesAgain | frontend/lib/apiClient.ts:30-65 | two requests with one expired token can cause two refreshes, so the bound n is reached |
| TokenRefresh.OneRefreshPerToken | frontend/lib/apiClient.ts:30-66 | if no refresh ends while an eligible request with its leader's token is in flight, every token is refreshed at most once, from any state of the invariant |
| TokenRefresh.SecondRefreshIff | frontend/lib/apiClient.ts:30-66 | once a refresh has ended, well or badly, another one for its leader's token can follow exactly when an eligible request still carried that token |
| Csv.FieldReadsBack | backend/src/services/activityLog.service.js:137-144 | a printed value reads back as itself before a comma, a line feed or the end |
| Csv.RecordReadsBack | backend/src/services/activityLog.service.js:146-149 | a printed record of at least one field reads back as its fields |
| Csv.ExportReadsBack | backend/src/services/activityLog.service.js:136-152 | the export reads back as the header record and each row's values if and only if there is a header |
| Csv.ExportedCells | backend/src/services/activityLog.service.js:132-150 | a reader finds the headers and then, for each row and header, the row's value, or an empty field exactly for a null, missing or empty value |
| Csv.ExportIsInjective | backend/src/services/activityLog.service.js:132-150 | exports with the same text have the same headers and, cell by cell, the same row values, null and missing counting as empty |
| Csv.FieldText | backend/src/services/activityLog.service.js:133-140 | a field is printed as it is, or between quotes with its quotes doubled, exactly when it has a comma, a quote or a line feed |
| Csv.TwoColumnText | backend/src/services/activityLog.service.js:142-149 | where the commas and the line feed stand |
| InvoiceNumber.LabelOfStartYear | backend/src/services/invoiceNumbering.service.js:11-25 | the label names the April-to-March year the month lies in |
| InvoiceNumber.YearBeginsInApril | backend/src/services/invoiceNumbering.service.js:10-26 | the year a label starts with is the calendar year, or the one before from January to March |
| InvoiceNumber.SameLabelIffSameYear | backend/src/services/invoiceNumbering.service.js:11-25 | two months share a label exactly when they lie in the same April-to-March year |
| InvoiceNumber.LabelEndsInTwoDigitYear | backend/src/services/invoiceNumbering.service.js:17-22 | for four-digit years the label ends in the last two digits of the year it ends in |
| InvoiceNumber.PrintedReadsBack | backend/src/services/invoiceNumbering.service.js:73-75 | a printed number gives back prefix, year and counter, for any prefix and any counter |
| InvoiceNumber.PrintIsInjective | backend/src/services/invoiceNumbering.service.js:73-75 | two printed numbers are equal exactly when prefix, year and counter are |
| InvoiceNumber.PrintedLayout | backend/src/services/invoiceNumbering.service.js:73-75 | for four-digit years and counters below a million the text is the prefix, a slash, YYYY-YY, a slash and six digits, with those numbers |
| InvoiceNumber.PrintedPrefix | backend/src/services/invoiceNumbering.service.js:38-50 | the prefix read off an invoice number is the tenant's setting, or INV without tenant or setting; a credit note's is CN |
| NumberAllocation.StepKeepsInv | backend/src/services/invoiceNumbering.service.js:52-71 | every interleaved step keeps the counters locked by one transaction and in line with the committed numbers |
| NumberAllocation.LostRaceOnlyRollsBack | backend/src/services/invoiceNumbering.service.js:60-67 | inserting a counter row that is there by then changes nothing and leaves only the rollback |
| NumberAllocation.NumbersAreGapFree | backend/src/services/invoiceNumbering.service.js:52-71 | in every run each counter's committed numbers are 1 to last_number in commit order |
| NumberAllocation.PrintedNumbersCollide | backend/src/services/invoiceNumbering.service.js:40-75 | within a series no two documents of a run print the same number; across series exactly when the invoice's prefix is CN and year and counter agree |
| NumberAllocation.OrderlyRunsMakeOnePerRef | backend/src/services/invoice.service.js:38-47 | calls for one reference that do not overlap make at most one document for it |
| NumberAllocation.CommitDuplicatesIff | backend/src/services/invoice.service.js:38-100 | a commit makes a second document for its reference exactly when one was committed since the check |
| NumberAllocation.RunKeepsOnePerRefIff | backend/src/services/invoice.service.js:38-100 | any run, however calls overlap, ends with one document a reference exactly when every commit in it found none for its reference |
| NumberAllocation.OverlapCanDuplicate | backend/src/services/creditNote.service.js:33-67 | from any state with two open calls for one reference, at whatever stage, of which one can reach its commit and the other can after it, a run makes two documents |
| NumberAllocation.FinishCommits | backend/src/services/invoiceNumbering.service.js:52-71 | an open call at any stage whose counter is not held by another, and which has lost no insert race, reaches its commit and adds one document with its reference, prefix and series and the next number, and moves that counter to it |
| NumberAllocation.TwoCallsDuplicate | backend/src/services/invoice.service.js:38-100 | a run from the empty state makes two documents for one reference |
| NumberAllocation.CreditNotePrefixCollides | backend/src/validators/settings.validator.js:14-18 | a run from the empty state in which an invoice with prefix CN and a credit note print the same number |
| Billing.BillingService.GenerateNextNumber | backend/src/services/invoiceNumbering.service.js:52-79 | the counter of year and series goes up by one and the number printed is the new value |
| Billing.BillingService.CreateShipmentInvoice | backend/src/services/invoice.service.js:18-116 | for a known shipment without invoice, when nothing throws, exactly one invoice with the shipment's tenant and rate, the tax result and the next number under the effective prefix, its line item and one counter step; otherwise nothing changes, and the existing invoice is returned unless an await it gets to throws |
| Billing.BillingService.CreateCancellationCreditNote | backend/src/services/creditNote.service.js:14-82 | for an invoice without credit note, when nothing throws, exactly one note over its total with its tenant, shipment, the reason and the next CN number, and one counter step; otherwise nothing changes, and the existing note is returned unless an await it gets to throws |
| Billing.InvoicedIsDone | backend/src/services/invoice.service.js:18-116 | the value-level form of invoicing has that contract |
| Billing.CreditedIsDone | backend/src/services/creditNote.service.js:14-82 | and so has that of crediting |
| Billing.InvoicedKeepsInv | backend/src/services/invoice.service.js:18-116 | invoicing, failed or not, keeps one invoice a shipment and the counters used up by the documents |
| Billing.CreditedKeepsInv | backend/src/services/creditNote.service.js:14-82 | crediting keeps one credit note an invoice, of amount equal to its total |
| Billing.RunsKeepTheBooks | backend/src/services/creditNote.service.js:20-72 | over any run documents of a year and counters consumed agree, with all of the invariant |
| Billing.InvoicingAgainChangesNothing | backend/src/services/invoice.service.js:38-47 | after any run a repeated call returns the same unchanged record and allocates nothing |
| Billing.CreditingAgainChangesNothing | backend/src/services/creditNote.service.js:33-42 | the same for a repeated cancellation |
| Recharge.RechargeControllers.VerifyPayment | backend/src/controllers/tenantWalletRecharge.controller.js:164-279 | which reply is given exactly when; a credited recharge is paid into the wallet with one entry, the given or else the old payment id and source client_verify; a rejected one is marked failed; otherwise nothing changes |
| Recharge.RechargeControllers.ProcessSuccessfulRecharge | backend/src/controllers/paymentWebhook.controller.js:68-126 | the same credit with the webhook's source, exactly for a recharge that is found and not successful; otherwise nothing changes |
| Recharge.RechargeControllers.ReconcileTransaction | backend/src/controllers/platformPaymentGateway.controller.js:224-275 | the same credit with the old payment id and source admin_reconcile, and which refusal is given exactly when |
| Recharge.RechargeControllers.CreditWallet | backend/src/services/wallet.service.js:11-68 | a positive credit to an existing wallet raises that balance by the amount, adds one entry of it and replies with the new balance, and nothing else changes; it is refused, with nothing changed, exactly for a non-positive amount or no wallet |
| Recharge.RechargeControllers.DebitWallet | backend/src/services/wallet.service.js:73-158 | the same downwards, and refused also exactly when the balance is below the amount |
| Recharge.RunKeepsNonNegative | backend/src/services/wallet.service.js:93-99 | no run of payments, credits and debits takes a wallet below zero if no recharge is of a negative amount |
| Recharge.InitiateOpensOne | backend/src/controllers/tenantWalletRecharge.controller.js:133-145 | a new recharge has the given amount and order, is not paid, and moves no money |
| Recharge.StepKeepsInv | backend/src/controllers/tenantWalletRecharge.controller.js:235-265 | each step, the wallet service's included, keeps every balance_after a running sum and successful recharges matched one to one with their ledger entries |
| Recharge.RunKeepsInv | backend/src/controllers/paymentWebhook.controller.js:94-118 | the same over every run of atomic steps |
| Recharge.FreshRunKeepsBooks | backend/src/controllers/paymentWebhook.controller.js:94-118 | the same in every state reached from an empty ledger with no successful recharge, nothing else assumed |
| Recharge.RunConserves | backend/src/services/wallet.service.js:11-158 | over every run a balance less the successful recharges and less the wallet service's entries is constant |
| Recharge.OneEntryPerRecharge | backend/src/controllers/platformPaymentGateway.controller.js:249-266 | a recharge is successful exactly when a ledger entry references it, and then only one does |
| Recharge.SuccessStays | backend/src/controllers/paymentWebhook.controller.js:82-87 | in atomic steps success is absorbing, and the record never changes again |
| Recharge.SuccessIffConfirmed | backend/src/controllers/tenantWalletRecharge.controller.js:180-267 | a recharge ends up successful exactly when it was or some step confirmed it |
| Recharge.FinalBalance | backend/src/controllers/tenantWalletRecharge.controller.js:240-244 | each final balance is the starting one plus the amounts of the recharges newly confirmed, each once |
| Recharge.OrderDoesNotMatter | backend/src/controllers/platformPaymentGateway.controller.js:233-268 | runs of the same steps in any order and with any repetition end in the same balances |
| RechargeOverlap.WriteIsAtomicIff | backend/src/controllers/platformPaymentGateway.controller.js:233-268 | a late credit is the whole step done now exactly when the recharge is still not successful and the balance still the one read |
| RechargeOverlap.CreditUsesWhatItRead | backend/src/controllers/tenantWalletRecharge.controller.js:235-265 | whatever has happened since, a credit leaves the balance it read plus the amount, in the wallet and in its entry |
| RechargeOverlap.FailureOverwrites | backend/src/controllers/tenantWalletRecharge.controller.js:229-233 | a failing verification sets failed over any later status unless it had read failed, and moves no money |
| RechargeOverlap.MoveKeepsLedgerIff | backend/src/controllers/tenantWalletRecharge.controller.js:170-267 | from a sound ledger a move, late failed verifications included, leaves a sound ledger exactly when what its write relies on is still so |
| RechargeOverlap.RunKeepsLedgerIff | backend/src/controllers/tenantWalletRecharge.controller.js:170-267 | however transactions interleave, a run ends with a sound ledger exactly when every write in it was timely; no later move repairs it |
| RechargeOverlap.OrderlyRunIsSerial | backend/src/controllers/platformPaymentGateway.controller.js:224-275 | a run in which no payment starts and the wallet service does not move while a payment to the same wallet is open does what its whole steps do one after another |
| RechargeOverlap.OrderlyRunKeepsLedger | backend/src/controllers/platformPaymentGateway.controller.js:224-275 | such a run keeps the ledger sound and every success as it was |
| RechargeOverlap.OverlapBreaksLedger | backend/src/controllers/paymentWebhook.controller.js:71-118 | two overlapping confirmations of one recharge, by any two paths, leave two entries and one gain in the balance |
| RechargeOverlap.OverlapLosesCredit | backend/src/controllers/paymentWebhook.controller.js:89-98 | two overlapping recharges of one wallet lose one of the credits from the balance |
| RechargeOverlap.OverlapLosesDebit | backend/src/services/wallet.service.js:84-115 | a debit between a credit's read and write is in the ledger and lost from the balance, its row lock notwithstanding |
| RechargeOverlap.LateFailurePaysTwice | backend/src/controllers/tenantWalletRecharge.controller.js:180-233 | a verification that fails after another path has credited overwrites the success, and the next confirmation pays the amount again |
| RechargeFee.TotalWithinOnePaisa | backend/src/controllers/tenantWalletRecharge.controller.js:82-144 | the stored total is within one paisa of the stored parts, checkout asks for exactly the total, and no part is negative |
| RechargeFee.OnePaisaIsReached | backend/src/controllers/tenantWalletRecharge.controller.js:82-144 | the difference of one paisa does occur |
| RechargeFee.TotalIsMonotone | backend/src/controllers/tenantWalletRecharge.controller.js:82-99 | a larger amount is never charged a smaller fee, GST or total |
| RechargeFee.StoredIsNearest | backend/src/controllers/tenantWalletRecharge.controller.js:82-144 | fee, GST and total are the nearest paise to the percentage of the amount, to 18 % of the exact fee (or nothing), and to the exact sum |
| RechargeFee.ReplyIsFirstFailedCheck | backend/src/controllers/tenantWalletRecharge.controller.js:53-80 | which refusal is given exactly when, with the default limits of 100 and 500000 |
| AnalyticsTables.TenantsPartition | backend/src/jobs/analyticsSnapshot.worker.js:198-207 | the tenant totals and the total of rows of unknown tenants make up the direct total, each row once |
| AnalyticsTables.PlatformSumIff | backend/src/jobs/analyticsSnapshot.worker.js:198-207 | summing tenant rows is the direct total exactly when rows of tenants outside the list, which the foreign keys exclude, add up to nothing |
| AnalyticsTables.RowsAreShipmentsIff | backend/src/repositories/analyticsQuery.repository.js:74-85 | counting rows is counting distinct shipments exactly when none is delivered twice that day |
| AnalyticsTables.NdrArrives | backend/src/repositories/analyticsQuery.repository.js:88-97 | one more NDR event adds one to the NDR count of its day, for its tenant and the platform, and moves no other metric, scope or day |
| AnalyticsTables.RtoArrives | backend/src/repositories/analyticsQuery.repository.js:99-108 | the same for an RTO record and the RTO count |
| AnalyticsTables.ShipmentArrives | backend/src/repositories/analyticsQuery.repository.js:62-71 | a shipment adds one to the shipments and its rate to the spend |
| AnalyticsTables.DeliveryArrives | backend/src/repositories/analyticsQuery.repository.js:74-85 | a delivered row adds one to the delivered count unless the shipment was delivered that day already |
| AnalyticsTables.InvoiceArrives | backend/src/repositories/analyticsQuery.repository.js:110-119 | an invoice adds its total to the platform's revenue only |
| AnalyticsTables.OrderArrives | backend/src/repositories/analyticsQuery.repository.js:49-60 | an order adds one to the orders and its amount to that of its payment mode |
| AnalyticsTables.EmptyTablesCountNothing | backend/src/repositories/analyticsQuery.repository.js:49-138 | without rows every metric is zero |
| SnapshotJob.AddedOrdersAreTotals | backend/src/jobs/analyticsSnapshot.worker.js:84-95 | adding the groups by tenant and payment mode, in any order, gives the tenant's order totals |
| SnapshotJob.AssignedAreTotals | backend/src/jobs/analyticsSnapshot.worker.js:111-182 | assigning the groups by tenant, in any order, gives the tenant's totals of those metrics |
| SnapshotJob.Job.RunAggregationForDate | backend/src/jobs/analyticsSnapshot.worker.js:41-242 | the day's rows of every tenant and of the platform are the totals, and no other snapshot changes |
| MergeSeries.Merge | backend/src/repositories/analyticsQuery.repository.js:11-38 | the three loops and the sort give the rendered merge of all rows |
| MergeSeries.SortByDate | backend/src/repositories/analyticsQuery.repository.js:37 | sorting the merged rows, taken in any order, gives the one ascending list of them |
| MergeSeries.MergeIsByDate | backend/src/repositories/analyticsQuery.repository.js:11-38 | one row for each date of the inputs, strictly ascending, each metric as last written or the default |
| MergeSeries.SeriesOrderDoesNotMatter | backend/src/repositories/analyticsQuery.repository.js:11-38 | series with unique dates and separate metrics merge alike in any order |
| AnalyticsQuery.QueryLive | backend/src/repositories/analyticsQuery.repository.js:43-138 | merges the six query results, in whatever order each came |
| AnalyticsQuery.LiveIsDirect | backend/src/repositories/analyticsQuery.repository.js:49-138 | the live result is ascending, stays in the range and reads as the direct aggregate on every date |
| AnalyticsQuery.LiveExists | backend/src/repositories/analyticsQuery.repository.js:121-137 | for any tables, scope and range the six queries have an answer, so nothing said about live results is empty |
| AnalyticsQuery.SnapshotRowAt | backend/src/repositories/analyticsQuery.repository.js:143-166 | the snapshot query has a row for a date exactly when the table has, with its values |
| AnalyticsQuery.TenantSnapshotAgreesIff | backend/src/jobs/analyticsSnapshot.worker.js:119-144 | a tenant's snapshot says what the live query would, but for a shipment delivered twice a day |
| AnalyticsQuery.PlatformSnapshotAgreesIff | backend/src/jobs/analyticsSnapshot.worker.js:184-215 | a summed platform metric agrees exactly when rows of tenants outside the list add up to nothing, the revenue always |
| AnalyticsQuery.PlatformRowIsDirectIff | backend/src/jobs/analyticsSnapshot.worker.js:184-215 | under the foreign keys the platform row is the direct aggregate in every metric, the delivered count exactly when no shipment is delivered twice that day |
| AnalyticsQuery.DeliveredTwiceDisagrees | backend/src/services/tracking.service.js:66-88 | a database with one shipment delivered twice a day, in which tenant and platform counts differ from the live ones |
| AnalyticsQuery.PlatformDeliveredAgreesIff | backend/src/jobs/analyticsSnapshot.worker.js:119-144 | the platform's delivered count does exactly when no shipment is delivered twice that day |
| AnalyticsQuery.GetMetricsByDate | backend/src/repositories/analyticsQuery.repository.js:171-195 | the answer never repeats a date, ascends, and is the snapshot before today and live from today on |
| AnalyticsQuery.GetMetricsIsAllLive | backend/src/repositories/analyticsQuery.repository.js:171-195 | with fitting snapshots the answer is the all-live aggregate of the range, per date and metric |
| AnalyticsQuery.MissingSnapshotAgreesIff | backend/src/repositories/analyticsQuery.repository.js:174-192 | a past day without a snapshot agrees exactly when its aggregate is zero |
| AnalyticsRun.StepKeepsInv | backend/src/jobs/analyticsSnapshot.worker.js:41-242 | arriving rows, the checks and writes of order updates and status changes, new tenants, midnights and job runs keep each built day's snapshot plus the updates since equal to what the job would write now |
| AnalyticsRun.RunsAnswerDirectlyIff | backend/src/repositories/analyticsQuery.repository.js:171-195 | in every reachable state, for a range whose past days have had their job, each past date and metric is the direct aggregate exactly when no shipment was delivered twice that day (delivered count) or the order updates since the job add up to nothing (the two order amounts); the other metrics, and today onwards, always are |
| AnalyticsRun.StepAdds | backend/src/repositories/analyticsQuery.repository.js:49-138 | each step, order updates included, moves each metric of each day and scope by exactly the amounts of its row |
| AnalyticsRun.DirectIsHistory | backend/src/repositories/analyticsQuery.repository.js:49-138 | in every reachable state a direct aggregate is the sum of what the steps of the run added to it |
| AnalyticsRun.StatusChecks | backend/src/services/orderStatus.service.js:13-31 | an update is let through exactly for pending and processing orders, and which statuses follow which |
| AnalyticsRun.EditAgreesIff | backend/src/services/order.service.js:88-126 | writing an update of an order of a built day keeps its right snapshot right exactly when the request leaves the amount as it was: no mode change that moves a non-zero amount, and a given amount or item total equal to the old one |
| AnalyticsRun.DayIsFinalIff | backend/src/services/order.service.js:91-173 | no run ever updates an order of a past day again exactly when none of the day's orders is editable and no request between its check and its write updates one or makes it editable |
| AnalyticsRun.FinalDayStays | backend/src/services/order.service.js:91-173 | from such a state on, order updates of the day that add up to nothing stay so over every run |
| AnalyticsRun.ReopeningMakesStale | backend/src/services/order.service.js:128-173 | a run in which the only order of a built day is cancelled and the answer right, and then a change to processing checked earlier is written over it and an update makes the answer wrong |
| AnalyticsRun.EditMakesStale | backend/src/services/order.service.js:91-119 | a run from the start after which the answer is the amount before an update, whatever the two amounts |
| Retention.PatternIsPrefix | backend/src/repositories/auditLog.repository.js:188-193 | an exempt pattern matches exactly the actions that agree with its prefix outside the underscores |
| Retention.EligibleWhenNoneOf | backend/src/repositories/auditLog.repository.js:188-202 | read as none-of, a protected row may go only once it is older than both cutoffs, any other at the first |
| Retention.ProtectedIff | backend/src/repositories/auditLog.repository.js:181-193 | the eight protected prefixes |
| Retention.EligibleWhenNotAllOf | backend/src/repositories/auditLog.repository.js:195-199 | read as not-all-of, the conditions protect nothing |
| Retention.UnderscoreIsWildcard | backend/src/repositories/auditLog.repository.js:181-192 | any character in the place of the underscore is protected too |
| Retention.AuditLogTable.DeleteOld | backend/src/repositories/auditLog.repository.js:180-211 | whatever rows each batch takes, exactly the eligible rows go and their number is returned: under none-of, what stays is younger than the general cutoff, or protected and younger than the financial one; a batch size of zero removes nothing |
| Retention.RoundsIsQuotientPlusOne | backend/src/repositories/auditLog.repository.js:216-245 | the loop runs one query more than the eligible rows divided by the batch size, rounded down |
| ReasonCodes.FirstMatchIsLeast | backend/src/constants/ndrReasonCodes.constant.js:59-63 | the scan returns the first pattern that has a keyword in the text |
| ReasonCodes.NdrReasonIs | backend/src/constants/ndrReasonCodes.constant.js:19-66 | the reason of every text, group by group of keywords, and none unless a delivery-failure keyword occurs |
| ReasonCodes.RtoStatusIs | backend/src/constants/ndrReasonCodes.constant.js:38-82 | the RTO state of every text, group by group |
| ReasonCodes.TextIsBoth | backend/src/constants/ndrReasonCodes.constant.js:50-51 | the text searched is the lower-cased raw status, a blank and the lower-cased remark |
| ReasonCodes.WordsOfBothCount | backend/src/constants/ndrReasonCodes.constant.js:50-51 | a keyword counts in the raw status as well as in the remark |
| ReasonCodes.LongerRemark | backend/src/constants/ndrReasonCodes.constant.js:50-82 | more remark text never turns a reason into null and only moves a result to an equal or earlier pattern |
| ReasonCodes.ReducedReasonsAgree | backend/src/constants/ndrReasonCodes.constant.js:50-66 | deleting keywords that contain another keyword of their list from both tables of the NDR detector changes no answer on any text |
| ReasonCodes.ReducedStatusesAgree | backend/src/constants/ndrReasonCodes.constant.js:73-82 | the same for the RTO detector and its table |
| ReasonCodes.SixKeywordsDecideNothing | backend/src/constants/ndrReasonCodes.constant.js:19-54 | without two of the failure keywords, three of the refusal and one of the payment keywords the detector gives the same reason for every input |
| ReasonCodes.RedundantFailureKeywords | backend/src/constants/ndrReasonCodes.constant.js:54 | every failure keyword contains one of the six kept |
| ReasonCodes.RedundantRefusalKeywords | backend/src/constants/ndrReasonCodes.constant.js:28-31 | every refusal keyword contains one of the three kept |
| ReasonCodes.RedundantPaymentKeywords | backend/src/constants/ndrReasonCodes.constant.js:32-35 | every payment keyword contains one of the five kept |

## Assumptions

- Folding (`toLowerCase`, the case rule of ILIKE) is a function of one character; nothing else is assumed of it,
  but that it tells `w` from `i` in `EligibleWhenNotAllOf`.
- Re-sending an axios request keeps its `_retry` mark, and a continuation runs to its next await undisturbed.
- Transactions of `NumberAllocation` run at read committed: locked reads see the latest committed row, row locks
  and unique-key inserts are held to the end of the transaction, and the loser of an insert race fails.
- The results of grouped SQL queries hold one row for each group that has a row, in any order.
- The snapshot job joins shipments with their delivered history rows. Its include names the association
  `statusHistories` (backend/src/jobs/analyticsSnapshot.worker.js:127), which is registered as `statusHistory`
  (backend/src/models/index.js:264); the model takes the join that is meant.
- `getMetrics` reads the clock once, yesterday is the day before today, and dates are of one time zone.
- Ledger and wallet rows change only by the three recharge paths and the wallet service's credit and debit; what
  a wallet held before a run is its opening balance. The wallet service locks the wallet row, so its moves are atomic.
- Updating a loaded row writes its status only if it differs from the one that was loaded.
- The database enforces its keys: every order, shipment, NDR event and RTO record names a tenant of the tenant
  table (`tenant_id`, backend/src/migrations/20260105000001-create-orders.js:11-20 and likewise), ids are unique.
- The job reads the tables of its day as of one moment. Order rows are loaded and updated in one step by the
  repository's update (backend/src/repositories/order.repository.js:60-90); a status changes only along the paths
  that `CanMove` lists.

## Left out

- CreateShipmentInvoice: calls inside a caller's transaction are not modelled; their outcome belongs to that transaction.
- CreateCancellationCreditNote: the same for cancellations inside a caller's transaction.
- Express routes, validation, models, migrations, seeds, PDF, email, storage, WhatsApp and the React pages: input and output around the cores.
- HMAC, AES, bcrypt, JWT and the Razorpay API: the verdict on a signature and the encrypted account number are inputs.
- Tax calculation and the settings service are not part of this model: the tax result and the trimmed, upper-cased invoice prefix are inputs.
- The wallet service inside a caller's transaction, its calls that throw and roll back, its low-balance event, and `reconcileWalletBalance`, which nothing calls.
- The audit-log rows that invoicing and crediting write: they are outside the transaction and their failure is swallowed.
- The gateway credentials check and the manual checkout of a recharge: one branch each, before the amounts matter.
- Floating-point error: amounts are exact; `RechargeFee` takes amounts in whole paise.
- A carriage return outside quotes: the printer does not quote it, and the reader takes it as text, where RFC 4180 ends records with CRLF.
- Courier performance, zone distribution, wallet trend and top-tenant reports: one SQL query each.
- Redirects to the login page and the stored user record of the platform client: browser effects with no bearing on the protocol.
- KYC status updates, gateway toggles, pagination and history lists: settled by one or two branches.
