# Ledger repair, delivery and matching: a verified model

This project models the parts of an ERP back office that rewrite financial data in place, and
proves what they keep. The store is a set of finite maps from primary key to row. Methods change it
through a `Session` that knows savepoints, commits and rollbacks, statement by statement as the
scripts do; each is proved against a function of the old state, and the properties are lemmas about
those functions. Every answer the code does not control (which of several equal rows a query returns,
whether a posting service posts, refuses or raises, whether a flush, savepoint release or commit fails, how threads
interleave) is a parameter, so each theorem holds for all of them.

| file | what it models |
|---|---|
| `Basics.dfy`, `Session.dfy`, `Sums.dfy`, `ErpStore.dfy` | shared values; the session; SQL sums; the store and the general ledger |
| `Ranking.dfy`, `DedupPairs.dfy`, `DedupColumns.dfy`, `DedupVoid.dfy`, `DedupEffect.dfy`, `DedupRecalc.dfy`, `DedupTransactions.dfy` | `scripts/dedup_ar_transactions.py`: pairing, voiding in batches, recalculation, the whole run and its integrity report |
| `CustomerFks.dfy`, `CustomerCodes.dfy`, `JoinedIds.dfy`, `DedupCustomers.dfy`, `CustomerMerges.dfy`, `CustomerColumns.dfy`, `CustomerOrgs.dfy`, `CustomerRun.dfy` | `scripts/dedup_customers.py`: merging and renumbering customers, what that does to ids, parents and organisations, and the whole run |
| `Calendar.dfy`, `FiscalPeriods.dfy`, `FiscalCreation.dfy` | the month walk and the reopen/restore protocol in both of its versions |
| `PostingBatches.dfy`, `ChunkLoop.dfy` | what a posting batch makes durable, and the chunk loop around it |
| `ExactMatchAllocation.dfy` | `scripts/allocate_exact_match_payments.py` over repeated runs |
| `ExceptionSearch.dfy`, `AuditCache.dfy` | the exception search and the settings cache of `app/main.py` |
| `LokiDelivery.dfy` | queue, handler and backoff of `app/monitoring.py` |
| `InclusiveTax.dfy`, `BankMatching.dfy` | VAT splitting and backfill; invoice and customer matching |

Money is an integer of the smallest stored unit, or a real number of kobo where rounding is the
subject; dates are day ordinals; customer names stand for `lower(trim(legal_name))`, the only form
the scripts compare.

## Where the code does less than it says

* "One failure never cascades" (`scripts/backfill_gl_postings.py:463-468`) holds forward only: a
  raising item also undoes the uncommitted successes before it (`FailureCascadesBackward`).
* The chunk loop's guard against endless loops misses chunks that persist nothing without being all
  failures (`EndsIffNotStuckForGood`, `EndsIffNeverStuck`, with three instances); failing commits alone
  keep it going for ever (`LostCommitsNeverEnd`). Termination therefore asks for progress.
* An inventory item whose savepoint cannot be released counts as posted and as failed (`TallyIsTotal`).
* The generic restore closes SOFT_CLOSED periods hard, and the generic prepare leaves FUTURE periods
  closed to postings (`GlRoundTrip`, `GlCoverage`).
* The month walk fails on `uq_fiscal_period` iff an uncovered month's number is taken
  (`WalkRaisesIff`), which disjoint, month-aligned periods do not exclude (`WalkCanRaise`).
* Renumbering fails on `uq_customer_code` iff a customer of the same organisation created later holds
  a code being handed out (`RenumberCustomers`).
* `scripts/dedup_customers.py` selects by name over all organisations, so a merge can hand rows of one
  organisation to a customer of another; `Steps2And3StayHomeIff` says exactly when none does.
* `parent_customer_id` is no column the merges move: a customer whose parent is merged away is left
  without one (`ParentsKeptIff`), although foreign keys are said to be reassigned everywhere.
* Merged Splynx ids are cut at 100 characters, and a winner without an id does not get the single one of
  its losers (`IdsKeptIff`).
* When the balance rebuild or the integrity report raises, `dedup_ar_transactions.py` reports a rollback
  although step 7 has already committed everything (`RunSteps`).
* The recalculation step repairs statuses only when some amount was wrong (`StatusesFitIff`).
* Duplicates with an empty ERPNext id leave their keeper unlinked; `EmptyIdsExactly` says when
  duplicates then remain. Pairing by rank can miss a pair when the sides differ in number;
  `InvoicePairingIff` says exactly when it misses none.
* The allocation loop's rollback spans the whole run, so a failing candidate undoes the successes
  before it (`KeepsWorkAfterLastFailure`), and the dry run announces PAID for a payment short by less
  than the tolerance (`DryRunAgrees`).
* The backoff `2.0 ** n` overflows at the 1024th consecutive failure before the cap applies; the
  standard library's listener thread ends on the exception, and one record is neither sent nor counted
  as dropped (`RecordsAreConserved`, `OverflowKills`, `ListenerCanDie`).
* A second VAT run changes nothing for any rate and any data, also where a tax rounded to zero and the
  invoice is selected again (`SecondRunIsNoOp`). Subtotals can drop when a total
  rises by less than one kobo (`KoboRisesKeepSubtotals`).
* The prerequisite message of `dedup_ar_transactions.py` tells the operator to use step 6 to merge
  customers; the merge is step 1 of `STEPS`.

## Model

| member | source | states |
|---|---|---|
| `GeneralLedger.VoidGlForJournal` | scripts/dedup_ar_transactions.py:136-189 | executed statement by statement, the new state is the whole of VoidGl and the three row counts are the lines removed, the batches removed and the journals voided |
| `GeneralLedger.VoidGlKeepsSound` | scripts/dedup_ar_transactions.py:136-189 | whatever batch id the document carries: journals stay balanced, no line sits on a VOID journal, the trial balance stays zero, and exactly the voided journal's lines go |
| `GeneralLedger.VoidGlKeepsLiveBatches` | scripts/dedup_ar_transactions.py:162-181 | whatever batch id the document carries, no journal left live loses its posting batch |
| `GeneralLedger.BatchGoesWithLastJournal` | scripts/dedup_ar_transactions.py:162-181 | when the document names its journal's own batch, a batch is left iff one of its journals is still live |
| `GeneralLedger.BalancedTotal` | scripts/dedup_ar_transactions.py:1021-1039 | if the lines of every journal balance, the whole ledger balances |
| `GeneralLedger.NothingPosted` | scripts/dedup_ar_transactions.py:1021-1039 | an empty ledger is balanced |
| `GeneralLedger.OneMoreLine` | scripts/dedup_ar_transactions.py:1021-1039 | one more line moves the trial balance, and the balance of its own journal only, by its debit minus its credit |
| `Ranking.RankOrders` | scripts/dedup_ar_transactions.py:281-329 | ROW_NUMBER is strictly increasing in (day, created_at, id) within a partition |
| `Ranking.RankExists` | scripts/dedup_ar_transactions.py:281-329 | row numbers have no gaps: each number up to the partition size occurs |
| `Ranking.PairsInjective` | scripts/dedup_ar_transactions.py:281-329 | the rank join pairs each row with at most one row of the other side |
| `Ranking.PairsAfterRemoval` | scripts/dedup_ar_transactions.py:281-329 | removing both halves of one pair leaves exactly the other pairs |
| `Ranking.PairCount` | scripts/dedup_ar_transactions.py:281-329 | a partition yields min(left size, right size) pairs |
| `Ranking.RankPairingOptimal` | scripts/dedup_ar_transactions.py:478-526 | bottleneck optimality: if any one-to-one matching of both sides keeps all pairs within a window, pairing rank with rank does too |
| `Ranking.AllPairedIff` | scripts/dedup_ar_transactions.py:478-526 | exactly when the rank pairing pairs one side of a group completely within a window: some one-to-one matching does, of that side with as many of the lowest-ranked rows of the other |
| `DedupPairs.PaymentPairsInjective` | scripts/dedup_ar_transactions.py:281-329 | no payment is in two pairs or on both sides |
| `DedupPairs.InvoicePairsInjective` | scripts/dedup_ar_transactions.py:478-526 | no invoice is in two pairs or on both sides |
| `DedupPairs.PaymentPairCount` | scripts/dedup_ar_transactions.py:281-329 | payments of one (customer, amount, date) pair off until the shorter side runs out |
| `DedupColumns.PaymentPairColumns` | scripts/dedup_ar_transactions.py:281-329 | a row of the payment query by columns: live Splynx-only and ERPNext-only payments of one customer, amount and date, with as many payments of that key and their own side created before each |
| `DedupColumns.InvoicePairColumns` | scripts/dedup_ar_transactions.py:478-526 | a row of the invoice query by columns: live Splynx-only and ERPNext-only invoices of one customer and one total, dated at most 3 days apart, with as many such invoices of their own side earlier by date, creation time and id |
| `DedupColumns.InvoiceIsPairedIff` | scripts/dedup_ar_transactions.py:478-526 | a live ERPNext-only invoice is paired iff some live Splynx-only invoice of its customer and total within 3 days has as many such invoices of its side before it |
| `DedupPairs.InvoicePairingIff` | scripts/dedup_ar_transactions.py:478-526 | for any counts, the query finds a keeper for every ERPNext invoice of a (customer, total) group iff these can be matched one to one, within three days, with as many of the earliest Splynx invoices of the group |
| `DedupPairs.InvoicePairingOptimal` | scripts/dedup_ar_transactions.py:478-526 | with equal counts it does so iff the two whole sides can be matched one to one within three days |
| `DedupPairs.UnequalSidesCanMiss` | scripts/dedup_ar_transactions.py:478-526 | an instance where that condition fails although a same-day pair exists, derived from the iff: Splynx days 1 and 100 against ERPNext day 100 |
| `DedupVoid.VoidDupPayments` | scripts/dedup_ar_transactions.py:335-427 | over every pattern of failing batches, and failures in the middle of a batch, the final state is that of the successful batches applied in order; a dry run changes nothing |
| `DedupPairs.PaymentRowsAfter` | scripts/dedup_ar_transactions.py:363-397 | one pair: the duplicate becomes VOID, the keeper takes a non-empty ERPNext id iff it has none, every other column and payment stays |
| `DedupPairs.InvoiceRowsAfter` | scripts/dedup_ar_transactions.py:560-607 | the same for a pair of invoices |
| `DedupVoid.VoidDupInvoices` | scripts/dedup_ar_transactions.py:532-638 | the same for invoices |
| `DedupVoid.SuccessfulAt` | scripts/dedup_ar_transactions.py:350-354 | the pair at place i goes through iff the batch of five hundred that place i belongs to does |
| `DedupVoid.VoidPaymentsKeepSound` | scripts/dedup_ar_transactions.py:363-391 | voiding any list of payment pairs keeps the ledger sound and creates no allocation to a VOID or missing record |
| `DedupVoid.VoidInvoicesKeepSound` | scripts/dedup_ar_transactions.py:560-605 | the same for invoice pairs |
| `DedupVoid.VoidPaymentsKeepLiveBatches` | scripts/dedup_ar_transactions.py:363-391 | over any list of payment pairs every live journal keeps its posting batch |
| `DedupVoid.VoidInvoicesKeepLiveBatches` | scripts/dedup_ar_transactions.py:560-605 | over any list of invoice pairs every live journal keeps its posting batch |
| `DedupVoid.PaymentQueryResumes` | scripts/dedup_ar_transactions.py:281-329 | with non-empty ERPNext ids, after any of the pairs were applied, in any order, the payment query returns exactly the others |
| `DedupVoid.InvoiceQueryResumes` | scripts/dedup_ar_transactions.py:478-526 | with non-empty ERPNext ids, after any of the pairs were applied, in any order, the invoice query returns exactly the others, date window included |
| `DedupVoid.FailedBatchesAreRetried` | scripts/dedup_ar_transactions.py:350-415 | with non-empty ERPNext ids, the next payment query returns exactly the pairs of the failed batches |
| `DedupVoid.FailedInvoiceBatchesAreRetried` | scripts/dedup_ar_transactions.py:548-625 | with non-empty ERPNext ids, the next invoice query returns exactly the pairs of the failed batches |
| `DedupEffect.VoidPaymentsEffect` | scripts/dedup_ar_transactions.py:363-397 | closed form of a whole list of payment pairs: each duplicate VOID and without allocations, its journal VOID and without lines, each keeper linked to the ERPNext id, everything else as before |
| `DedupEffect.VoidInvoicesEffect` | scripts/dedup_ar_transactions.py:556-607 | closed form for invoice pairs, line taxes of the duplicates removed as well |
| `DedupEffect.PaymentBatchesFollowJournals` | scripts/dedup_ar_transactions.py:162-181 | after any list of payment pairs a posting batch is left iff one of its journals is live, if it was so before and documents and journals agree on the batch |
| `DedupEffect.InvoiceBatchesFollowJournals` | scripts/dedup_ar_transactions.py:162-181 | the same after any list of invoice pairs |
| `DedupEffect.VoidPaymentsOrderFree` | scripts/dedup_ar_transactions.py:335-427 | the order in which the query lists the payment pairs does not matter |
| `DedupEffect.VoidInvoicesOrderFree` | scripts/dedup_ar_transactions.py:532-638 | the order in which the query lists the invoice pairs does not matter |
| `DedupEffect.ResumedPaymentRunConverges` | scripts/dedup_ar_transactions.py:335-427 | with non-empty ERPNext ids, and documents and journals agreeing on the batch, a payment run with failed batches followed by one without ends in the very state of an undisturbed run |
| `DedupEffect.ResumedInvoiceRunConverges` | scripts/dedup_ar_transactions.py:532-638 | the same for invoices |
| `DedupRecalc.RecalculateAmountPaid` | scripts/dedup_ar_transactions.py:644-754 | the four bulk updates, one statement after another, amount to Recalculated; the number of mismatches is reported; a dry run changes nothing |
| `DedupRecalc.RecalculatedExactly` | scripts/dedup_ar_transactions.py:675-733 | once a mismatch is found, every live invoice gets the exact sum, and from old status, total and sum its exact new status: with a positive total, nothing paid sends PAID and PARTIALLY_PAID to POSTED, all paid gives PAID, in between PARTIALLY_PAID; totals that are not positive are skipped by the first and the last |
| `DedupRecalc.MismatchIff` | scripts/dedup_ar_transactions.py:660-673 | a mismatch is found iff the amount of some live invoice is not its sum of live allocations; otherwise nothing changes |
| `DedupRecalc.OneMoreAllocation` | scripts/dedup_ar_transactions.py:660-673 | the sum: one more allocation adds its amount to its own invoice iff its payment exists and is not VOID, and to no other |
| `DedupRecalc.NothingPaid` | scripts/dedup_ar_transactions.py:660-673 | the sum of an invoice without allocations is zero |
| `DedupRecalc.NoMismatchLeft` | scripts/dedup_ar_transactions.py:675-695 | afterwards no live invoice disagrees with the sum of its live allocations |
| `DedupRecalc.RecalculatedStatus` | scripts/dedup_ar_transactions.py:675-733 | once a mismatch was found, a posted invoice with positive total and non-negative sum gets the exact sum, and is PAID iff fully paid, PARTIALLY_PAID iff strictly between, POSTED or OVERDUE iff nothing is paid |
| `DedupRecalc.RecalculatedOthers` | scripts/dedup_ar_transactions.py:675-733 | documents in other statuses keep their status, VOID ones their amount too |
| `DedupRecalc.StatusUpdatesCommute` | scripts/dedup_ar_transactions.py:698-733 | the three status updates give the same result in all six orders and when repeated |
| `DedupRecalc.RecalculateIdempotent` | scripts/dedup_ar_transactions.py:644-754 | a second run of the step changes nothing |
| `DedupRecalc.StatusesFitIff` | scripts/dedup_ar_transactions.py:660-733 | every billable invoice ends with the status that stands for its allocations iff some amount was wrong or every such status was right before |
| `DedupRecalc.WrongStatusCanSurvive` | scripts/dedup_ar_transactions.py:660-673 | an instance that fails it: a PAID invoice without allocations and with amount_paid zero |
| `DedupTransactions.MergeDupCustomers` | scripts/dedup_ar_transactions.py:834-915 | the merge loop of STEPS[1] applies the join rows in order up to a refused statement and counts every later pair as an error; a dry run changes nothing |
| `DedupTransactions.MergeLeavesNoDupCustomers` | scripts/dedup_ar_transactions.py:54-87 | after STEPS[1] all rows and keys are kept and the prerequisite check finds no unmerged pair |
| `DedupTransactions.ExactlyMergedAway` | scripts/dedup_ar_transactions.py:834-905 | STEPS[1] deletes exactly the ERPNext-coded customers without a Splynx id whose name a Splynx customer bears |
| `DedupTransactions.MergedIds` | scripts/dedup_ar_transactions.py:866-883 | an ERPNext id present stays; a new one is non-empty and that of a namesake merged away |
| `DedupTransactions.MergedIdTaken` | scripts/dedup_ar_transactions.py:866-883 | a survivor without an ERPNext id does take one if a namesake merged away has a non-empty one |
| `DedupTransactions.RunSteps` | scripts/dedup_ar_transactions.py:921-945 | the execute-mode run ends in the state Pipeline gives, stored, iff no merge is refused, no step up to 6 raises and the commit of step 7 goes through, even if something raises after it; otherwise nothing is stored |
| `DedupTransactions.ReportMeans` | scripts/dedup_ar_transactions.py:968-1055 | what each zero of the integrity report says about allocations, ledger lines, invoices and pairs of payments |
| `DedupTransactions.FiveChecksAlwaysClean` | scripts/dedup_ar_transactions.py:968-1055 | from a clean start and whatever batches fail, five of the six integrity checks come out clean |
| `DedupTransactions.RunIsCleanIff` | scripts/dedup_ar_transactions.py:968-1055 | all six checks are clean after the run iff every batch of payment pairs went through |
| `DedupTransactions.SecondRunChangesNothing` | scripts/dedup_ar_transactions.py:1121-1190 | after a run without failed batches the queries of a second run return nothing and the store stays the same |
| `DedupTransactions.DuplicatesIffPairs` | scripts/dedup_ar_transactions.py:1041-1055 | the check for remaining duplicates finds something iff the pairing query still returns a pair |
| `DedupTransactions.EmptyIdsExactly` | scripts/dedup_ar_transactions.py:388-397 | with empty ERPNext ids allowed, applying all payment pairs clears the duplicates iff no pair with an empty id has a key with a further ERPNext payment |
| `DedupTransactions.EmptyIdLeavesDuplicate` | scripts/dedup_ar_transactions.py:388-397 | an instance that fails it: one Splynx payment, two ERPNext payments, an empty id on the first |
| `CustomerFks.ReassignCustomerFks` | scripts/dedup_customers.py:88-137 | the loop over the foreign-key tables moves every row of the loser, skips empty tables without effect, and tallies exactly the rows it found per table |
| `CustomerFks.RowCountIs` | scripts/dedup_customers.py:98-118 | the tallied counts are the numbers of rows that name the customer |
| `CustomerFks.RowCountsAddUp` | scripts/dedup_customers.py:88-137 | after a merge the winner has as many rows of each table as both had, aging rows aside, and the loser none |
| `CustomerFks.MergeKeepsIntegrity` | scripts/dedup_customers.py:88-180 | merging two customers of one name: no foreign key or parent dangles, every row keeps a customer of its name, only aging rows can disappear, aging keys stay unique and none is lost per name; exactly the loser's children lose their parent |
| `CustomerFks.WinnerKeysAreUnion` | scripts/dedup_customers.py:140-168 | the winner's (period, bucket) aging keys become the union of both sides |
| `CustomerFks.MergeOneRow` | scripts/dedup_ar_transactions.py:862-895 | the loop body shared by both name merges: copy the ERPNext id, move the keys, delete the loser |
| `CustomerFks.MergeRowsKeepIntegrity` | scripts/dedup_ar_transactions.py:862-905 | any number of such merges keeps the integrity of every table |
| `CustomerFks.MergeRowsDelete` | scripts/dedup_ar_transactions.py:884-891 | they delete exactly the losers |
| `CustomerFks.MergeRowsIds` | scripts/dedup_ar_transactions.py:868-891 | a survivor changes in its ERPNext id and parent at most: an id it had stays, else it takes the first non-empty one offered; a parent is lost iff it was merged away |
| `CustomerFks.OfferedIdMeans` | scripts/dedup_ar_transactions.py:868-883 | the id offered to a survivor is that of the first row with a non-empty one for it |
| `DedupCustomers.MergeSplynxInternal` | scripts/dedup_customers.py:253-340 | step 2 as a loop over groups and their members equals MergeGroups |
| `DedupCustomers.SplynxIdsExactly` | scripts/dedup_customers.py:303-308 | the ids collected for a group are its non-empty Splynx ids, each once |
| `DedupCustomers.WholeJoinIff` | scripts/dedup_customers.py:315-326 | with several ids the winner gets their whole join iff it has at most 100 characters |
| `JoinedIds.TruncatedReadableIff` | scripts/dedup_customers.py:325 | for ids without commas, the cut text still holds each of them iff nothing was cut |
| `DedupCustomers.IdsKeptIff` | scripts/dedup_customers.py:302-326 | a group merge keeps every one of its (comma-free) Splynx ids readable iff, of several, the join fits into 100 characters and, of one, it is the winner's own |
| `DedupCustomers.LoneIdIsLost` | scripts/dedup_customers.py:315-316 | an instance that fails it: a winner without an id does not take over its loser's one |
| `DedupCustomers.Step2LeavesOnePerName` | scripts/dedup_customers.py:253-340 | whatever order and tie-breaks the database picks, integrity is kept and no name has two SPLYNX customers |
| `CustomerColumns.TextOrder` | scripts/dedup_customers.py:285-298 | the order of ids: a prefix comes first, else the smaller character at the first difference |
| `CustomerColumns.Step2KeepsTheFirst` | scripts/dedup_customers.py:253-340 | of SPLYNX namesakes the one left has the most invoices, or as many and the first Splynx id, none coming last; the others are gone |
| `CustomerColumns.Step2KeepsSomebody` | scripts/dedup_customers.py:253-340 | of each such name somebody is left |
| `CustomerColumns.Step2KeepsOthers` | scripts/dedup_customers.py:253-298 | no customer without a SPLYNX code is merged away in step 2 |
| `CustomerColumns.SplynxIdsInOrder` | scripts/dedup_customers.py:302-308 | a group's ids are collected in listing order |
| `DedupCustomers.GroupByErpnext` | scripts/dedup_customers.py:374-380 | the dictionary of matches holds its keys in order of first appearance, each with its first match |
| `DedupCustomers.MergeErpnextSplynx` | scripts/dedup_customers.py:346-418 | step 3 as a loop merges exactly the first match of each ERPNext customer |
| `DedupCustomers.Step3LeavesNoNamesakes` | scripts/dedup_customers.py:346-418 | for any row order, no un-numbered ERPNext customer shares a SPLYNX customer's name afterwards |
| `CustomerColumns.Step3Exactly` | scripts/dedup_customers.py:346-418 | step 3 deletes exactly the customers that are neither SPLYNX nor CUST coded and share a SPLYNX customer's name |
| `CustomerColumns.FirstMatchesAreFirst` | scripts/dedup_customers.py:374-380 | each of them is merged by its first row |
| `CustomerColumns.Step3Ids` | scripts/dedup_customers.py:389-400 | an ERPNext id present stays; a new one is non-empty and that of a namesake merged away |
| `CustomerColumns.Step3TakesAnId` | scripts/dedup_customers.py:389-400 | the only SPLYNX customer of a name, without an ERPNext id, does take one if some such namesake has a non-empty one |
| `DedupCustomers.Steps2And3` | scripts/dedup_customers.py:648-656 | both steps in sequence: one SPLYNX customer per name, no namesakes, every row with a live customer of its own name |
| `CustomerMerges.RunAlike` | scripts/dedup_customers.py:253-418 | steps 2 and 3 amount to one list of merges and otherwise write ids of other systems only |
| `CustomerMerges.RunOneWay` | scripts/dedup_customers.py:253-418 | in that list no winner is ever a loser and nobody loses twice |
| `CustomerMerges.Step2FromStart` | scripts/dedup_customers.py:285-298 | each group is listed at its own turn, but as the store before the run would list it |
| `CustomerMerges.ParentsKeptIff` | app/models/finance/ar/customer.py:216-221 | after steps 2 and 3 no parent dangles, and every remaining customer still has its parent iff none was a child of a customer merged away |
| `CustomerMerges.ChildCanLoseParent` | app/models/finance/ar/customer.py:216-221 | an instance that fails it, for every query answer |
| `CustomerOrgs.MergesStayHomeIff` | scripts/dedup_customers.py:88-180 | any list of merges in which no winner ever loses keeps every row inside its organisation iff each merge, read off the store before the first, joins customers of one organisation or has a loser with no rows but aging rows whose keys its winner or an earlier loser of it has |
| `CustomerOrgs.MergeStaysHomeIff` | scripts/dedup_customers.py:88-180 | for one merge: iff the two share an organisation or the loser has nothing the winner lacks |
| `CustomerOrgs.Step2StaysHomeIff` | scripts/dedup_customers.py:253-340 | the same condition for step 2, whatever the queries answer |
| `CustomerOrgs.Steps2And3StayHomeIff` | scripts/dedup_customers.py:253-418 | the same condition for steps 2 and 3 together |
| `CustomerOrgs.MergeCanLeaveOrg` | scripts/dedup_customers.py:259-298 | an instance that fails it, for every query answer: of two SPLYNX namesakes of different organisations the one with fewer invoices is merged away, and its invoice changes organisation |
| `CustomerOrgs.NamesWithinOrgsSuffice` | scripts/dedup_customers.py:253-418 | no row leaves its organisation when no name occurs in two of them |
| `DedupCustomers.CodeFreeIff` | scripts/dedup_customers.py:505-514 | handing out the next code violates uq_customer_code, which is per organisation, iff a later-created customer of the same organisation holds it |
| `DedupCustomers.RenumberCustomers` | scripts/dedup_customers.py:480-563 | the loop over all organisations succeeds iff no code is held by a customer of the same organisation created later; otherwise the run is rolled back |
| `DedupCustomers.RenumberedCodesDistinct` | scripts/dedup_customers.py:505-514 | after renumbering the codes follow creation order and are pairwise distinct over all organisations, for any number of customers |
| `DedupCustomers.RenumberCanFail` | app/models/finance/ar/customer.py:48-56 | an instance that fails: a later customer of the organisation holds CUST-00001 |
| `CustomerRun.RunCustomerSteps` | scripts/dedup_customers.py:690-707 | the run of steps 2, 3, 5 and 6 is stored iff nothing raises, the commit goes through and no code handed out is held by a customer of the same organisation created later; otherwise nothing is stored |
| `CustomerRun.FinishedRunIsClean` | scripts/dedup_customers.py:569-645 | end to end: after a stored run the integrity report is clean, every row is with a customer of the name it had, of no two namesakes the steps look for both are left, and the codes count the customers in creation order, no two alike |
| `CustomerRun.CleanIffIntact` | scripts/dedup_customers.py:574-597 | the report counts no orphan iff every foreign key names a customer |
| `CustomerRun.SecondCustomerRun` | scripts/dedup_customers.py:690-707 | a second run finds nothing to merge, cannot fail on a code, and changes nothing |
| `CustomerCodes.DecimalValue` | scripts/dedup_customers.py:506 | the decimal numeral of n reads back as n |
| `CustomerCodes.PaddedValue` | scripts/dedup_customers.py:506 | so does its form padded to five digits |
| `CustomerCodes.CustCodeInjective` | scripts/dedup_customers.py:506 | codes of different numbers differ, also past 99999 |
| `CustomerCodes.CustCodeShape` | scripts/dedup_customers.py:506 | a code is CUST- and the number in at least five digits, without further leading zeros |
| `Calendar.YearLength` | scripts/backfill_inventory_gl_postings.py:175-180 | a year's twelve months, February by the Gregorian leap rule, exactly fill the days up to the next year |
| `Calendar.MonthIndexInverse` | scripts/backfill_inventory_gl_postings.py:175-176 | the month number 12 y + m determines year and month |
| `Calendar.MonthsAbut` | scripts/bulk_import.py:335-340 | monthrange's month end is the day before the first of the next month, also across years and in leap years |
| `Calendar.MonthOrder` | scripts/backfill_inventory_gl_postings.py:178-180 | month boundaries are ordered as the months are |
| `Calendar.DayHasMonth` | scripts/backfill_inventory_gl_postings.py:175-180 | every day of a run of months lies in exactly one of them |
| `Calendar.MonthLengths` | scripts/backfill_inventory_gl_postings.py:178-180 | the lengths of the months in numbers, February with its leap years |
| `Calendar.FirstOrdinal` | scripts/backfill_inventory_gl_postings.py:178-180 | ordinal 1 is the first of January of year 1 |
| `FiscalPeriods.WalkOrg` | scripts/backfill_inventory_gl_postings.py:173-242 | the year/month loop visits exactly the months from first to last |
| `FiscalPeriods.PrepareFiscalPeriods` | scripts/backfill_inventory_gl_postings.py:142-247 | over all organisations; a violated constraint leaves nothing stored |
| `FiscalPeriods.RestoreInventoryFiscalPeriods` | scripts/backfill_inventory_gl_postings.py:250-263 | puts each recorded status back |
| `FiscalPeriods.RestoreFiscalPeriods` | scripts/backfill_gl_postings.py:257-268 | closes each recorded period that is still open |
| `FiscalPeriods.WalkIsFaithful` | scripts/backfill_inventory_gl_postings.py:184-196 | no period is recorded twice, however many months it spans; every record holds the true original status; every other old period is untouched; new ones are OPEN |
| `FiscalPeriods.WalkRaisesIff` | app/models/finance/gl/fiscal_period.py:54-56 | for any periods at all, the walk violates uq_fiscal_period iff some month to be walked lies in no period although its number is taken |
| `FiscalPeriods.WalkCanRaise` | scripts/backfill_inventory_gl_postings.py:198-240 | disjoint, month-aligned periods alone do not prevent that (a family of instances) |
| `FiscalCreation.WalkCreates` | scripts/backfill_inventory_gl_postings.py:198-240 | from any start, a walk that does not raise adds exactly one period, open and numbered by its month, for each walked month no period held, and exactly the fiscal years of those months |
| `FiscalPeriods.InventoryCoverage` | scripts/backfill_inventory_gl_postings.py:142-247 | disjoint month-aligned periods, none of the walked months blocked, stay so, and every day of the range then lies in exactly one period, which accepts postings |
| `FiscalPeriods.GlCoverage` | scripts/backfill_gl_postings.py:148-254 | the generic version covers the same days, and a day's period accepts postings iff it is new or was not FUTURE |
| `FiscalPeriods.ReopenedIff` | scripts/backfill_inventory_gl_postings.py:184-196 | the walk reopens exactly the closed (or, in the inventory version, FUTURE) periods that hold the first day of a walked month |
| `FiscalPeriods.ReopenedStatuses` | scripts/backfill_gl_postings.py:187-201 | by status: the generic version reopens SOFT_CLOSED and HARD_CLOSED periods, the inventory version FUTURE ones too |
| `FiscalPeriods.InventoryRoundTrip` | scripts/backfill_inventory_gl_postings.py:142-263 | prepare, then anything on the recorded periods and any new ones, then restore: each old period has its original status |
| `FiscalPeriods.GlRoundTrip` | scripts/backfill_gl_postings.py:194-268 | with posting leaving the status alone, prepare and restore change exactly the recorded SOFT_CLOSED periods, to HARD_CLOSED |
| `PostingBatches.SettlesIff` | scripts/backfill_gl_postings.py:457-509 | events settle what came before them iff they hold a commit with no rollback before it |
| `PostingBatches.DurableIsKept` | scripts/backfill_gl_postings.py:457-509 | over every sequence of writes, commits and rollbacks exactly the writes that are settled by what follows them become durable |
| `PostingBatches.ProcessInventoryBatch` | scripts/backfill_inventory_gl_postings.py:266-336 | the savepoint loop leaves the session as its event trace does, for all outcomes of posts, savepoint releases and commits |
| `PostingBatches.TallyIsTotal` | scripts/backfill_inventory_gl_postings.py:289-311 | posted + failed + skipped is the number of items plus the number of failed savepoint releases, which is zero iff no release failed |
| `PostingBatches.TallyCounts` | scripts/backfill_inventory_gl_postings.py:280-311 | posted counts the places where the service posted, skipped those that cost nothing |
| `PostingBatches.InventoryKeepsSuccesses` | scripts/backfill_inventory_gl_postings.py:266-336 | an item is kept iff its post succeeded, its savepoint was released and the next commit the loop attempts goes through |
| `PostingBatches.NextCommitMeans` | scripts/backfill_inventory_gl_postings.py:310-332 | the next commit is attempted after the first item from there on with a cost at a place divisible by fifty, else at the end |
| `PostingBatches.ProcessGlBatch` | scripts/backfill_gl_postings.py:457-509 | the rollback loop leaves the session as its event trace does, for all outcomes of posts and commits |
| `PostingBatches.VerdictsCount` | scripts/backfill_gl_postings.py:470-484 | posted and failed are the numbers of places with that verdict |
| `PostingBatches.GlKeepsBlocksAfterLastRaise` | scripts/backfill_gl_postings.py:473-509 | an item is kept iff neither it nor a later item of its block of 50 raised and the commit of the block goes through |
| `PostingBatches.GlSurvivesMeans` | scripts/backfill_gl_postings.py:473-509 | the blocks are those of fifty consecutive items, and the last, shorter one goes with the final commit |
| `PostingBatches.FailureCascadesBackward` | scripts/backfill_gl_postings.py:463-468 | a raising item takes with it exactly the earlier items of its block that would have survived, and no later one |
| `PostingBatches.VersionsDiffer` | scripts/backfill_gl_postings.py:473-509 | one success followed by one failure: the inventory version keeps the first, the generic version nothing |
| `ChunkLoop.PersistedMatchesBatch` | scripts/backfill_gl_postings.py:473-509 | the records the loop no longer finds missing are the ones the batch made durable, under its commit outcomes |
| `ChunkLoop.PersistedIff` | scripts/backfill_gl_postings.py:473-509 | a record stays posted iff its call posted it, no later call of its block raised, and the block was committed |
| `ChunkLoop.RunChunks` | scripts/backfill_gl_postings.py:795-846 | terminates within one round more than there are missing records, when every continuing chunk persists a record; if every call posts and every commit goes through, none is left |
| `ChunkLoop.RoundEndsIff` | scripts/backfill_gl_postings.py:804-842 | a running loop ends after a round iff its chunk was empty, shorter than the limit, or all failures |
| `ChunkLoop.FailedChunkEnds` | scripts/backfill_gl_postings.py:837-842 | a chunk of failures ends it however full it is, and all its records stay missing |
| `ChunkLoop.RoundLeaves` | scripts/backfill_gl_postings.py:804-846 | each round takes off exactly the records that stay posted |
| `ChunkLoop.ChunkSize` | scripts/backfill_gl_postings.py:795-802 | a chunk is distinct missing records, at most the limit of them, and all of them when it has fewer |
| `ChunkLoop.EndsIffNeverStuck` | scripts/backfill_gl_postings.py:795-846 | with a deterministic service the loop ends iff it never meets a full chunk that is not all failures and persists nothing |
| `ChunkLoop.EndsIffNotStuckForGood` | scripts/backfill_gl_postings.py:795-846 | whatever the service answers from round to round, the loop ends iff it is not, from some round on, stuck in such chunks |
| `ChunkLoop.GuardMissesThis` | scripts/backfill_gl_postings.py:837-842 | such a chunk: the first item posts, the second raises and takes it along |
| `ChunkLoop.GuardMissesRefusals` | scripts/backfill_gl_postings.py:837-842 | another: every call returns false |
| `ChunkLoop.GuardMissesCommitFailures` | scripts/backfill_gl_postings.py:493-509 | a third: every call posts and the commit fails |
| `ChunkLoop.LostCommitsNeverEnd` | scripts/backfill_gl_postings.py:795-846 | with commits that never go through and a full chunk missing, the loop goes on for ever though nothing counts as failed |
| `ExactMatchAllocation.ListingFacts` | scripts/allocate_exact_match_payments.py:71-145 | the query with its LIMIT lists candidates with pairwise different payments |
| `ExactMatchAllocation.CandidateColumns` | scripts/allocate_exact_match_payments.py:93-127 | a listed row by columns: a CLEARED payment of positive amount without any allocation, and the one invoice of the same customer that is POSTED, OVERDUE or PARTIALLY_PAID, has a positive balance and a total less than 0.01 off |
| `ExactMatchAllocation.ListedIff` | scripts/allocate_exact_match_payments.py:93-143 | without a LIMIT a payment is listed iff it is such a payment of the year with exactly one such invoice |
| `ExactMatchAllocation.LimitedListing` | scripts/allocate_exact_match_payments.py:136-143 | rows come by payment date, and a positive LIMIT is a prefix of the full answer of that length |
| `ExactMatchAllocation.AllocatePaymentToInvoice` | scripts/allocate_exact_match_payments.py:148-197 | fails iff the invoice is missing or the flush is refused; otherwise the new state is the allocation, made iff something is outstanding |
| `ExactMatchAllocation.RunAllocation` | scripts/allocate_exact_match_payments.py:251-327 | the candidate loop: state and counts for every pattern of failures, the final commit included, a dry run storing nothing |
| `ExactMatchAllocation.CountsMean` | scripts/allocate_exact_match_payments.py:251-317 | errors are the failing candidates, created the ones that get an allocation, and all the others are skipped |
| `ExactMatchAllocation.DryCountsMean` | scripts/allocate_exact_match_payments.py:257-306 | a dry run counts the first candidate of each invoice as created and skips the others |
| `ExactMatchAllocation.KeepsWorkAfterLastFailure` | scripts/allocate_exact_match_payments.py:289-317 | a run keeps exactly the work after its last failing candidate |
| `ExactMatchAllocation.RunGrows` | scripts/allocate_exact_match_payments.py:251-327 | one run, whatever fails: at most one allocation per payment and only for payments without one, none above its payment and none to another customer's invoice, amount_paid grown by exactly the new allocations and never past the total by them |
| `ExactMatchAllocation.RunsConserve` | scripts/allocate_exact_match_payments.py:251-327 | the same over any number of runs |
| `ExactMatchAllocation.DryRunAgrees` | scripts/allocate_exact_match_payments.py:269-306 | in a run without errors an invoice's first candidate gets the announced amount, and the announced status iff the payment covers the balance |
| `ExactMatchAllocation.DryStatusMeans` | scripts/allocate_exact_match_payments.py:277-283 | the announced status is PAID iff the payment falls short of the balance by at most 0.01, and else PARTIALLY_PAID |
| `ExactMatchAllocation.WholeKoboPaysInFull` | scripts/allocate_exact_match_payments.py:148-197 | with whole-kobo amounts every allocation leaves the invoice PAID in full, as announced |
| `ExactMatchAllocation.DryRunCountsAgree` | scripts/allocate_exact_match_payments.py:257-306 | dry run and error-free execution report the same counts |
| `ExactMatchAllocation.SubKoboDisagrees` | scripts/allocate_exact_match_payments.py:277-283 | a store whose one listed payment is half a kobo short: announced PAID, and PARTIALLY_PAID after every execution without errors |
| `ExceptionSearch.Search` | app/main.py:321-362 | one recursive call terminates, and a False answer has added only fully explored non-targets though ancestors are still in progress |
| `ExceptionSearch.IsNoResponseRuntimeError` | app/main.py:321-362 | for every finite graph, cyclic or not: True iff a target exception is reachable |
| `ExceptionSearch.FalseVisitsAllReachable` | app/main.py:321-362 | a False answer has visited exactly what is reachable |
| `ExceptionSearch.NothingToFindIff` | app/main.py:329-362 | nothing is to be found iff the exception lies in some set without a target that holds every cause, context and group member of its elements |
| `AuditCache.SettingsCache.Load` | app/main.py:597-640 | one undisturbed call returns a young cached value, else the parsed rows, which it caches under its start time |
| `AuditCache.LookupMeans` | app/main.py:603-609 | an entry is used iff it was stored, its timestamp is not zero and it is less than 30 seconds old |
| `AuditCache.StepsAreLoad` | app/main.py:597-640 | undisturbed, a call's small steps are one load |
| `AuditCache.ReturnedSettingsAreFresh` | app/main.py:597-640 | for every interleaving of callers and writers the settings returned are what the database parsed to at some instant later than the call's start minus 30 seconds |
| `AuditCache.OldWritesAreVisible` | app/main.py:597-640 | a last write at least 30 seconds older than the call is what the call returns |
| `AuditCache.ReturnedStays` | app/main.py:597-640 | whatever happens later, what a call returned stays |
| `AuditCache.SlowLoaderOverwrites` | app/main.py:637-639 | a slow loader can put an older value and timestamp over a newer entry (a concrete run) |
| `LokiDelivery.ResilientLokiHandler.HandleFailure` | app/monitoring.py:227-239 | the new counters and retry time, and when the power overflows |
| `LokiDelivery.ResilientLokiHandler.Emit` | app/monitoring.py:197-225 | the new state for each answer, backing off included |
| `LokiDelivery.StepsAreEmit` | app/monitoring.py:197-225 | undisturbed, the listener's small steps are one emit |
| `LokiDelivery.FailureCounts` | app/monitoring.py:227-239 | with fewer than 1023 failures counted, either kind of failure is counted, dropped and shared, and sets the retry time by the delay of its number |
| `LokiDelivery.OverflowLeaves` | app/monitoring.py:218-230 | from there on a failing push changes nothing but the count, which an HTTP error raises twice |
| `LokiDelivery.Backoffs` | app/monitoring.py:227-230 | the delays in numbers: 2, 4, 8, 16, 32, 64 seconds, and 120 from the seventh failure on |
| `LokiDelivery.OfferMeans` | app/monitoring.py:252-263 | a record offered is queued iff fewer than ten thousand are, and otherwise dropped |
| `LokiDelivery.RecordsAreConserved` | app/monitoring.py:197-263 | over every interleaving, offered = queued + in flight + sent + dropped, plus one exactly when the listener has died; the queue is bounded; at emit boundaries the shared counter is the handler's |
| `LokiDelivery.DeathNeedsOverflow` | app/monitoring.py:227-230 | the listener dies only after 1023 counted consecutive failures |
| `LokiDelivery.OverflowKills` | app/monitoring.py:227-230 | over every interleaving the listener is dead iff some push failed while 1023 consecutive failures were counted |
| `LokiDelivery.ListenerCanDie` | app/monitoring.py:227-230 | some run gets there: 1024 records offered, 1023 counted as dropped, none sent, the last one counted nowhere |
| `LokiDelivery.DeadStaysDead` | app/monitoring.py:197-239 | a dead listener never delivers again |
| `LokiDelivery.FailedAttemptsAreRare` | app/monitoring.py:199-230 | in a run of n >= 7 consecutive failures the last attempt starts at least 126 + 120 (n - 7) seconds after the first |
| `InclusiveTax.SplitIsExact` | scripts/backfill_splynx_tax.py:70-79 | subtotal + tax = total, and the tax is within half a kobo of the exact share |
| `InclusiveTax.TiesGoAway` | scripts/backfill_splynx_tax.py:70-79 | half a kobo is rounded away from zero |
| `InclusiveTax.TaxMonotone` | scripts/backfill_splynx_tax.py:70-79 | the tax never falls when the total rises |
| `InclusiveTax.NeverDropsIff` | scripts/backfill_splynx_tax.py:70-79 | raising a total by d never lowers its subtotal, on any totals, iff the rate or d is zero or the share of d, rounded down, and one kobo more are within d |
| `InclusiveTax.NeverDropsFromZeroIff` | scripts/backfill_splynx_tax.py:70-79 | on totals that are not negative, iff the share of d, rounded up, is within d |
| `InclusiveTax.KoboRisesKeepSubtotals` | scripts/backfill_splynx_tax.py:70-79 | at rates up to 100% both say: iff d is zero or at least one kobo |
| `InclusiveTax.SubtotalMonotone` | scripts/backfill_splynx_tax.py:70-79 | so between whole-kobo totals the subtotal never drops, at any rate |
| `InclusiveTax.SubKoboSubtotalDrops` | scripts/backfill_splynx_tax.py:70-79 | an instance that drops, at 7.5%: the totals of 7.16 and 7.17 kobo |
| `InclusiveTax.ReapplyingRate` | scripts/backfill_splynx_tax.py:70-79 | re-applying the rate to the subtotal gives the tax back within a kobo, for every rate below 200% |
| `InclusiveTax.LinesAgainstHeader` | scripts/backfill_splynx_tax.py:134-182 | a backfilled invoice whose n lines had no tax and summed to its total: lines and taxes still sum to it, and the line taxes sum to the header tax within (n + 1)/2 kobo |
| `InclusiveTax.BackfillOrg` | scripts/backfill_splynx_tax.py:87-201 | the two nested loops, for every listing order: the new invoices, lines and tax records, and the statistics; a dry run writes nothing and reports the same |
| `InclusiveTax.InvoicesAfter` | scripts/backfill_splynx_tax.py:115-148 | an invoice of another organisation, without a Splynx id, with a tax or without a positive total stays as it was; every other one gets its split |
| `InclusiveTax.LinesAfter` | scripts/backfill_splynx_tax.py:152-170 | a line of another invoice, or with a tax, stays as it was; every other one gets its split and the tax code |
| `InclusiveTax.RecordsAfter` | scripts/backfill_splynx_tax.py:174-196 | no tax record changes, and one is added for each of these lines that had none for the code |
| `InclusiveTax.StatsMean` | scripts/backfill_splynx_tax.py:95-196 | the statistics count these invoices, their lines and the records added |
| `InclusiveTax.SecondRunIsNoOp` | scripts/backfill_splynx_tax.py:87-201 | a second run changes nothing |
| `BankMatching.FindInvoiceMatches` | scripts/bank_match_suggestions.py:355-398 | the answer is the first hit in the stated order, or NO_AMOUNT_MATCH iff no candidate in any window is within tolerance, or NO_OPEN_INVOICES iff the list is empty |
| `BankMatching.MatchByAmounts` | scripts/bank_match_suggestions.py:327-398 | the same answer in numbers, pattern by pattern: within 100 of a total, of 0.95, 0.94, 0.925 or 0.875 of a subtotal, of two totals at most five apart, of three among the first eight and the next four and three; each pattern only if no earlier one fits, each with its first fit |
| `BankMatching.FirstHitUnique` | scripts/bank_match_suggestions.py:355-398 | the first hit is unique, so the answer is determined |
| `BankMatching.ProposalIsIncreasing` | scripts/bank_match_suggestions.py:355-398 | proposed invoices are in strictly increasing list order |
| `BankMatching.ProposalAddsUp` | scripts/bank_match_suggestions.py:355-398 | a gross candidate is a hit iff the listed totals add up to the bank amount within tolerance |
| `BankMatching.FindCustomerMatch` | scripts/bank_match_suggestions.py:271-324 | an occurring name beats an acronym hint, which beats shared words; within each, the stated best and the first of equals; the confidence goes with the kind and overlap; none iff nothing fits at all |
| `BankMatching.NameOccursIff` | scripts/bank_match_suggestions.py:284-294 | a name occurs iff its eight or more characters stand in the text in one piece |
| `BankMatching.HintFitsIff` | scripts/bank_match_suggestions.py:296-303 | a hint fits iff two different words are shared, or one by a customer of at most three words |
| `BankMatching.GradeMeans` | scripts/bank_match_suggestions.py:317-324 | three shared words or more are HIGH, two MEDIUM, one LOW, none no match |

## Left out

- SQL, the ORM, logging, argument parsing and reports: queries are functions or admissible listings of the store, writes are map updates.
- Posting, allocation, period and reconciliation services: their code is not part of this model; every outcome sequence is allowed.
- Documents of other organisations in `dedup_ar_transactions.py`: its queries select one organisation, and the store's payments, invoices and ledger are that one's. `dedup_customers.py` selects none; its customers and rows carry theirs. Row-level security of the database is not modelled.
- Step 1 of `dedup_customers.py`, which fills in customers' external ids: the model starts from whatever ids they then have. Its step 4 only reports. The numbering sequence that step 5 updates and the balances step 7 of `dedup_ar_transactions.py` rebuilds are no part of the store.
- Progress counters of the de-duplication steps in failed batches: several are not undone on rollback, and only the stored state is modelled.
- DedupTransactions.MergeDupCustomers: after a refused statement the database is taken to refuse every later one, as PostgreSQL does until a rollback; running that step alone, where the script then commits the aborted transaction, is not modelled.
- The tolerance of one hundredth in the trial-balance check: the model's difference is exact, so a clean model report is a stronger statement.
- `lower(trim(..))`, string collation (by code point here), tokenising and acronym detection by regular expression: names, word sets and hint sets are given.
- The conversion of settings rows to values: one parse function is a parameter of the cache.
- The clipping of date ranges to the earliest valid date: the first and last month are parameters.
- Decimal context precision and the float cast of the allocation tolerance: amounts are exact.
- HTTP sessions, metrics objects and error texts of the Loki handler: a push is accepted, refused or raises.
- FiscalPeriods.GlRoundTrip: asks that nothing between prepare and restore changes the period's status, since the script closes only what is still OPEN; the inventory round trip does not ask it.
- ChunkLoop.EndsIffNeverStuck: asks for a service that answers the same missing records the same way; `RunChunks` and `EndsIffNotStuckForGood` do not.
- Finding VAT codes, fetching open invoices and statement lines for the bank report, and its patterns for lines that are no customer payment: they only choose what the modelled functions are given.
- DedupCustomers.IdsKeptIff: asks for ids without commas, so it does not speak of ids that are themselves joins from an earlier run; `WholeJoinIff` does.
- Python's recursion limit in the exception search: a chain deep enough raises RecursionError instead of answering.
- PostingBatches.ProcessInventoryBatch: opening a savepoint always succeeds, and so does rolling one back, also after its release failed; SQLAlchemy may have closed it by then.
- Exceptions out of the queries of the chunk loop and of the month walk other than a violated constraint: they end the script.
